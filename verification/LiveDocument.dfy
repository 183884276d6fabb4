/**
 * A live document of the knowledge base, and its deduplicating append. Text is read with universal newlines: what was
 * written comes back with every carriage return made a line feed, so "the content" is what a read gives.
 */
module LiveDocument {
  import opened Prelude
  import opened Text

  /** What a read makes of the text in the file. */
  function Normal(s: string): string {
    if s == "" then "" else [if s[0] == '\r' then '\n' else s[0]] + Normal(s[FirstLength(s)..])
  }

  /** A carriage return and the line feed behind it are read together. */
  function FirstLength(s: string): (n: nat)
    requires s != ""
    ensures 1 <= n <= |s|
  {
    if s[0] == '\r' && |s| > 1 && s[1] == '\n' then 2 else 1
  }

  predicate Occurs(literal: string, s: string) {
    exists k :: 0 <= k <= |s| && Starts(s[k..], literal)
  }

  /** `_first_nonempty_line`. */
  function Marker(entry: string): string {
    var end := LineEnd(entry, 0);
    if Strip(entry[..end]) != "" then Strip(entry[..end])
    else if end < |entry| then Marker(entry[end + 1..])
    else ""
  }

  predicate EndsWith(s: string, tail: string) {
    |tail| <= |s| && s[|s| - |tail|..] == tail
  }

  /** What goes between the existing content and an entry: a blank line. */
  function Joiner(existing: string): string {
    if existing == "" || EndsWith(existing, "\n\n") then "" else if EndsWith(existing, "\n") then "\n" else "\n\n"
  }

  function Ending(content: string): string {
    if EndsWith(content, "\n") then "" else "\n"
  }

  /** The new content: the existing one, a blank line, the entry, and a final line feed. */
  function Extended(existing: string, entry: string): string {
    var content := existing + Joiner(existing) + entry;
    content + Ending(content)
  }

  /** What an append writes behind the existing content. */
  function Behind(existing: string, entry: string): string {
    Joiner(existing) + entry + Ending(existing + Joiner(existing) + entry)
  }

  lemma ExtendedBehind(existing: string, entry: string)
    ensures Extended(existing, entry) == existing + Behind(existing, entry)
  {
    var end := Ending(existing + Joiner(existing) + entry);
    assert existing + Joiner(existing) + entry + end == existing + (Joiner(existing) + entry + end);
  }

  /** The content an append starts from: that of the file, or the header. */
  function Existing(file: Option<string>, header: string): string {
    match file
    case Some(text) => Normal(text)
    case None => header
  }

  /** The file after one append. */
  function Appended(file: Option<string>, header: string, entry: string): Option<string> {
    var existing := Existing(file, header);
    if Marker(entry) != "" && Occurs(Marker(entry), existing) then file
    else Some(Extended(existing, entry))
  }

  /** The file after a list of appends with the same header. */
  function Replayed(file: Option<string>, header: string, entries: seq<string>): Option<string>
    decreases |entries|
  {
    if entries == [] then file else Replayed(Appended(file, header, entries[0]), header, entries[1..])
  }

  /** A document of one project: a file that may not exist. */
  class Document {
    var file: Option<string>

    /** `read`; the error is the missing file. */
    method Read() returns (content: Option<string>)
      ensures content == match file case Some(text) => Some(Normal(text)) case None => None
    {
      content := if file.Some? then Some(Normal(file.value)) else None;
    }

    /** `append`. */
    method Append(entry: string, header: string)
      modifies this
      ensures file == Appended(old(file), header, entry)
    {
      var content := Read();
      var existing := if content.Some? then content.value else header;
      var marker := Marker(entry);
      if marker != "" {
        Searched(existing, marker, 0);
        if FindSub(existing, marker, 0).Some? {
          return;
        }
      }
      var content' := existing + Joiner(existing) + entry;
      file := Some(content' + Ending(content'));
    }
  }

  lemma {:induction false} Searched(s: string, literal: string, i: nat)
    requires literal != "" && i <= |s|
    ensures FindSub(s, literal, i).Some? <==> exists k :: i <= k <= |s| && Starts(s[k..], literal)
    decreases |s| - i
  {
    if i < |s| && !Starts(s[i..], literal) {
      Searched(s, literal, i + 1);
    }
  }

  // ---------------------------------------------------------------- what is read, sought and written

  /** A carriage return is read as a line feed, once with the line feed behind it; everything else as it is. */
  lemma NewlinesRead(c: char, rest: string)
    ensures Normal("\r\n" + rest) == "\n" + Normal(rest)
    ensures rest == "" || rest[0] != '\n' ==> Normal("\r" + rest) == "\n" + Normal(rest)
    ensures c != '\r' ==> Normal([c] + rest) == [c] + Normal(rest)
  {
    assert ("\r\n" + rest)[2..] == rest && ("\r" + rest)[1..] == rest && ([c] + rest)[1..] == rest;
    assert rest != "" ==> ("\r" + rest)[1] == rest[0];
  }

  /** The marker is the first line that is not blank, stripped. */
  lemma MarkerOfLines(line: string, rest: string)
    requires forall i :: 0 <= i < |line| ==> !IsLineBreak(line[i])
    ensures Marker(line + ("\n" + rest)) == if Strip(line) != "" then Strip(line) else Marker(rest)
    ensures Marker(line) == Strip(line)
  {
    var s := line + ("\n" + rest);
    LineEndAt(s, |line|, 0);
    LineEndAt(line, |line|, 0);
    assert s[..|line|] == line && s[|line| + 1..] == rest && line[..|line|] == line;
  }

  lemma {:induction false} LineEndAt(s: string, n: nat, i: nat)
    requires i <= n <= |s| && (forall k :: 0 <= k < n ==> !IsLineBreak(s[k])) && (n < |s| ==> IsLineBreak(s[n]))
    ensures LineEnd(s, i) == n
    decreases n - i
  {
    if i < n {
      LineEndAt(s, n, i + 1);
    }
  }

  /** A marker occurs in content that is something, the marker, and something, and only there. */
  lemma OccursBetween(before: string, marker: string, after: string)
    ensures Occurs(marker, before + marker + after)
  {
    var t := before + marker + after;
    assert Starts(t[|before|..], marker);
  }

  lemma OccursWhere(marker: string, s: string) returns (before: string, after: string)
    requires Occurs(marker, s)
    ensures s == before + marker + after
  {
    var k :| 0 <= k <= |s| && Starts(s[k..], marker);
    before, after := s[..k], s[k..][|marker|..];
    assert s[k..] == marker + after && s == s[..k] + s[k..];
  }

  /** In front of an entry: nothing, or as many line breaks as make a blank line. */
  lemma JoinerIs(front: string)
    ensures Joiner("") == "" && Joiner(front + "\n\n") == "" && Joiner("\n") == "\n"
    ensures front != "" && front[|front| - 1] != '\n' ==> Joiner(front) == "\n\n" && Joiner(front + "\n") == "\n"
  {
    JoinerBlank(front);
    if front != "" && front[|front| - 1] != '\n' {
      LastOfTail(front);
      JoinerBroken(front);
    }
  }

  lemma JoinerBlank(front: string)
    ensures Joiner(front + "\n\n") == ""
  {
    var s := front + "\n\n";
    assert s[|s| - 2..] == "\n\n";
  }

  lemma JoinerBroken(front: string)
    requires front != "" && front[|front| - 1] != '\n'
    ensures Joiner(front + "\n") == "\n"
  {
    var s := front + "\n";
    assert s[|s| - 1..] == "\n" && s[|s| - 2..][0] == front[|front| - 1];
  }

  lemma LastOfTail(front: string)
    requires front != "" && front[|front| - 1] != '\n'
    ensures !EndsWith(front, "\n") && !EndsWith(front, "\n\n")
  {
    if |front| >= 2 {
      assert front[|front| - 2..][1] == front[|front| - 1];
    }
  }

  lemma EndingIs(front: string)
    ensures Ending(front + "\n") == "" && Ending("") == "\n"
    ensures front != "" && front[|front| - 1] != '\n' ==> Ending(front) == "\n"
  {
    assert (front + "\n")[|front|..] == "\n";
    if front != "" && front[|front| - 1] != '\n' {
      LastOfTail(front);
    }
  }

  /** What is written for an entry whose marker is not there: what was read or else the header, and the entry. */
  lemma AppendWrites(text: string, header: string, entry: string)
    ensures Marker(entry) == "" || !Occurs(Marker(entry), header) ==>
      Appended(None, header, entry) == Some(header + Joiner(header) + entry + Ending(header + Joiner(header) + entry))
    ensures Marker(entry) == "" || !Occurs(Marker(entry), Normal(text)) ==>
      var read := Normal(text);
      Appended(Some(text), header, entry) == Some(read + Joiner(read) + entry + Ending(read + Joiner(read) + entry))
    ensures Marker(entry) != "" && Occurs(Marker(entry), header) ==> Appended(None, header, entry) == None
    ensures Marker(entry) != "" && Occurs(Marker(entry), Normal(text)) ==>
      Appended(Some(text), header, entry) == Some(text)
  {
  }

  // ---------------------------------------------------------------- reading back

  lemma {:induction false} NormalClean(s: string)
    ensures '\r' !in Normal(s)
  {
    if s != "" {
      NormalClean(s[FirstLength(s)..]);
    }
  }

  /** Content without carriage returns is read as it is. */
  lemma {:induction false} CleanPrefix(a: string, b: string)
    requires '\r' !in a
    ensures Normal(a + b) == a + Normal(b)
  {
    if a == "" {
      assert a + b == b;
    } else {
      assert (a + b)[1..] == a[1..] + b;
      CleanPrefix(a[1..], b);
    }
  }

  lemma FirstSplit(a: string, b: string, n: nat)
    requires a != "" && b != "" && b[0] != '\n' && n == FirstLength(a)
    ensures FirstLength(a + b) == n && (a + b)[n..] == a[n..] + b && (a + b)[0] == a[0]
  {
    assert |a| == 1 ==> (a + b)[1] == b[0];
  }

  /** Reading is done piece by piece, except across a carriage return and its line feed. */
  lemma {:induction false} NormalSplit(a: string, b: string)
    requires b != "" && b[0] != '\n'
    ensures Normal(a + b) == Normal(a) + Normal(b)
  {
    if a == "" {
      assert a + b == b;
    } else {
      var n := FirstLength(a);
      FirstSplit(a, b, n);
      NormalSplit(a[n..], b);
      Regroup([if a[0] == '\r' then '\n' else a[0]], Normal(a[n..]), Normal(b));
    }
  }

  /** A marker is never torn by reading. */
  lemma MarkerSurvives(a: string, marker: string, b: string)
    requires marker != "" && '\r' !in marker && '\n' !in marker
    ensures Occurs(marker, Normal(a + marker + b))
  {
    assert (marker + b)[0] == marker[0] && a + marker + b == a + (marker + b);
    NormalSplit(a, marker + b);
    CleanPrefix(marker, b);
    var s := Normal(a + marker + b);
    assert s[|Normal(a)|..] == marker + Normal(b);
  }

  /** What a line holds besides white space is one piece of it, without line breaks. */
  lemma LineInside(entry: string, end: nat) returns (before: string, after: string)
    requires end <= |entry| && '\r' !in entry[..end] && '\n' !in entry[..end]
    ensures entry == before + Strip(entry[..end]) + after
    ensures '\r' !in Strip(entry[..end]) && '\n' !in Strip(entry[..end])
  {
    var a, b := StripInside(entry[..end]);
    before, after := a, b + entry[end..];
    assert entry == entry[..end] + entry[end..];
  }

  lemma {:induction false} MarkerInside(entry: string) returns (before: string, after: string)
    requires Marker(entry) != ""
    ensures entry == before + Marker(entry) + after
    ensures '\r' !in Marker(entry) && '\n' !in Marker(entry)
    decreases |entry|
  {
    var end := LineEnd(entry, 0);
    NoBreakBefore(entry, 0);
    MarkerOf(entry, end);
    if Strip(entry[..end]) != "" {
      before, after := LineInside(entry, end);
    } else {
      var rest := entry[end + 1..];
      var a, b := MarkerInside(rest);
      before, after := entry[..end + 1] + a, b;
      MarkerBehind(entry, end + 1, a, Marker(rest), b);
    }
  }

  /** The marker comes from the first line, or from the lines behind it. */
  lemma MarkerOf(entry: string, end: nat)
    requires end == LineEnd(entry, 0) && Marker(entry) != ""
    ensures Strip(entry[..end]) != "" ==> Marker(entry) == Strip(entry[..end])
    ensures Strip(entry[..end]) == "" ==> end < |entry| && Marker(entry) == Marker(entry[end + 1..])
  {
  }

  lemma MarkerBehind(entry: string, n: nat, a: string, marker: string, b: string)
    requires n <= |entry| && entry[n..] == a + marker + b
    ensures entry == (entry[..n] + a) + marker + b
  {
    assert entry == entry[..n] + entry[n..];
  }

  lemma {:induction false} NoBreakBefore(s: string, i: nat)
    requires i <= |s|
    ensures forall k :: i <= k < LineEnd(s, i) ==> s[k] != '\r' && s[k] != '\n'
    decreases |s| - i
  {
    if i < |s| && !IsLineBreak(s[i]) {
      NoBreakBefore(s, i + 1);
    }
  }

  // ---------------------------------------------------------------- appends

  /** The entry's marker is in the content, so appending it again does nothing. */
  predicate Seen(file: Option<string>, header: string, entry: string) {
    Marker(entry) != "" && Occurs(Marker(entry), Existing(file, header))
  }

  lemma AppendSees(file: Option<string>, header: string, entry: string)
    requires Marker(entry) != ""
    ensures Seen(Appended(file, header, entry), header, entry)
  {
    var existing := Existing(file, header);
    if !Occurs(Marker(entry), existing) {
      var content := existing + Joiner(existing) + entry;
      EntryMarked(existing + Joiner(existing), entry, Ending(content));
    }
  }

  /** Wherever an entry is written, its marker is read. */
  lemma EntryMarked(before: string, entry: string, after: string)
    requires Marker(entry) != ""
    ensures Occurs(Marker(entry), Normal(before + entry + after))
  {
    var a, b := MarkerInside(entry);
    MarkerSurvives(before + a, Marker(entry), b + after);
    assert before + entry + after == (before + a) + Marker(entry) + (b + after);
  }

  /** What occurs in some content still does when more is written behind it. */
  lemma OccursStays(content: string, marker: string, after: string)
    requires marker != "" && '\r' !in marker && '\n' !in marker && Occurs(marker, content)
    ensures Occurs(marker, Normal(content + after))
  {
    var k :| 0 <= k <= |content| && Starts(content[k..], marker);
    var behind := content[k + |marker|..] + after;
    assert content[k..k + |marker|] == marker;
    assert content + after == content[..k] + marker + behind;
    MarkerSurvives(content[..k], marker, behind);
  }

  lemma SeenStays(file: Option<string>, header: string, entry: string, other: string)
    requires Seen(file, header, entry)
    ensures Seen(Appended(file, header, other), header, entry)
  {
    var existing := Existing(file, header);
    var _, _ := MarkerInside(entry);
    ExtendedBehind(existing, other);
    OccursStays(existing, Marker(entry), Behind(existing, other));
  }

  lemma {:induction false} SeenThroughout(file: Option<string>, header: string, entries: seq<string>, entry: string)
    requires Seen(file, header, entry)
    ensures Seen(Replayed(file, header, entries), header, entry)
    decreases |entries|
  {
    if entries != [] {
      SeenStays(file, header, entry, entries[0]);
      SeenThroughout(Appended(file, header, entries[0]), header, entries[1..], entry);
    }
  }

  lemma {:induction false} ReplaySees(file: Option<string>, header: string, entries: seq<string>, i: nat)
    requires i < |entries| && Marker(entries[i]) != ""
    ensures Seen(Replayed(file, header, entries), header, entries[i])
    decreases |entries|
  {
    var next := Appended(file, header, entries[0]);
    if i == 0 {
      AppendSees(file, header, entries[0]);
      SeenThroughout(next, header, entries[1..], entries[0]);
    } else {
      ReplaySees(next, header, entries[1..], i - 1);
    }
  }

  lemma {:induction false} NothingNew(file: Option<string>, header: string, entries: seq<string>)
    requires forall i :: 0 <= i < |entries| ==> Seen(file, header, entries[i])
    ensures Replayed(file, header, entries) == file
    decreases |entries|
  {
    if entries != [] {
      assert Seen(file, header, entries[0]);
      NothingNew(file, header, entries[1..]);
    }
  }

  /** Replaying any list of non-blank entries a second time changes nothing. */
  lemma ReplayTwice(file: Option<string>, header: string, entries: seq<string>)
    requires forall i :: 0 <= i < |entries| ==> Marker(entries[i]) != ""
    ensures Replayed(Replayed(file, header, entries), header, entries) == Replayed(file, header, entries)
  {
    var once := Replayed(file, header, entries);
    forall i | 0 <= i < |entries| ensures Seen(once, header, entries[i]) {
      ReplaySees(file, header, entries, i);
    }
    NothingNew(once, header, entries);
  }

  /** What goes in front of an entry makes a blank line of what is there, and adds nothing that is not needed. */
  lemma JoinerLeavesBlankLine(existing: string)
    ensures existing == "" ==> Joiner(existing) == ""
    ensures existing != "" ==> EndsWith(existing + Joiner(existing), "\n\n")
    ensures EndsWith(existing, "\n\n") ==> Joiner(existing) == ""
  {
    if existing != "" && !EndsWith(existing, "\n\n") {
      var s := existing + Joiner(existing);
      assert s[|s| - 2] == '\n' && s[|s| - 1] == '\n';
    }
  }

  /** An entry ends its line, and a line that is ended stays as it is. */
  lemma EntryEndsItsLine(content: string)
    ensures EndsWith(content + Ending(content), "\n")
    ensures EndsWith(content, "\n") ==> Ending(content) == ""
  {
    var s := content + Ending(content);
    assert !EndsWith(content, "\n") ==> s[|s| - 1] == '\n';
  }

  /** What ends a read text is not changed by reading it again, so nothing at all may stand behind it. */
  lemma ReadAgain(w: string, behind: string)
    requires w == Normal(w) + behind
    ensures behind == "" && '\r' !in w
  {
    NormalClean(w);
    CleanPrefix(Normal(w), behind);
    assert |Normal(behind)| == |Normal(w)| - |Normal(w)|;
    assert Normal(w) + "" == Normal(w);
  }

  lemma BlankLineLeft(existing: string)
    requires existing != ""
    ensures Extended(existing, "") == existing + Joiner(existing) && Joiner(Extended(existing, "")) == ""
  {
    var content := existing + Joiner(existing);
    JoinerLeavesBlankLine(existing);
    assert content[|content| - 1..] == "\n";
    assert content + "" == content;
  }

  /**
   * Appending an entry twice does the same as appending it once exactly when the entry shows a line, or is empty and
   * finds some content without carriage returns.
   */
  lemma RepeatedIff(file: Option<string>, header: string, entry: string)
    ensures Appended(Appended(file, header, entry), header, entry) == Appended(file, header, entry) <==>
      || Marker(entry) != ""
      || (entry == "" && Existing(file, header) != "" && '\r' !in Existing(file, header))
  {
    var existing := Existing(file, header);
    if Marker(entry) != "" {
      AppendSees(file, header, entry);
    } else {
      BlankRepeatedIff(existing, entry);
    }
  }

  /** Extending content by the same entry, with a read in between, adds nothing exactly to content that has a line. */
  lemma BlankRepeatedIff(existing: string, entry: string)
    ensures Extended(Normal(Extended(existing, entry)), entry) == Extended(existing, entry)
      <==> entry == "" && existing != "" && '\r' !in existing
  {
    if Extended(Normal(Extended(existing, entry)), entry) == Extended(existing, entry) {
      NothingAdded(existing, entry);
    }
    if entry == "" && existing != "" && '\r' !in existing {
      BlankLineKept(existing);
    }
  }

  lemma NothingAdded(existing: string, entry: string)
    requires Extended(Normal(Extended(existing, entry)), entry) == Extended(existing, entry)
    ensures entry == "" && existing != "" && '\r' !in existing
  {
    var w := Extended(existing, entry);
    ExtendedBehind(Normal(w), entry);
    ExtendedBehind(existing, entry);
    ReadAgain(w, Behind(Normal(w), entry));
    assert w[..|existing|] == existing;
    LoneBreak();
  }

  lemma LoneBreak()
    ensures Extended("", "") == "\n" && Normal("\n") == "\n" && Joiner("\n") == "\n"
  {
  }

  lemma BlankLineKept(existing: string)
    requires existing != "" && '\r' !in existing
    ensures Extended(Normal(Extended(existing, "")), "") == Extended(existing, "")
  {
    var w := Extended(existing, "");
    BlankLineLeft(existing);
    CleanPrefix(w, "");
    assert w + "" == w;
    BlankLineLeft(w);
  }

  lemma AppendKeepsPrefix(text: string, header: string, entry: string)
    ensures Appended(Some(text), header, entry).Some?
    ensures Normal(text) <= Normal(Appended(Some(text), header, entry).value)
  {
    NormalClean(text);
    ExtendedBehind(Normal(text), entry);
    CleanPrefix(Normal(text), Behind(Normal(text), entry));
  }

  /** The content read at one time is a prefix of the content read at any later time. */
  lemma {:induction false} ContentGrows(text: string, header: string, entries: seq<string>)
    ensures Replayed(Some(text), header, entries).Some?
    ensures Normal(text) <= Normal(Replayed(Some(text), header, entries).value)
    decreases |entries|
  {
    if entries != [] {
      AppendKeepsPrefix(text, header, entries[0]);
      ContentGrows(Appended(Some(text), header, entries[0]).value, header, entries[1..]);
    }
  }
}
