/**
 * The fenced blocks of a description, before and after escaping: `_html` looks for them in the escaped text, and what
 * it finds there are the escaped blocks of the description itself.
 */
module TicketBlocks {
  import opened Prelude
  import opened Text
  import opened TicketPage
  import opened TicketRecheck

  // ---------------------------------------------------------------- blocks without positions

  predicate TicksAt(s: string) {
    |s| >= 3 && s[0] == '`' && s[1] == '`' && s[2] == '`'
  }

  lemma StartsTicks(s: string)
    ensures Starts(s, TICKS) <==> TicksAt(s)
  {
  }

  function AfterLetters(s: string): string {
    if s != "" && 'a' <= s[0] <= 'z' then AfterLetters(s[1..]) else s
  }

  /** What stands behind an opening fence: its ticks, its letters and its line break. */
  function Body(s: string): Option<string> {
    if !TicksAt(s) then None else BehindBreak(AfterLetters(s[3..]))
  }

  function BehindBreak(s: string): Option<string> {
    if s != "" && s[0] == '\n' then Some(s[1..]) else None
  }

  /** A text cut at its first ticks: what is in front of them, and what is behind. */
  function CutAtTicks(s: string): Option<(string, string)> {
    if s == "" then None
    else if TicksAt(s) then Some(("", s[3..]))
    else PutInFront([s[0]], CutAtTicks(s[1..]))
  }

  function PutInFront(front: string, cut: Option<(string, string)>): Option<(string, string)> {
    match cut case Some((a, b)) => Some((front + a, b)) case None => None
  }

  /** The block at the start of a text: its raw content, and what stands behind it. */
  function Parts(s: string): Option<(string, string)> {
    match Body(s) case Some(body) => CutAtTicks(body) case None => None
  }

  /** The same, by positions. */
  function PartsAt(s: string, place: Option<(nat, nat)>): Option<(string, string)>
    requires place.Some? ==> place.value.0 <= place.value.1 && place.value.1 + 3 <= |s|
  {
    match place case Some((i, j)) => Some((s[i..j], s[j + 3..])) case None => None
  }

  function CutAt(s: string, place: Option<nat>): Option<(string, string)>
    requires place.Some? ==> place.value + 3 <= |s|
  {
    match place case Some(j) => Some((s[..j], s[j + 3..])) case None => None
  }

  lemma TicksInside(s: string, i: nat)
    ensures FindSub(s, TICKS, i).Some? ==> FindSub(s, TICKS, i).value + 3 <= |s|
  {
  }

  lemma CutBehind(s: string, place: Option<nat>)
    requires s != "" && (place.Some? ==> place.value + 3 <= |s| - 1)
    ensures CutAt(s, FoundLater(place, 1)) == PutInFront([s[0]], CutAt(s[1..], place))
  {
    if place.Some? {
      var j := place.value;
      assert s[..1 + j] == [s[0]] + s[1..][..j];
      assert s[1 + j + 3..] == s[1..][j + 3..];
    }
  }

  lemma {:induction false} CutIsSearch(s: string)
    ensures FindSub(s, TICKS, 0).Some? ==> FindSub(s, TICKS, 0).value + 3 <= |s|
    ensures CutAtTicks(s) == CutAt(s, FindSub(s, TICKS, 0))
  {
    if s != "" {
      TicksInside(s, 0);
      StartsTicks(s);
      assert s[0..] == s;
      if TicksAt(s) {
        assert s[..0] == "";
      } else {
        FoundInSuffix(s, TICKS, 1);
        CutIsSearch(s[1..]);
        CutBehind(s, FindSub(s[1..], TICKS, 0));
      }
    }
  }

  lemma {:induction false} LettersBehind(s: string)
    ensures AfterLetters(s) == s[Letters(s)..]
  {
    if s != "" && 'a' <= s[0] <= 'z' {
      LettersBehind(s[1..]);
      assert s[1..][Letters(s[1..])..] == s[1 + Letters(s[1..])..];
    }
  }

  /** Where the content of a block would start. */
  lemma BodyBehind(s: string)
    ensures
      var k := 3 + (if |s| >= 3 then Letters(s[3..]) else 0);
      Body(s) == if Starts(s, TICKS) && k < |s| && s[k] == '\n' then Some(s[k + 1..]) else None
  {
    StartsTicks(s);
    if |s| >= 3 {
      LettersBehind(s[3..]);
      var k := 3 + Letters(s[3..]);
      assert s[3..][k - 3..] == s[k..];
      if k < |s| {
        assert s[k..][0] == s[k] && s[k..][1..] == s[k + 1..];
      }
    }
  }

  function Within(n: nat, place: Option<nat>): Option<(nat, nat)> {
    match place case Some(j) => Some((n, n + j)) case None => None
  }

  lemma CutWithin(s: string, n: nat, place: Option<nat>)
    requires n <= |s| && (place.Some? ==> place.value + 3 <= |s| - n)
    ensures CutAt(s[n..], place) == PartsAt(s, Within(n, place))
  {
    if place.Some? {
      var j := place.value;
      assert s[n..][..j] == s[n..n + j] && s[n..][j + 3..] == s[n + j + 3..];
    }
  }

  lemma FencedWithin(s: string, k: nat)
    requires |s| >= 3 && Starts(s, TICKS) && k == 3 + Letters(s[3..]) && k < |s| && s[k] == '\n'
    ensures Fenced(s) == Within(k + 1, FindSub(s[k + 1..], TICKS, 0))
  {
    var place := FindSub(s[k + 1..], TICKS, 0);
    SearchWithin(s, k + 1, place);
  }

  lemma SearchWithin(s: string, n: nat, place: Option<nat>)
    requires n <= |s| && place == FindSub(s[n..], TICKS, 0)
    ensures FindSub(s, TICKS, n) == FoundLater(place, n)
  {
    FoundInSuffix(s, TICKS, n);
  }

  lemma PartsAreFenced(s: string)
    ensures Parts(s) == PartsAt(s, Fenced(s))
  {
    BodyBehind(s);
    if Body(s).Some? {
      var n := 4 + Letters(s[3..]);
      FencedWithin(s, n - 1);
      CutIsSearch(s[n..]);
      CutWithin(s, n, FindSub(s[n..], TICKS, 0));
    }
  }

  // ---------------------------------------------------------------- escaping and fences

  /** Escaping leaves what a fence is made of, and makes none of it. */
  lemma EscapeCharKinds(c: char)
    ensures EscapeChar(c) != ""
    ensures EscapeChar(c) == [c] || (EscapeChar(c)[0] == '&' && c != '`' && c != '\n' && !('a' <= c <= 'z'))
    ensures c != '`' ==> '`' !in EscapeChar(c)
    ensures c != '\n' ==> '\n' !in EscapeChar(c)
  {
  }

  lemma EscapeCons(c: char, rest: string)
    ensures Escape([c] + rest) == EscapeChar(c) + Escape(rest)
  {
    assert ([c] + rest)[1..] == rest;
  }

  /** A character that is no reference stands as it is at the front of the escaped text. */
  lemma EscapeFront(s: string)
    requires s != ""
    ensures Escape(s) == EscapeChar(s[0]) + Escape(s[1..]) && Escape(s) != ""
    ensures EscapeChar(s[0]) == [s[0]] ==> Escape(s)[0] == s[0] && Escape(s)[1..] == Escape(s[1..])
    ensures EscapeChar(s[0]) != [s[0]] ==> Escape(s)[0] == '&'
  {
    EscapeCharKinds(s[0]);
  }

  lemma FrontKept(s: string, c: char)
    requires c == '`' || c == '\n'
    ensures Escape(s) != "" && Escape(s)[0] == c <==> s != "" && s[0] == c
    ensures s != "" && s[0] == c ==> Escape(s)[1..] == Escape(s[1..])
  {
    if s != "" {
      EscapeFront(s);
      EscapeCharKinds(s[0]);
    }
  }

  /** The first three characters, one by one. */
  lemma TicksByOne(s: string)
    ensures TicksAt(s) <==> s != "" && s[0] == '`' && TwoTicks(s[1..])
    ensures TicksAt(s) ==> s[3..] == s[1..][1..][1..]
  {
  }

  predicate TwoTicks(s: string) {
    |s| >= 2 && s[0] == '`' && s[1] == '`'
  }

  lemma TwoTicksEscaped(s: string)
    ensures TwoTicks(Escape(s)) <==> TwoTicks(s)
    ensures TwoTicks(s) ==> Escape(s)[1..][1..] == Escape(s[1..][1..])
  {
    FrontKept(s, '`');
    if s != "" && s[0] == '`' {
      FrontKept(s[1..], '`');
      assert Escape(s)[1..] != "" ==> Escape(s)[1] == Escape(s)[1..][0];
    }
  }

  lemma TicksEscaped(s: string)
    ensures TicksAt(Escape(s)) <==> TicksAt(s)
    ensures TicksAt(s) ==> Escape(s)[3..] == Escape(s[3..])
  {
    TicksByOne(s);
    TicksByOne(Escape(s));
    FrontKept(s, '`');
    if s != "" && s[0] == '`' {
      TwoTicksEscaped(s[1..]);
    }
  }

  lemma {:induction false} AfterLettersEscaped(s: string)
    ensures AfterLetters(Escape(s)) == Escape(AfterLetters(s))
  {
    if s != "" {
      EscapeFront(s);
      EscapeCharKinds(s[0]);
      if 'a' <= s[0] <= 'z' {
        AfterLettersEscaped(s[1..]);
      }
    }
  }

  function EscapedBody(body: Option<string>): Option<string> {
    match body case Some(s) => Some(Escape(s)) case None => None
  }

  lemma BodyEscaped(s: string)
    ensures Body(Escape(s)) == EscapedBody(Body(s))
  {
    TicksEscaped(s);
    if TicksAt(s) {
      AfterLettersEscaped(s[3..]);
      FrontKept(AfterLetters(s[3..]), '\n');
    }
  }

  function EscapedParts(parts: Option<(string, string)>): Option<(string, string)> {
    match parts case Some((a, b)) => Some((Escape(a), Escape(b))) case None => None
  }

  lemma FrontEscaped(c: char, cut: Option<(string, string)>)
    ensures EscapedParts(PutInFront([c], cut)) == PutInFront(EscapeChar(c), EscapedParts(cut))
  {
    if cut.Some? {
      EscapeCons(c, cut.value.0);
    }
  }

  /** Text without ticks is passed over. */
  lemma {:induction false} CutPasses(front: string, rest: string)
    requires '`' !in front
    ensures CutAtTicks(front + rest) == PutInFront(front, CutAtTicks(rest))
  {
    if front == "" {
      assert front + rest == rest;
      assert CutAtTicks(rest).Some? ==> "" + CutAtTicks(rest).value.0 == CutAtTicks(rest).value.0;
    } else {
      var s := front + rest;
      assert s[0] == front[0] && s[1..] == front[1..] + rest;
      CutPasses(front[1..], rest);
      FrontJoined(front, CutAtTicks(rest));
    }
  }

  lemma FrontJoined(front: string, cut: Option<(string, string)>)
    requires front != ""
    ensures PutInFront([front[0]], PutInFront(front[1..], cut)) == PutInFront(front, cut)
  {
    if cut.Some? {
      assert [front[0]] + (front[1..] + cut.value.0) == front + cut.value.0;
    }
  }

  /** A text cut at its first ticks is escaped part by part. */
  lemma {:induction false} CutEscaped(s: string)
    ensures CutAtTicks(Escape(s)) == EscapedParts(CutAtTicks(s))
  {
    if s != "" {
      TicksEscaped(s);
      EscapeFront(s);
      if !TicksAt(s) {
        CutEscaped(s[1..]);
        FrontEscaped(s[0], CutAtTicks(s[1..]));
        EscapeCharKinds(s[0]);
        if s[0] != '`' {
          CutPasses(EscapeChar(s[0]), Escape(s[1..]));
        }
      }
    }
  }

  /** Escaping keeps a block at the start of a text: it escapes its content, and what stands behind it. */
  lemma PartsEscaped(s: string)
    ensures Parts(Escape(s)) == EscapedParts(Parts(s))
  {
    BodyEscaped(s);
    if Body(s).Some? {
      CutEscaped(Body(s).value);
    }
  }

  // ---------------------------------------------------------------- all blocks

  lemma {:induction false} TrimLeftEscaped(s: string)
    ensures TrimLeft(Escape(s), IsNewline) == Escape(TrimLeft(s, IsNewline))
  {
    FrontKept(s, '\n');
    if s != "" && s[0] == '\n' {
      TrimLeftEscaped(s[1..]);
    }
  }

  lemma EscapeSnoc(front: string, c: char)
    ensures Escape(front + [c]) == Escape(front) + EscapeChar(c)
  {
    EscapeAppend(front, [c]);
    EscapeCons(c, "");
    assert [c] + "" == [c] && EscapeChar(c) + "" == EscapeChar(c);
  }

  lemma TrimRightEnd(front: string, end: string)
    requires end != "" && '\n' !in end
    ensures TrimRight(front + end, IsNewline) == front + end
  {
    assert (front + end)[|front + end| - 1] == end[|end| - 1];
  }

  lemma {:induction false} TrimRightEscaped(s: string)
    ensures TrimRight(Escape(s), IsNewline) == Escape(TrimRight(s, IsNewline))
    decreases |s|
  {
    if s != "" {
      var front, c := s[..|s| - 1], s[|s| - 1];
      assert front + [c] == s;
      EscapeSnoc(front, c);
      EscapeCharKinds(c);
      if c == '\n' {
        TrimLast(front, c, IsNewline);
        TrimLast(Escape(front), c, IsNewline);
        TrimRightEscaped(front);
      } else {
        TrimRightEnd(front, [c]);
        TrimRightEnd(Escape(front), EscapeChar(c));
      }
    }
  }

  lemma StripEscaped(s: string)
    ensures StripNewlines(Escape(s)) == Escape(StripNewlines(s))
  {
    TrimLeftEscaped(s);
    TrimRightEscaped(TrimLeft(s, IsNewline));
  }

  lemma BlockAhead(s: string)
    requires Parts(s).Some?
    ensures Blocks(Segments(s)) == [StripNewlines(Parts(s).value.0)] + Blocks(Segments(Parts(s).value.1))
  {
    PartsAreFenced(s);
    var (content, rest) := Parts(s).value;
    assert Segments(s) == [Block(StripNewlines(content))] + Segments(rest);
    assert Segments(s)[1..] == Segments(rest);
  }

  lemma LetterFirst(s: string)
    requires s != "" && Parts(s) == None
    ensures Blocks(Segments(s)) == Blocks(Segments(s[1..]))
  {
    PartsAreFenced(s);
    assert Segments(s) == [Letter(s[0])] + Segments(s[1..]);
    assert Segments(s)[1..] == Segments(s[1..]);
  }

  /** Text without ticks in front holds no block. */
  lemma {:induction false} TicklessFront(front: string, rest: string)
    requires '`' !in front
    ensures Blocks(Segments(front + rest)) == Blocks(Segments(rest))
  {
    if front == "" {
      assert front + rest == rest;
    } else {
      var s := front + rest;
      assert s[0] == front[0] && s[1..] == front[1..] + rest;
      TicklessFront(front[1..], rest);
      LetterFirst(s);
    }
  }

  /** The blocks of the escape are the escaped blocks. */
  ghost predicate Kept(s: string) {
    Blocks(Segments(Escape(s))) == Each(Blocks(Segments(s)), Escape)
  }

  lemma BlockKept(s: string)
    requires Parts(s).Some? && Kept(Parts(s).value.1)
    ensures Kept(s)
  {
    var (content, rest) := Parts(s).value;
    PartsEscaped(s);
    BlockAhead(s);
    BlockAhead(Escape(s));
    StripEscaped(content);
    EachCons(StripNewlines(content), Blocks(Segments(rest)), Escape);
  }

  lemma NoBlockKept(s: string)
    requires s != "" && Parts(s) == None && Kept(s[1..])
    ensures Kept(s)
  {
    LetterFirst(s);
    PartsEscaped(s);
    EscapeCharKinds(s[0]);
    EscapeFront(s);
    if s[0] == '`' {
      LetterFirst(Escape(s));
    } else {
      TicklessFront(EscapeChar(s[0]), Escape(s[1..]));
    }
  }

  lemma EachCons<T, U>(item: T, items: seq<T>, render: T -> U)
    ensures Each([item] + items, render) == [render(item)] + Each(items, render)
  {
    assert ([item] + items)[1..] == items;
  }

  lemma PartsSmaller(s: string)
    requires Parts(s).Some?
    ensures |Parts(s).value.1| < |s|
  {
    PartsAreFenced(s);
  }

  /** The blocks of the escaped text are the escaped blocks of the text. */
  lemma {:induction false} BlocksEscaped(s: string)
    ensures Kept(s)
    decreases |s|
  {
    if s != "" {
      if Parts(s).Some? {
        PartsSmaller(s);
        BlocksEscaped(Parts(s).value.1);
        BlockKept(s);
      } else {
        BlocksEscaped(s[1..]);
        NoBlockKept(s);
      }
    }
  }

  /** Lower-case letters. */
  predicate Language(s: string) {
    forall i :: 0 <= i < |s| ==> 'a' <= s[i] <= 'z'
  }

  lemma {:induction false} LettersPassed(language: string, rest: string)
    requires Language(language) && rest != "" && rest[0] == '\n'
    ensures AfterLetters(language + rest) == rest
  {
    if language == "" {
      assert language + rest == rest;
    } else {
      assert (language + rest)[1..] == language[1..] + rest;
      LettersPassed(language[1..], rest);
    }
  }

  /** A fence is a block with what stands between it and the next ticks, whatever language it names. */
  lemma FenceIsBlock(language: string, content: string, rest: string)
    requires Language(language) && '`' !in content
    ensures
      var s := "```" + (language + ("\n" + (content + ("```" + rest))));
      Segments(s) == [Block(StripNewlines(content))] + Segments(rest)
  {
    var body := content + ("```" + rest);
    OpeningRead(language, body);
    ClosingRead(content, rest);
    var s := "```" + (language + ("\n" + body));
    assert Parts(s) == Some((content, rest));
    BlockFirst(s, content, rest);
  }

  lemma BlockFirst(s: string, content: string, rest: string)
    requires Parts(s) == Some((content, rest))
    ensures Segments(s) == [Block(StripNewlines(content))] + Segments(rest)
  {
    PartsAreFenced(s);
  }

  lemma OpeningRead(language: string, body: string)
    requires Language(language)
    ensures Body("```" + (language + ("\n" + body))) == Some(body)
  {
    var line := language + ("\n" + body);
    var s := "```" + line;
    assert TicksAt(s) && s[3..] == line;
    LettersPassed(language, "\n" + body);
    assert ("\n" + body)[1..] == body;
  }

  lemma ClosingRead(content: string, rest: string)
    requires '`' !in content
    ensures CutAtTicks(content + ("```" + rest)) == Some((content, rest))
  {
    CutPasses(content, "```" + rest);
    assert TicksAt("```" + rest) && ("```" + rest)[3..] == rest && content + "" == content;
  }

  /** Text without ticks stays what it is, in front of anything. */
  lemma {:induction false} LettersFirst(front: string, rest: string)
    requires '`' !in front
    ensures Segments(front + rest) == Each(front, c => Letter(c)) + Segments(rest)
  {
    if front == "" {
      assert front + rest == rest;
    } else {
      var s := front + rest;
      assert s[0] == front[0] && s[1..] == front[1..] + rest;
      LettersFirst(front[1..], rest);
      assert Body(s) == None;
      PartsAreFenced(s);
      assert Segments(s) == [Letter(s[0])] + Segments(s[1..]);
      Regroup([Letter(s[0])], Each(front[1..], c => Letter(c)), Segments(rest));
    }
  }

  /** Read back from the page and unescaped, the blocks are exactly those of the description, in its order. */
  lemma DescriptionFound(text: string, word: char -> bool)
    ensures Each(FindBlocks(Html(text, word)), Unescape) == Blocks(Segments(text))
  {
    PageFound(text, word, "");
    assert Html(text, word) + "" == Html(text, word);
    BlocksEscaped(text);
    UnescapeAll(Blocks(Segments(text)), FindBlocks(Html(text, word)));
  }

  lemma UnescapeAll(blocks: seq<string>, found: seq<string>)
    requires found == Each(blocks, Escape)
    ensures Each(found, Unescape) == blocks
  {
    forall i | 0 <= i < |blocks| ensures Unescape(Escape(blocks[i])) == blocks[i] {
      UnescapeEscape(blocks[i]);
    }
  }
}
