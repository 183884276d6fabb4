/**
 * The markdown chunker. Its nested loops, with a chunk buffer and a paragraph buffer, are proved to be one greedy
 * packing of units: a section that fits, or each paragraph of a section that does not. The packing is then shown to
 * lose nothing, to respect the size limit, and to leave no two neighbours that could have been merged.
 */
module Chunker {
  import opened Prelude
  import opened Text

  // ---------------------------------------------------------------- sections and paragraphs

  /** A heading starts at `k`: at a line start, one to four hashes and white space. */
  predicate HeadingAt(s: string, k: nat)
    requires k <= |s|
  {
    var hashes := Hashes(s[k..]);
    (k == 0 || s[k - 1] == '\n') && 1 <= hashes <= 4 && k + hashes < |s| && IsSpace(s[k + hashes])
  }

  function Hashes(s: string): (r: nat)
    ensures r <= |s|
  {
    if s != "" && s[0] == '#' then 1 + Hashes(s[1..]) else 0
  }

  /** The split in front of every heading; the piece being read started at `from`. */
  function RawSections(s: string, from: nat, i: nat): (r: seq<string>)
    requires from <= i <= |s|
    ensures Flatten(r) == s[from..]
    decreases |s| - i
  {
    if i == |s| then [s[from..]]
    else if HeadingAt(s, i) then
      var rest := RawSections(s, i, i + 1);
      assert Flatten([s[from..i]] + rest) == s[from..i] + Flatten(rest);
      [s[from..i]] + rest
    else RawSections(s, from, i + 1)
  }

  /** A line starts at `k` with one to four hashes and white space behind them. */
  ghost predicate HeadingLine(s: string, k: nat) {
    && k < |s| && (k == 0 || s[k - 1] == '\n')
    && exists h :: 1 <= h <= 4 && k + h < |s| && s[k..k + h] == "####"[..h] && IsSpace(s[k + h])
  }

  lemma {:induction false} HashesRun(s: string, i: nat)
    ensures i < Hashes(s) ==> s[i] == '#'
    ensures Hashes(s) < |s| ==> s[Hashes(s)] != '#'
  {
    if s != "" && s[0] == '#' {
      HashesRun(s[1..], if i == 0 then 0 else i - 1);
    }
  }

  lemma {:induction false} HashesAre(s: string, h: nat)
    requires h < |s| && s[h] != '#' && forall i :: 0 <= i < h ==> s[i] == '#'
    ensures Hashes(s) == h
  {
    if h > 0 {
      HashesAre(s[1..], h - 1);
    }
  }

  lemma HeadingIff(s: string, k: nat)
    requires k < |s|
    ensures HeadingAt(s, k) <==> HeadingLine(s, k)
  {
    var t := s[k..];
    if HeadingAt(s, k) {
      var h := Hashes(t);
      forall i | 0 <= i < h ensures s[k..k + h][i] == "####"[i] {
        HashesRun(t, i);
      }
      assert s[k..k + h] == "####"[..h];
    }
    if HeadingLine(s, k) {
      var h :| 1 <= h <= 4 && k + h < |s| && s[k..k + h] == "####"[..h] && IsSpace(s[k + h]);
      forall i | 0 <= i < h ensures t[i] == '#' {
        assert t[i] == s[k..k + h][i] == "####"[..h][i];
      }
      HashesAre(t, h);
    }
  }

  /** The pieces of `s` from `from` on: cut in front of every heading line, and nowhere else. */
  ghost predicate CutAtHeadings(pieces: seq<string>, s: string, from: nat)
    decreases |pieces|
  {
    && pieces != [] && from <= |s|
    && if |pieces| == 1 then pieces[0] == s[from..] && forall k :: from < k < |s| ==> !HeadingLine(s, k)
       else
         var cut := from + |pieces[0]|;
         && cut < |s| && pieces[0] == s[from..cut] && HeadingLine(s, cut)
         && (forall k :: from < k < cut ==> !HeadingLine(s, k))
         && CutAtHeadings(pieces[1..], s, cut)
  }

  lemma {:induction false} SectionsCut(s: string, from: nat, i: nat)
    requires from <= i <= |s| && forall k :: from < k < i ==> !HeadingLine(s, k)
    ensures CutAtHeadings(RawSections(s, from, i), s, from)
    decreases |s| - i
  {
    if i < |s| {
      HeadingIff(s, i);
      if HeadingAt(s, i) {
        SectionsCut(s, i, i + 1);
        var rest := RawSections(s, i, i + 1);
        assert ([s[from..i]] + rest)[1..] == rest;
      } else {
        SectionsCut(s, from, i + 1);
      }
    }
  }

  /** The sections are the stripped pieces that are not blank, cut in front of every heading and nowhere else. */
  lemma SectionsStartAtHeadings(content: string) returns (pieces: seq<string>)
    ensures CutAtHeadings(pieces, content, 0) && Sections(content) == NonBlank(pieces)
  {
    pieces := RawSections(content, 0, 0);
    SectionsCut(content, 0, 0);
  }

  /** Every piece stripped, the blank ones dropped. */
  function NonBlank(pieces: seq<string>): seq<string> {
    if pieces == [] then []
    else (if Strip(pieces[0]) != "" then [Strip(pieces[0])] else []) + NonBlank(pieces[1..])
  }

  function Sections(content: string): seq<string> {
    NonBlank(RawSections(content, 0, 0))
  }

  function ParagraphsOf(section: string): seq<string> {
    NonBlank(SplitPairs(section, '\n', 0))
  }

  // ---------------------------------------------------------------- ink

  /** The characters that are not white space, in order. */
  function Ink(s: string): string {
    if s == "" then "" else (if IsSpace(s[0]) then "" else [s[0]]) + Ink(s[1..])
  }

  lemma {:induction false} InkAppend(a: string, b: string)
    ensures Ink(a + b) == Ink(a) + Ink(b)
  {
    if a == "" {
      assert a + b == b;
    } else {
      assert (a + b)[1..] == a[1..] + b;
      InkAppend(a[1..], b);
    }
  }

  lemma {:induction false} InkTrimLeft(s: string)
    ensures Ink(TrimLeft(s, IsSpace)) == Ink(s)
  {
    if s != "" && IsSpace(s[0]) {
      InkTrimLeft(s[1..]);
    }
  }

  lemma {:induction false} InkTrimRight(s: string)
    ensures Ink(TrimRight(s, IsSpace)) == Ink(s)
  {
    if s != "" && IsSpace(s[|s| - 1]) {
      InkTrimRight(s[..|s| - 1]);
      InkAppend(s[..|s| - 1], [s[|s| - 1]]);
      assert s == s[..|s| - 1] + [s[|s| - 1]];
    }
  }

  lemma InkStrip(s: string)
    ensures Ink(Strip(s)) == Ink(s)
  {
    InkTrimRight(TrimLeft(s, IsSpace));
    InkTrimLeft(s);
  }

  lemma {:induction false} InkNonBlank(pieces: seq<string>)
    ensures Ink(Flatten(NonBlank(pieces))) == Ink(Flatten(pieces))
  {
    if pieces != [] {
      InkNonBlank(pieces[1..]);
      InkStrip(pieces[0]);
      InkAppend(pieces[0], Flatten(pieces[1..]));
      var head := if Strip(pieces[0]) != "" then [Strip(pieces[0])] else [];
      FlattenAppend(head, NonBlank(pieces[1..]));
      assert Flatten(head) == Strip(pieces[0]);
      InkAppend(Strip(pieces[0]), Flatten(NonBlank(pieces[1..])));
    }
  }

  lemma {:induction false} InkSplit(s: string, i: nat)
    requires i <= |s|
    ensures Ink(Flatten(SplitPairs(s, '\n', i))) == Ink(s)
    decreases |s| - i, |s|
  {
    if i + 1 >= |s| {
      assert Flatten([s]) == s + "" == s;
    } else if s[i] == s[i + 1] == '\n' {
      var rest := s[i + 2..];
      InkSplit(rest, 0);
      assert s == s[..i] + "\n\n" + rest;
      InkOfBreak();
      InkBetween(s[..i], "\n\n", rest);
      InkAppend(s[..i], Flatten(SplitPairs(rest, '\n', 0)));
    } else {
      InkSplit(s, i + 1);
    }
  }

  lemma InkSections(content: string)
    ensures Ink(Flatten(Sections(content))) == Ink(content)
  {
    InkNonBlank(RawSections(content, 0, 0));
    assert content[0..] == content;
  }

  lemma InkParagraphs(section: string)
    ensures Ink(Flatten(ParagraphsOf(section))) == Ink(section)
  {
    InkNonBlank(SplitPairs(section, '\n', 0));
    InkSplit(section, 0);
  }

  lemma InkOfStripped(s: string)
    requires Strip(s) != ""
    ensures Ink(Strip(s)) != ""
  {
  }

  lemma {:induction false} NonBlankInked(pieces: seq<string>)
    ensures forall i :: 0 <= i < |NonBlank(pieces)| ==> Ink(NonBlank(pieces)[i]) != ""
  {
    if pieces != [] {
      NonBlankInked(pieces[1..]);
      if Strip(pieces[0]) != "" {
        InkOfStripped(pieces[0]);
      }
    }
  }

  lemma SectionHasParagraph(section: string)
    requires Ink(section) != ""
    ensures ParagraphsOf(section) != []
  {
    InkParagraphs(section);
  }

  lemma BlankHasNoSections(content: string)
    requires Strip(content) == ""
    ensures Sections(content) == []
  {
    InkStrip(content);
    InkSections(content);
    NonBlankInked(RawSections(content, 0, 0));
    var sections := Sections(content);
    if sections != [] {
      InkAppend(sections[0], Flatten(sections[1..]));
    }
  }

  // ---------------------------------------------------------------- units

  /** What is never split: a section, or one paragraph; `opens` starts a new chunk whatever its size. */
  datatype Unit = Unit(text: string, opens: bool)

  function ParagraphUnits(paragraphs: seq<string>): (r: seq<Unit>)
    ensures |r| == |paragraphs|
    ensures forall i :: 0 <= i < |r| ==> r[i] == Unit(paragraphs[i], i == 0)
  {
    seq(|paragraphs|, i requires 0 <= i < |paragraphs| => Unit(paragraphs[i], i == 0))
  }

  function UnitsOf(section: string, max: int): (r: seq<Unit>)
    ensures |section| <= max ==> r == [Unit(section, false)]
    ensures |section| > max ==> |r| == |ParagraphsOf(section)|
    ensures |section| > max ==> forall i :: 0 <= i < |r| ==> r[i] == Unit(ParagraphsOf(section)[i], i == 0)
  {
    if |section| > max then ParagraphUnits(ParagraphsOf(section)) else [Unit(section, false)]
  }

  function Units(sections: seq<string>, max: int): seq<Unit> {
    if sections == [] then []
    else
      var n := |sections| - 1;
      Units(sections[..n], max) + UnitsOf(sections[n], max)
  }

  // ---------------------------------------------------------------- greedy packing

  /** The finished chunks and the one being filled. */
  datatype Packing = Packing(done: seq<string>, current: string)

  function Flushed(p: Packing): seq<string> {
    if p.current == "" then p.done else p.done + [p.current]
  }

  function Put(p: Packing, u: Unit, max: int): Packing {
    if u.opens || |p.current| + |u.text| + 2 > max then Packing(Flushed(p), u.text)
    else Packing(p.done, if p.current == "" then u.text else p.current + "\n\n" + u.text)
  }

  function Pack(units: seq<Unit>, max: int): Packing {
    if units == [] then Packing([], "")
    else
      var n := |units| - 1;
      Put(Pack(units[..n], max), units[n], max)
  }

  lemma PackSnoc(units: seq<Unit>, u: Unit, max: int)
    ensures Pack(units + [u], max) == Put(Pack(units, max), u, max)
  {
    assert (units + [u])[..|units|] == units;
  }

  lemma PackNext(before: seq<Unit>, units: seq<Unit>, i: nat, max: int)
    requires i < |units|
    ensures Pack(before + units[..i + 1], max)
      == Put(if i == 0 then Pack(before, max) else Pack(before + units[..i], max), units[i], max)
  {
    var sofar := before + units[..i];
    assert before + units[..i + 1] == sofar + [units[i]];
    assert i == 0 ==> sofar == before;
    PackSnoc(sofar, units[i], max);
  }

  /** The chunks before the overlap pass. */
  function RawChunks(content: string, max: int): seq<string> {
    Flushed(Pack(Units(Sections(content), max), max))
  }

  // ---------------------------------------------------------------- the loops

  /** The inner loop: an oversized section, paragraph by paragraph. */
  method PackParagraphs(section: string, max: int, chunks: seq<string>, ghost before: seq<Unit>)
    returns (more: seq<string>, current: string)
    requires Ink(section) != "" && |section| > max && chunks == Flushed(Pack(before, max))
    ensures Packing(more, current) == Pack(before + UnitsOf(section, max), max)
  {
    var paragraphs := ParagraphsOf(section);
    ghost var units := ParagraphUnits(paragraphs);
    more, current := chunks, "";
    for i := 0 to |paragraphs|
      invariant i == 0 ==> more == chunks && current == ""
      invariant i > 0 ==> Packing(more, current) == Pack(before + units[..i], max)
    {
      var para := paragraphs[i];
      PackNext(before, units, i, max);
      if |current| + |para| + 2 > max {
        if current != "" {
          more := more + [current];
        }
        current := para;
      } else {
        current := if current != "" then current + "\n\n" + para else para;
      }
    }
    SectionHasParagraph(section);
    assert units[..|paragraphs|] == units;
  }

  /** The outer loop. */
  method PackSections(sections: seq<string>, max: int) returns (chunks: seq<string>)
    requires forall i :: 0 <= i < |sections| ==> Ink(sections[i]) != ""
    ensures chunks == Flushed(Pack(Units(sections, max), max))
  {
    chunks := [];
    var current := "";
    for i := 0 to |sections|
      invariant Packing(chunks, current) == Pack(Units(sections[..i], max), max)
    {
      var section := sections[i];
      ghost var before := Units(sections[..i], max);
      assert sections[..i + 1][..i] == sections[..i];
      assert Units(sections[..i + 1], max) == before + UnitsOf(section, max);
      if |section| > max {
        if current != "" {
          chunks, current := chunks + [current], "";
        }
        chunks, current := PackParagraphs(section, max, chunks, before);
        continue;
      }
      PackSnoc(before, Unit(section, false), max);
      if |current| + |section| + 2 > max {
        if current != "" {
          chunks := chunks + [current];
        }
        current := section;
      } else {
        current := if current != "" then current + "\n\n" + section else section;
      }
    }
    assert sections[..|sections|] == sections;
    if current != "" {
      chunks := chunks + [current];
    }
  }

  // ---------------------------------------------------------------- the overlap pass

  /** No `c` stands between the two positions. */
  predicate Free(s: string, c: char, from: nat, to: nat) {
    forall k :: from <= k < to && k < |s| ==> s[k] != c
  }

  /**
   * Where the tail starts that the next chunk repeats: behind the first line break of the last characters, or behind
   * their first space if they have no line break, or with them if they have neither.
   */
  function TailStart(chunk: string, overlap: nat): (cut: nat)
    ensures |chunk| - overlap <= cut <= |chunk|
    ensures
      var start := if |chunk| <= overlap then 0 else |chunk| - overlap;
      || (cut == start && Free(chunk, '\n', start, |chunk|) && Free(chunk, ' ', start, |chunk|))
      || (cut > start && chunk[cut - 1] == '\n' && Free(chunk, '\n', start, cut - 1))
      || (cut > start && chunk[cut - 1] == ' ' && Free(chunk, '\n', start, |chunk|) && Free(chunk, ' ', start, cut - 1))
  {
    var start := if |chunk| <= overlap then 0 else |chunk| - overlap;
    var line := FindChar(chunk, '\n', start);
    var cut := if line.Some? then line else FindChar(chunk, ' ', start);
    if cut.Some? then cut.value + 1 else start
  }

  function Tail(chunk: string, overlap: nat): string {
    chunk[TailStart(chunk, overlap)..]
  }

  /** Each later chunk behind the tail of its predecessor. */
  function Overlapped(raw: seq<string>, overlap: nat): seq<string> {
    if |raw| <= 1 then raw
    else
      var n := |raw| - 1;
      Overlapped(raw[..n], overlap) + [Tail(raw[n - 1], overlap) + "\n\n" + raw[n]]
  }

  method ApplyOverlap(chunks: seq<string>, overlap: nat) returns (overlapped: seq<string>)
    requires |chunks| > 1
    ensures overlapped == Overlapped(chunks, overlap)
  {
    overlapped := [chunks[0]];
    for i := 1 to |chunks|
      invariant overlapped == Overlapped(chunks[..i], overlap)
    {
      assert chunks[..i + 1][..i] == chunks[..i];
      overlapped := overlapped + [Tail(chunks[i - 1], overlap) + "\n\n" + chunks[i]];
    }
    assert chunks[..|chunks|] == chunks;
  }

  /** `_chunk_markdown`. */
  method ChunkMarkdown(content: string, max: int, overlap: int) returns (chunks: seq<string>)
    ensures chunks == if overlap > 0 then Overlapped(RawChunks(content, max), overlap) else RawChunks(content, max)
  {
    if Strip(content) == "" {
      BlankHasNoSections(content);
      return [];
    }
    NonBlankInked(RawSections(content, 0, 0));
    chunks := PackSections(Sections(content), max);
    if overlap > 0 && |chunks| > 1 {
      chunks := ApplyOverlap(chunks, overlap);
    }
  }

  lemma {:induction false} OverlapShape(raw: seq<string>, overlap: nat, i: nat)
    requires i < |raw|
    ensures |Overlapped(raw, overlap)| == |raw|
    ensures Overlapped(raw, overlap)[i] == if i == 0 then raw[0] else Tail(raw[i - 1], overlap) + "\n\n" + raw[i]
  {
    if |raw| > 1 {
      OverlapShape(raw[..|raw| - 1], overlap, if i < |raw| - 1 then i else 0);
    }
  }

  // ---------------------------------------------------------------- nothing lost, nothing empty

  /** The ink of some units, one after the other. */
  function InkOfUnits(units: seq<Unit>): string {
    if units == [] then "" else InkOfUnits(units[..|units| - 1]) + Ink(units[|units| - 1].text)
  }

  lemma {:induction false} InkOfUnitsAppend(a: seq<Unit>, b: seq<Unit>)
    ensures InkOfUnits(a + b) == InkOfUnits(a) + InkOfUnits(b)
  {
    if b == [] {
      assert a + b == a;
    } else {
      var n := |b| - 1;
      assert (a + b)[..|a + b| - 1] == a + b[..n];
      InkOfUnitsAppend(a, b[..n]);
      Regroup(InkOfUnits(a), InkOfUnits(b[..n]), Ink(b[n].text));
    }
  }

  lemma InkFlattenSnoc(chunks: seq<string>, chunk: string)
    ensures Ink(Flatten(chunks + [chunk])) == Ink(Flatten(chunks)) + Ink(chunk)
  {
    FlattenSnoc(chunks, chunk);
    InkAppend(Flatten(chunks), chunk);
  }

  lemma InkFlushed(p: Packing)
    ensures Ink(Flatten(Flushed(p))) == Ink(Flatten(p.done)) + Ink(p.current)
  {
    if p.current != "" {
      InkFlattenSnoc(p.done, p.current);
    }
  }

  lemma InkBetween(a: string, gap: string, b: string)
    requires Ink(gap) == ""
    ensures Ink(a + gap + b) == Ink(a) + Ink(b)
  {
    InkAppend(a + gap, b);
    InkAppend(a, gap);
  }

  lemma InkOfBreak()
    ensures Ink("\n\n") == ""
  {
    assert "\n\n"[1..] == "\n" && "\n"[1..] == "";
  }

  /** Packing one more unit adds its ink at the end. */
  lemma InkPut(p: Packing, u: Unit, max: int)
    ensures Ink(Flatten(Flushed(Put(p, u, max)))) == Ink(Flatten(Flushed(p))) + Ink(u.text)
  {
    var q := Put(p, u, max);
    InkFlushed(q);
    if q.done == p.done && q.current != u.text {
      InkFlushed(p);
      InkOfBreak();
      InkBetween(p.current, "\n\n", u.text);
    } else if q == Packing(Flushed(p), u.text) {
    } else {
      InkFlushed(p);
    }
  }

  lemma {:induction false} InkPack(units: seq<Unit>, max: int)
    ensures Ink(Flatten(Flushed(Pack(units, max)))) == InkOfUnits(units)
  {
    if units != [] {
      var n := |units| - 1;
      InkPack(units[..n], max);
      InkPut(Pack(units[..n], max), units[n], max);
    }
  }

  lemma {:induction false} InkParagraphUnits(paragraphs: seq<string>, n: nat)
    requires n <= |paragraphs|
    ensures InkOfUnits(ParagraphUnits(paragraphs)[..n]) == Ink(Flatten(paragraphs[..n]))
  {
    if n > 0 {
      InkParagraphUnits(paragraphs, n - 1);
      assert paragraphs[..n] == paragraphs[..n - 1] + [paragraphs[n - 1]];
      InkFlattenSnoc(paragraphs[..n - 1], paragraphs[n - 1]);
      assert ParagraphUnits(paragraphs)[..n][..n - 1] == ParagraphUnits(paragraphs)[..n - 1];
    }
  }

  lemma InkUnitsOf(section: string, max: int)
    ensures InkOfUnits(UnitsOf(section, max)) == Ink(section)
  {
    if |section| > max {
      var paragraphs := ParagraphsOf(section);
      InkParagraphUnits(paragraphs, |paragraphs|);
      assert paragraphs[..|paragraphs|] == paragraphs;
      assert ParagraphUnits(paragraphs)[..|paragraphs|] == ParagraphUnits(paragraphs);
      InkParagraphs(section);
    } else {
      assert [Unit(section, false)][..0] == [];
    }
  }

  lemma UnitsSnoc(front: seq<string>, section: string, max: int)
    ensures Units(front + [section], max) == Units(front, max) + UnitsOf(section, max)
  {
    assert (front + [section])[..|front|] == front;
  }

  lemma InkUnitsSnoc(front: seq<string>, section: string, max: int)
    requires InkOfUnits(Units(front, max)) == Ink(Flatten(front))
    ensures InkOfUnits(Units(front + [section], max)) == Ink(Flatten(front + [section]))
  {
    UnitsSnoc(front, section, max);
    InkUnitsOf(section, max);
    InkOfUnitsAppend(Units(front, max), UnitsOf(section, max));
    InkFlattenSnoc(front, section);
  }

  /** Equal on the empty list, and kept equal by every further section: equal on all. */
  lemma {:induction false} EqualOnAll(left: seq<string> -> string, right: seq<string> -> string, sections: seq<string>)
    requires left([]) == right([])
    requires forall front, section ::
      left(front) == right(front) ==> left(front + [section]) == right(front + [section])
    ensures left(sections) == right(sections)
  {
    if sections != [] {
      var front, last := sections[..|sections| - 1], sections[|sections| - 1];
      EqualOnAll(left, right, front);
      assert sections == front + [last];
    }
  }

  lemma InkUnits(sections: seq<string>, max: int)
    ensures InkOfUnits(Units(sections, max)) == Ink(Flatten(sections))
  {
    var left := (some: seq<string>) => InkOfUnits(Units(some, max));
    var right := (some: seq<string>) => Ink(Flatten(some));
    forall front, section | left(front) == right(front) ensures left(front + [section]) == right(front + [section]) {
      InkUnitsSnoc(front, section, max);
    }
    EqualOnAll(left, right, sections);
  }

  /** The chunks hold the input's characters other than white space, all of them, once, and in order. */
  lemma NothingLost(content: string, max: int)
    ensures Ink(Flatten(RawChunks(content, max))) == Ink(content)
  {
    InkPack(Units(Sections(content), max), max);
    InkUnits(Sections(content), max);
    InkSections(content);
  }

  // ---------------------------------------------------------------- the size limit

  /** No empty line inside: a single paragraph. */
  predicate OneParagraph(s: string) {
    forall k :: 0 <= k < |s| - 1 ==> !(s[k] == '\n' && s[k + 1] == '\n')
  }

  lemma {:induction false} TrimLeftOneParagraph(s: string)
    requires OneParagraph(s)
    ensures OneParagraph(TrimLeft(s, IsSpace))
  {
    if s != "" && IsSpace(s[0]) {
      TrimLeftOneParagraph(s[1..]);
    }
  }

  lemma {:induction false} TrimRightOneParagraph(s: string)
    requires OneParagraph(s)
    ensures OneParagraph(TrimRight(s, IsSpace))
  {
    if s != "" && IsSpace(s[|s| - 1]) {
      TrimRightOneParagraph(s[..|s| - 1]);
    }
  }

  lemma {:induction false} SplitOneParagraph(s: string, i: nat)
    requires i <= |s| && OneParagraph(s[..i]) && (0 < i < |s| ==> !(s[i - 1] == '\n' && s[i] == '\n'))
    ensures forall p :: p in SplitPairs(s, '\n', i) ==> OneParagraph(p)
    decreases |s| - i, |s|
  {
    if i + 1 >= |s| {
      assert i == |s| ==> s[..i] == s;
    } else if s[i] == s[i + 1] == '\n' {
      SplitOneParagraph(s[i + 2..], 0);
    } else {
      SplitOneParagraph(s, i + 1);
    }
  }

  lemma {:induction false} NonBlankOneParagraph(pieces: seq<string>)
    requires forall p :: p in pieces ==> OneParagraph(p)
    ensures forall i :: 0 <= i < |NonBlank(pieces)| ==> OneParagraph(NonBlank(pieces)[i])
  {
    if pieces != [] {
      TrimLeftOneParagraph(pieces[0]);
      TrimRightOneParagraph(TrimLeft(pieces[0], IsSpace));
      NonBlankOneParagraph(pieces[1..]);
    }
  }

  /** Within the limit, or a single paragraph; never blank. */
  predicate Sized(s: string, max: int) {
    Ink(s) != "" && (|s| <= max || OneParagraph(s))
  }

  lemma UnitsOfSized(section: string, max: int)
    requires Ink(section) != ""
    ensures forall u :: u in UnitsOf(section, max) ==> Sized(u.text, max)
  {
    if |section| > max {
      SplitOneParagraph(section, 0);
      NonBlankOneParagraph(SplitPairs(section, '\n', 0));
      NonBlankInked(SplitPairs(section, '\n', 0));
    }
  }

  lemma {:induction false} UnitsSized(sections: seq<string>, max: int)
    requires forall i :: 0 <= i < |sections| ==> Ink(sections[i]) != ""
    ensures forall u :: u in Units(sections, max) ==> Sized(u.text, max)
  {
    if sections != [] {
      UnitsSized(sections[..|sections| - 1], max);
      UnitsOfSized(sections[|sections| - 1], max);
    }
  }

  lemma PutSized(p: Packing, u: Unit, max: int)
    requires Sized(u.text, max) && (p.current == "" || Sized(p.current, max))
    ensures Sized(Put(p, u, max).current, max)
  {
    InkAppend(p.current, "\n\n" + u.text);
    assert p.current + "\n\n" + u.text == p.current + ("\n\n" + u.text);
  }

  lemma {:induction false} PackSized(units: seq<Unit>, max: int)
    requires forall u :: u in units ==> Sized(u.text, max)
    ensures Pack(units, max).current == "" || Sized(Pack(units, max).current, max)
    ensures forall c :: c in Pack(units, max).done ==> Sized(c, max)
  {
    if units != [] {
      var n := |units| - 1;
      PackSized(units[..n], max);
      PutSized(Pack(units[..n], max), units[n], max);
    }
  }

  /** No chunk is blank, and each is within the limit unless it is a single paragraph that is too long by itself. */
  lemma ChunksSized(content: string, max: int)
    ensures forall c :: c in RawChunks(content, max) ==> Sized(c, max)
  {
    NonBlankInked(RawSections(content, 0, 0));
    UnitsSized(Sections(content), max);
    PackSized(Units(Sections(content), max), max);
  }

  // ---------------------------------------------------------------- greedy

  /** The text of consecutive units in one chunk. */
  function Joined(group: seq<Unit>): string {
    if group == [] then ""
    else if |group| == 1 then group[0].text
    else Joined(group[..|group| - 1]) + "\n\n" + group[|group| - 1].text
  }

  /** `groups` cuts `units` into chunks: every unit once, in order, none split. */
  predicate Cuts(groups: seq<seq<Unit>>, units: seq<Unit>) {
    Flatten(groups) == units && forall i :: 0 <= i < |groups| ==> groups[i] != []
  }

  /** A group of several units fits the limit, and only its first unit may open a chunk. */
  predicate Fits(group: seq<Unit>, max: int) {
    && (|group| > 1 ==> |Joined(group)| <= max)
    && forall k :: 0 < k < |group| ==> !group[k].opens
  }

  /** The first unit of a group could not have joined the group before it. */
  predicate Apart(before: seq<Unit>, group: seq<Unit>, max: int)
    requires group != []
  {
    group[0].opens || |Joined(before)| + |group[0].text| + 2 > max
  }

  ghost predicate Greedy(groups: seq<seq<Unit>>, units: seq<Unit>, max: int) {
    && Cuts(groups, units)
    && (forall i :: 0 <= i < |groups| ==> Fits(groups[i], max))
    && (forall i :: 0 < i < |groups| ==> Apart(groups[i - 1], groups[i], max))
  }

  /** The chunks are the texts of the groups; the last one is still being filled. */
  predicate Spells(p: Packing, groups: seq<seq<Unit>>) {
    if groups == [] then p == Packing([], "")
    else
      && |p.done| == |groups| - 1
      && (forall i :: 0 <= i < |p.done| ==> p.done[i] == Joined(groups[i]))
      && p.current == Joined(groups[|groups| - 1])
  }

  lemma {:induction false} JoinedNotEmpty(group: seq<Unit>)
    requires group != [] && forall u :: u in group ==> u.text != ""
    ensures Joined(group) != ""
  {
    if |group| > 1 {
      assert group[|group| - 1].text != "";
    }
  }

  /** A unit that cannot join starts a group of its own. */
  lemma StartGroup(groups: seq<seq<Unit>>, units: seq<Unit>, u: Unit, max: int)
    requires Greedy(groups, units, max)
    requires groups != [] ==> Apart(groups[|groups| - 1], [u], max)
    ensures Greedy(groups + [[u]], units + [u], max)
  {
    FlattenSnoc(groups, [u]);
  }

  /** A unit that can joins the last group. */
  lemma GrowGroup(groups: seq<seq<Unit>>, units: seq<Unit>, u: Unit, max: int)
    requires Greedy(groups, units, max) && groups != []
    requires !u.opens && |Joined(groups[|groups| - 1])| + |u.text| + 2 <= max
    ensures Greedy(groups[..|groups| - 1] + [groups[|groups| - 1] + [u]], units + [u], max)
  {
    var front, last := groups[..|groups| - 1], groups[|groups| - 1];
    assert groups == front + [last];
    FlattenSnoc(front, last);
    FlattenSnoc(front, last + [u]);
    assert Flatten(front) + (last + [u]) == (Flatten(front) + last) + [u];
    assert (last + [u])[..|last|] == last;
    assert Fits(last, max) && Fits(last + [u], max);
    assert |front| > 0 ==> Apart(groups[|front| - 1], last, max);
  }

  /** The packing is a greedy cut of the units into groups. */
  lemma {:induction false} PackIsGreedy(units: seq<Unit>, max: int) returns (groups: seq<seq<Unit>>)
    requires forall u :: u in units ==> u.text != ""
    ensures Greedy(groups, units, max) && Spells(Pack(units, max), groups)
    decreases |units|
  {
    if units == [] {
      groups := [];
    } else {
      var n := |units| - 1;
      var before := PackIsGreedy(units[..n], max);
      assert units == units[..n] + [units[n]];
      groups := PutIsGreedy(units[..n], units[n], before, Pack(units[..n], max), max);
    }
  }

  lemma PutIsGreedy(units: seq<Unit>, u: Unit, groups: seq<seq<Unit>>, p: Packing, max: int)
    returns (next: seq<seq<Unit>>)
    requires Greedy(groups, units, max) && Spells(p, groups)
    requires u.text != "" && forall v :: v in units ==> v.text != ""
    ensures Greedy(next, units + [u], max) && Spells(Put(p, u, max), next)
  {
    if groups == [] {
      StartGroup(groups, units, u, max);
      next := groups + [[u]];
      return;
    }
    var last := groups[|groups| - 1];
    LastOfCut(groups, units);
    JoinedNotEmpty(last);
    if u.opens || |p.current| + |u.text| + 2 > max {
      StartGroup(groups, units, u, max);
      next := groups + [[u]];
    } else {
      GrowGroup(groups, units, u, max);
      JoinedSnoc(last, u);
      next := groups[..|groups| - 1] + [last + [u]];
    }
  }

  lemma JoinedSnoc(group: seq<Unit>, u: Unit)
    requires group != []
    ensures Joined(group + [u]) == Joined(group) + "\n\n" + u.text
  {
    assert (group + [u])[..|group|] == group;
  }

  lemma LastOfCut(groups: seq<seq<Unit>>, units: seq<Unit>)
    requires Cuts(groups, units) && groups != []
    ensures groups[|groups| - 1] != [] && forall u :: u in groups[|groups| - 1] ==> u in units
  {
    var front, last := groups[..|groups| - 1], groups[|groups| - 1];
    assert groups == front + [last];
    FlattenSnoc(front, last);
  }

  /**
   * The nested loops pack greedily: each chunk is a run of whole units, within the limit unless it is one unit, and
   * the unit that starts a chunk either opens an oversized section or did not fit behind the chunk before it.
   */
  lemma ChunksAreGreedy(content: string, max: int) returns (groups: seq<seq<Unit>>)
    ensures Greedy(groups, Units(Sections(content), max), max)
    ensures |RawChunks(content, max)| == |groups|
    ensures forall i :: 0 <= i < |groups| ==> RawChunks(content, max)[i] == Joined(groups[i])
  {
    NonBlankInked(RawSections(content, 0, 0));
    UnitsSized(Sections(content), max);
    groups := UnitsPackGreedily(Units(Sections(content), max), max);
  }

  lemma UnitsPackGreedily(units: seq<Unit>, max: int) returns (groups: seq<seq<Unit>>)
    requires forall u :: u in units ==> Sized(u.text, max)
    ensures Greedy(groups, units, max) && |Flushed(Pack(units, max))| == |groups|
    ensures forall i :: 0 <= i < |groups| ==> Flushed(Pack(units, max))[i] == Joined(groups[i])
  {
    groups := PackIsGreedy(units, max);
    if groups != [] {
      LastOfCut(groups, units);
      JoinedNotEmpty(groups[|groups| - 1]);
    }
  }
}
