/**
 * Rendering a ticket and finding its code blocks again. The placeholder that stands for a set-aside block is a symbol
 * of its own here; TicketPlaceholder spells it out and says for which texts that is the same.
 */
module TicketRecheck {
  import opened Prelude
  import opened Text
  import opened TicketPage

  // ---------------------------------------------------------------- the page

  datatype Symbol = Ch(c: char) | Slot(block: nat)

  const TICKS := "```"

  /** A fenced block at the start of `s`: where its content starts and ends. */
  function Fenced(s: string): (r: Option<(nat, nat)>)
    ensures r.Some? ==> r.value.0 <= r.value.1 && r.value.1 + 3 <= |s|
  {
    var k := 3 + (if |s| >= 3 then Letters(s[3..]) else 0);
    if Starts(s, TICKS) && k < |s| && s[k] == '\n' then
      match FindSub(s, TICKS, k + 1)
      case Some(j) => Some((k + 1, j))
      case None => None
    else None
  }

  function Letters(s: string): (r: nat)
    ensures r <= |s|
  {
    if s != "" && 'a' <= s[0] <= 'z' then 1 + Letters(s[1..]) else 0
  }

  /** The text taken apart: its fenced blocks, and the characters around them. */
  datatype Segment = Letter(c: char) | Block(content: string)

  function Segments(s: string): seq<Segment> {
    if s == "" then []
    else
      match Fenced(s)
      case Some((i, j)) => [Block(StripNewlines(s[i..j]))] + Segments(s[j + 3..])
      case None => [Letter(s[0])] + Segments(s[1..])
  }

  function Placeholder(n: nat): seq<Symbol> {
    [BREAK, BREAK, Slot(n), BREAK, BREAK]
  }

  /** Every fenced block, numbered from `n`, replaced by its placeholder in a paragraph of its own. */
  function SetAside(segments: seq<Segment>, n: nat): seq<Symbol> {
    if segments == [] then []
    else if segments[0].Block? then Placeholder(n) + SetAside(segments[1..], n + 1)
    else [Ch(segments[0].c)] + SetAside(segments[1..], n)
  }

  /** A letter stays, and a block leaves its number between blank lines. */
  lemma SetAsideOne(c: char, content: string, n: nat)
    ensures SetAside([Letter(c)], n) == [Ch(c)]
    ensures SetAside([Block(content)], n) == [Ch('\n'), Ch('\n'), Slot(n), Ch('\n'), Ch('\n')]
    ensures Blocks([Block(content)]) == [content]
  {
  }

  /** Setting aside goes piece by piece, and the numbers go on behind those of the blocks before. */
  lemma {:induction false} SetAsideAppend(a: seq<Segment>, b: seq<Segment>, n: nat)
    ensures SetAside(a + b, n) == SetAside(a, n) + SetAside(b, n + |Blocks(a)|)
  {
    if a == [] {
      assert a + b == b;
    } else {
      assert (a + b)[1..] == a[1..] + b;
      var block := a[0].Block?;
      SetAsideAppend(a[1..], b, if block then n + 1 else n);
      Regroup(if block then Placeholder(n) else [Ch(a[0].c)], SetAside(a[1..], if block then n + 1 else n),
              SetAside(b, n + |Blocks(a)|));
    }
  }

  /** The contents of the fenced blocks. */
  function Blocks(segments: seq<Segment>): seq<string> {
    if segments == [] then []
    else (if segments[0].Block? then [segments[0].content] else []) + Blocks(segments[1..])
  }

  /** No bracket is left. */
  predicate Bracketless(segments: seq<Segment>) {
    forall i :: 0 <= i < |segments| ==> if segments[i].Block? then '<' !in segments[i].content else segments[i].c != '<'
  }

  lemma {:induction false} SegmentsBracketless(s: string)
    requires '<' !in s
    ensures Bracketless(Segments(s))
  {
    if s != "" {
      var fenced := Fenced(s);
      if fenced.Some? {
        SegmentsBracketless(s[fenced.value.1 + 3..]);
      } else {
        SegmentsBracketless(s[1..]);
      }
    }
  }

  /** Placeholders are numbered within bounds, and no bracket is left. */
  predicate Bounded(symbols: seq<Symbol>, low: nat, high: nat) {
    forall x :: x in symbols ==> if x.Slot? then low <= x.block < high else x.c != '<'
  }

  /** Only the blocks there are have a placeholder. */
  lemma {:induction false} SetAsideInRange(segments: seq<Segment>, n: nat)
    requires Bracketless(segments)
    ensures Bounded(SetAside(segments, n), n, n + |Blocks(segments)|)
  {
    if segments != [] {
      SetAsideInRange(segments[1..], if segments[0].Block? then n + 1 else n);
    }
  }

  lemma {:induction false} BlocksPlain(segments: seq<Segment>)
    requires Bracketless(segments)
    ensures Plain(Blocks(segments))
  {
    if segments != [] {
      BlocksPlain(segments[1..]);
    }
  }

  function Decimal(n: nat): (r: string)
    ensures '<' !in r
  {
    if n < 10 then ["0123456789"[n]] else Decimal(n / 10) + ["0123456789"[n % 10]]
  }

  function Characters(p: seq<Symbol>): (r: string)
    ensures Ch('<') !in p ==> '<' !in r
  {
    if p == [] then ""
    else (if p[0].Ch? then [p[0].c] else "\0" + Decimal(p[0].block) + "\0") + Characters(p[1..])
  }

  const CODE_OPEN := "<pre><code>"
  const CODE_CLOSE := "</code></pre>"

  const BREAK := Ch('\n')

  predicate IsBreak(x: Symbol) {
    x == BREAK
  }

  function Trimmed(p: seq<Symbol>): (r: seq<Symbol>)
    ensures forall x :: x in r ==> x in p
  {
    StripBy(p, IsBreak)
  }

  /** What one paragraph puts on the page; a placeholder without a block would raise. */
  datatype Piece = Nothing | Markup(html: string) | CodePiece(content: string) | IndexError

  function PieceOf(p: seq<Symbol>, blocks: seq<string>, word: char -> bool): Piece {
    var q := Trimmed(p);
    if q == [] then Nothing
    else if |q| == 1 && q[0].Slot? then
      if q[0].block < |blocks| then CodePiece(blocks[q[0].block]) else IndexError
    else Markup(ParagraphHtml(Characters(q), word))
  }

  function Shown(piece: Piece): string {
    match piece
    case Markup(html) => html
    case CodePiece(content) => CODE_OPEN + content + CODE_CLOSE
    case _ => ""
  }

  function Content(piece: Piece): seq<string> {
    if piece.CodePiece? then [piece.content] else []
  }

  function Renderer(blocks: seq<string>, word: char -> bool): seq<Symbol> -> Piece {
    p => PieceOf(p, blocks, word)
  }

  function ParagraphsOf(text: string): seq<seq<Symbol>> {
    SplitPairs(SetAside(Segments(Escape(text)), 0), BREAK, 0)
  }

  function PiecesOf(text: string, word: char -> bool): seq<Piece> {
    Each(ParagraphsOf(text), Renderer(Blocks(Segments(Escape(text))), word))
  }

  function Html(text: string, word: char -> bool): string {
    PageOf(PiecesOf(text, word))
  }

  function PageOf(pieces: seq<Piece>): string {
    var page := Flatten(Each(pieces, Shown));
    if page == "" then P + P_END else page
  }

  // ---------------------------------------------------------------- finding code blocks again

  /** Where a closing tag pair at the start of `s` ends. */
  function ClosingPair(s: string): (r: Option<nat>)
    ensures r.Some? ==> 0 < r.value <= |s|
  {
    if !Starts(s, "</code>") then None
    else
      var k := 7 + Spaces(s[7..]);
      if Starts(s[k..], "</pre>") then Some(k + 6) else None
  }

  function Spaces(s: string): (r: nat)
    ensures r <= |s|
  {
    if s != "" && IsSpace(s[0]) then 1 + Spaces(s[1..]) else 0
  }

  /** The first closing pair from `i` on: where it starts and where it ends. */
  function FirstPair(s: string, i: nat): (r: Option<(nat, nat)>)
    ensures r.Some? ==> i <= r.value.0 < r.value.1 <= |s|
    decreases |s| - i
  {
    if i >= |s| then None
    else
      match ClosingPair(s[i..])
      case Some(n) => Some((i, i + n))
      case None => FirstPair(s, i + 1)
  }

  /** Where an opening tag `name` at `i` ends; attributes may follow the name. */
  function TagEnd(s: string, i: nat, name: string): (r: Option<nat>)
    requires i <= |s|
    ensures r.Some? ==> i < r.value <= |s|
  {
    if !Starts(s[i..], name) then None
    else
      match FindChar(s, '>', i + |name|)
      case Some(g) => Some(g + 1)
      case None => None
  }

  /** Where the content of a code block at the start of `s` begins: behind two opening tags. */
  function Opened(s: string): (r: Option<nat>)
    ensures r.Some? ==> r.value <= |s|
  {
    match TagEnd(s, 0, "<pre")
    case None => None
    case Some(i) => TagEnd(s, i + Spaces(s[i..]), "<code")
  }

  /** A code block at the start of `s`: its content and where it ends. */
  function BlockAt(s: string): (r: Option<(string, nat)>)
    ensures r.Some? ==> 0 < r.value.1 <= |s|
  {
    match Opened(s)
    case None => None
    case Some(h) =>
      match FirstPair(s, h)
      case None => None
      case Some((b, e)) => Some((s[h..b], e))
  }

  /** `findall` of the code block pattern. */
  function FindBlocks(s: string): seq<string> {
    if s == "" then []
    else
      match BlockAt(s)
      case Some((content, end)) => [content] + FindBlocks(s[end..])
      case None => FindBlocks(s[1..])
  }

  /** Safe text holds no code block and starts none. */
  lemma {:induction false} SafeSkipped(text: string, rest: string)
    requires Safe(text)
    ensures FindBlocks(text + rest) == FindBlocks(rest)
  {
    if text == "" {
      assert text + rest == rest;
    } else {
      var s := text + rest;
      assert TagAt(text, 0);
      assert s[0] == text[0] && (|text| > 2 ==> s[1] == text[1] && s[2] == text[2]);
      assert !Starts(s, "<pre");
      SafeSlice(text, 1, |text|);
      assert text[1..|text|] == text[1..] && s[1..] == text[1..] + rest;
      SafeSkipped(text[1..], rest);
    }
  }

  lemma {:induction false} SpacesCounted(spaces: string, rest: string)
    requires AllSpace(spaces) && (rest != "" ==> !IsSpace(rest[0]))
    ensures Spaces(spaces + rest) == |spaces| && (spaces + rest)[|spaces|..] == rest
  {
    if spaces != "" {
      SpacesCounted(spaces[1..], rest);
      var s := spaces + rest;
      assert s[0] == spaces[0] && s[1..] == spaces[1..] + rest;
    } else {
      assert spaces + rest == rest;
    }
  }

  /** The closing tags of a block, with white space between them. */
  function Closer(spaces: string, rest: string): string {
    "</code>" + (spaces + ("</pre>" + rest))
  }

  lemma CloserPair(spaces: string, rest: string)
    requires AllSpace(spaces)
    ensures ClosingPair(Closer(spaces, rest)) == Some(13 + |spaces|)
    ensures Closer(spaces, rest)[13 + |spaces|..] == rest
  {
    var s := Closer(spaces, rest);
    assert s[7..] == spaces + ("</pre>" + rest);
    SpacesCounted(spaces, "</pre>" + rest);
    assert s[7 + |spaces|..] == "</pre>" + rest;
    assert Starts(s, "</code>") && Starts("</pre>" + rest, "</pre>");
    assert ("</pre>" + rest)[6..] == rest;
  }

  /** No closing tag starts in the text. */
  predicate Unclosed(s: string) {
    forall i :: 0 <= i < |s| && s[i] == '<' ==> i + 1 < |s| && s[i + 1] != '/'
  }

  /** A closing pair starts with a bracket and a slash. */
  lemma NoPairAt(s: string, i: nat)
    requires i < |s| && (s[i] == '<' ==> i + 1 < |s| && s[i + 1] != '/')
    ensures ClosingPair(s[i..]) == None
  {
    assert "</code>"[0] == '<' && "</code>"[1] == '/';
    assert s[i..][0] == s[i] && (i + 1 < |s| ==> s[i..][1] == s[i + 1]);
  }

  /** The first pair is the one behind content that has no closing tag. */
  lemma {:induction false} PairFound(s: string, i: nat, b: nat, n: nat)
    requires i <= b < |s| && ClosingPair(s[b..]) == Some(n)
    requires forall k :: i <= k < b && s[k] == '<' ==> s[k + 1] != '/'
    ensures FirstPair(s, i) == Some((b, b + n))
    decreases b - i
  {
    if i < b {
      NoPairAt(s, i);
      PairFound(s, i + 1, b, n);
    }
  }

  lemma TagStarts(name: string, rest: string)
    ensures Starts(name + rest, name)
  {
  }

  lemma BracketFound(s: string, i: nat, attributes: string)
    requires i + |attributes| < |s| && s[i..i + |attributes|] == attributes && s[i + |attributes|] == '>'
    requires '>' !in attributes
    ensures FindChar(s, '>', i) == Some(i + |attributes|)
  {
    forall k | i <= k < i + |attributes| ensures s[k] != '>' {
      assert s[k] == attributes[k - i];
    }
  }

  lemma ThreeParts(a: string, b: string, c: string, d: string)
    requires |c| == 1
    ensures
      var s := a + (b + (c + d));
      s[|a|..|a| + |b|] == b && s[|a| + |b|] == c[0] && s[|a| + |b| + 1..] == d
  {
    var s := a + (b + (c + d));
    assert s == a + b + c + d;
  }

  lemma InSuffix(s: string, k: nat, a: nat, b: nat)
    requires a <= b && k + b < |s|
    ensures s[k..][a..b] == s[k + a..k + b] && s[k..][b] == s[k + b] && s[k..][b + 1..] == s[k + b + 1..]
  {
  }

  /** A tag with attributes ends at its own bracket. */
  lemma TagFound(s: string, k: nat, name: string, attributes: string, rest: string)
    requires k <= |s| && s[k..] == name + (attributes + (">" + rest)) && '>' !in attributes
    ensures
      var h := k + |name| + |attributes| + 1;
      h <= |s| && TagEnd(s, k, name) == Some(h) && s[h..] == rest
  {
    TagStarts(name, attributes + (">" + rest));
    ThreeParts(name, attributes, ">", rest);
    assert |s[k..]| == |name| + |attributes| + 1 + |rest|;
    InSuffix(s, k, |name|, |name| + |attributes|);
    BracketFound(s, k + |name|, attributes);
  }

  /** Two opening tags in front of the content, with attributes, and white space between them. */
  function Opener(pre: string, between: string, code: string, inner: string): string {
    "<pre" + (pre + (">" + (between + ("<code" + (code + (">" + inner))))))
  }

  lemma OpenedBy(s: string, i: nat, k: nat, h: nat)
    requires k <= |s| && TagEnd(s, 0, "<pre") == Some(i) && i <= k && Spaces(s[i..]) == k - i
    requires TagEnd(s, k, "<code") == Some(h)
    ensures Opened(s) == Some(h)
  {
  }

  lemma WholeSlice(s: string)
    ensures s[0..] == s
  {
  }

  lemma OpenerFound(pre: string, between: string, code: string, inner: string) returns (h: nat)
    requires '>' !in pre && '>' !in code && AllSpace(between)
    ensures var s := Opener(pre, between, code, inner);
      h <= |s| && Opened(s) == Some(h) && s[h..] == inner
  {
    var s, coded := Opener(pre, between, code, inner), "<code" + (code + (">" + inner));
    assert coded[0] == '<';
    var k := SpacedTag(s, "<pre", pre, between, coded);
    h := k + 5 + |code| + 1;
    TagFound(s, k, "<code", code, inner);
    OpenedBy(s, |pre| + 5, k, h);
  }

  /** One opening tag, and white space up to something else. */
  lemma SpacedTag(s: string, first: string, pre: string, between: string, coded: string) returns (k: nat)
    requires s == first + (pre + (">" + (between + coded)))
    requires '>' !in pre && AllSpace(between) && coded != "" && !IsSpace(coded[0])
    ensures
      var i := |first| + |pre| + 1;
      && k == i + |between| <= |s| && TagEnd(s, 0, first) == Some(i) && Spaces(s[i..]) == |between| && s[k..] == coded
  {
    WholeSlice(s);
    TagFound(s, 0, first, pre, between + coded);
    var i := |first| + |pre| + 1;
    SpacesCounted(between, coded);
    SlicedTwice(s, i, |between|);
    k := i + |between|;
  }

  lemma BlockTaken(s: string, h: nat, content: string, closer: string, n: nat, rest: string)
    requires Opened(s) == Some(h) && s[h..] == content + closer && closer != ""
    requires ClosingPair(closer) == Some(n) && closer[n..] == rest && Unclosed(content)
    ensures FindBlocks(s) == [content] + FindBlocks(rest)
  {
    var b := h + |content|;
    ContentAt(s, h, content, closer);
    SlicedTwice(s, b, n);
    PairFound(s, h, b, n);
    TakenAt(s, h, b, content, b + n);
  }

  lemma TakenAt(s: string, h: nat, b: nat, content: string, e: nat)
    requires h <= b < e <= |s| && Opened(s) == Some(h) && FirstPair(s, h) == Some((b, e)) && s[h..b] == content
    ensures FindBlocks(s) == [content] + FindBlocks(s[e..])
  {
    assert BlockAt(s) == Some((content, e));
  }

  lemma ContentAt(s: string, h: nat, content: string, closer: string)
    requires h <= |s| && s[h..] == content + closer && closer != ""
    ensures
      var b := h + |content|;
      && b < |s| && s[h..b] == content && s[b..] == closer
      && (Unclosed(content) ==> forall k :: h <= k < b && s[k] == '<' ==> s[k + 1] != '/')
  {
    var inner := s[h..];
    assert forall k :: 0 <= k < |content| ==> inner[k] == content[k];
    assert forall k :: h <= k < |s| ==> s[k] == inner[k - h];
  }

  lemma SlicedTwice(s: string, h: nat, k: nat)
    requires h + k <= |s|
    ensures s[h..][k..] == s[h + k..]
  {
  }

  /**
   * A block is found in every form an editor may leave it in: attributes on both tags, white space between the opening
   * tags and between the closing ones. Its content is everything up to the first closing tag.
   */
  lemma BlockFoundAnyForm(
      pre: string, between: string, code: string, content: string, spaces: string, rest: string)
    requires '>' !in pre && '>' !in code && AllSpace(between) && AllSpace(spaces)
    requires Unclosed(content)
    ensures FindBlocks(Opener(pre, between, code, content + Closer(spaces, rest))) == [content] + FindBlocks(rest)
  {
    var closer := Closer(spaces, rest);
    var h := OpenerFound(pre, between, code, content + closer);
    CloserPair(spaces, rest);
    BlockTaken(Opener(pre, between, code, content + closer), h, content, closer, 13 + |spaces|, rest);
  }

  lemma BareForm(content: string, rest: string)
    ensures Shown(CodePiece(content)) + rest == Opener("", "", "", content + Closer("", rest))
  {
    assert CODE_CLOSE + rest == Closer("", rest);
    assert CODE_OPEN + (content + Closer("", rest)) == Opener("", "", "", content + Closer("", rest));
    Regroup(content, CODE_CLOSE, rest);
    Regroup(CODE_OPEN, content + CODE_CLOSE, rest);
    Regroup(CODE_OPEN, content, CODE_CLOSE);
  }

  /** A block with bracket-free content is found, with exactly that content. */
  lemma BlockFound(content: string, rest: string)
    requires '<' !in content
    ensures FindBlocks(Shown(CodePiece(content)) + rest) == [content] + FindBlocks(rest)
  {
    BareForm(content, rest);
    BlockFoundAnyForm("", "", "", content, "", rest);
  }

  // ---------------------------------------------------------------- every block in a piece of its own

  /** The block numbers of the placeholders. */
  function Slots(s: seq<Symbol>): seq<nat> {
    if s == [] then [] else FirstSlot(s[0]) + Slots(s[1..])
  }

  function FirstSlot(x: Symbol): seq<nat> {
    if x.Slot? then [x.block] else []
  }

  lemma {:induction false} SlotsAppend(a: seq<Symbol>, b: seq<Symbol>)
    ensures Slots(a + b) == Slots(a) + Slots(b)
  {
    if a == [] {
      assert a + b == b;
    } else {
      assert (a + b)[1..] == a[1..] + b;
      SlotsAppend(a[1..], b);
      Regroup(FirstSlot(a[0]), Slots(a[1..]), Slots(b));
    }
  }

  lemma {:induction false} NoSlots(s: seq<Symbol>)
    requires forall x :: x in s ==> x.Ch?
    ensures Slots(s) == []
  {
    if s != [] {
      assert s[0] in s;
      NoSlots(s[1..]);
    }
  }

  /** A pair of line breaks at `i`, where the text is split. */
  predicate PairAt(s: seq<Symbol>, i: int) {
    0 <= i < |s| - 1 && s[i] == s[i + 1] == BREAK
  }

  /** In front of `i` stand two line breaks, or fewer where the text begins. */
  predicate BreaksBefore(s: seq<Symbol>, i: nat)
    requires i < |s|
  {
    (i >= 1 ==> s[i - 1] == BREAK) && (i >= 2 ==> s[i - 2] == BREAK)
  }

  /** Every placeholder stands between line breaks, two on each side. */
  predicate Isolated(s: seq<Symbol>) {
    forall i :: 0 <= i < |s| && s[i].Slot? ==> PairAt(s, i + 1) && BreaksBefore(s, i)
  }

  /** No placeholder is one of the first two symbols. */
  predicate StartsPlain(s: seq<Symbol>) {
    forall i :: 0 <= i < |s| && s[i].Slot? ==> i >= 2
  }

  lemma {:induction false} SetAsideIsolated(segments: seq<Segment>, n: nat)
    ensures Isolated(SetAside(segments, n))
    ensures StartsPlain(SetAside(segments, n))
  {
    if segments != [] {
      var block := segments[0].Block?;
      var front := if block then Placeholder(n) else [Ch(segments[0].c)];
      var rest := SetAside(segments[1..], if block then n + 1 else n);
      var s := front + rest;
      SetAsideIsolated(segments[1..], if block then n + 1 else n);
      forall i | 0 <= i < |s| && s[i].Slot? ensures i >= 2 && PairAt(s, i + 1) && BreaksBefore(s, i) {
        if i >= |front| {
          var k := i - |front|;
          assert s[i] == rest[k] && PairAt(rest, k + 1) && BreaksBefore(rest, k) && k >= 2;
        }
      }
    }
  }

  lemma IsolatedRest(s: seq<Symbol>, i: nat)
    requires Isolated(s) && i <= |s|
    ensures Isolated(s[i..])
  {
    forall k | 0 <= k < |s[i..]| && s[i..][k].Slot? ensures PairAt(s[i..], k + 1) && BreaksBefore(s[i..], k) {
      assert s[i..][k] == s[i + k] && PairAt(s, i + k + 1) && BreaksBefore(s, i + k);
    }
  }

  /** The placeholder that is a paragraph of its own. */
  function OwnSlot(p: seq<Symbol>): seq<nat> {
    var q := Trimmed(p);
    if |q| == 1 && q[0].Slot? then [q[0].block] else []
  }

  function OwnSlots(paragraphs: seq<seq<Symbol>>): seq<nat> {
    if paragraphs == [] then [] else OwnSlot(paragraphs[0]) + OwnSlots(paragraphs[1..])
  }

  /** No text is split in front of `i`. */
  ghost predicate Unsplit(s: seq<Symbol>, i: nat) {
    forall j :: 0 <= j < i ==> !PairAt(s, j)
  }

  lemma TrimmedSlot(x: Symbol)
    requires x.Slot?
    ensures OwnSlot([x]) == OwnSlot([BREAK, x]) == Slots([x]) == Slots([BREAK, x]) == [x.block]
  {
    assert [BREAK, x][1..] == [x] && [x][1..] == [];
    assert TrimLeft([x], IsBreak) == [x] && TrimRight([x], IsBreak) == [x];
    assert TrimLeft([BREAK, x], IsBreak) == [x];
  }

  predicate Slotless(p: seq<Symbol>) {
    forall x :: x in p ==> x.Ch?
  }

  /** A placeholder, at most behind a line break. */
  predicate LoneSlot(p: seq<Symbol>) {
    (|p| == 1 && p[0].Slot?) || (|p| == 2 && p[0] == BREAK && p[1].Slot?)
  }

  /** A paragraph that ends at `i` holds no placeholder, or nothing else but a line break. */
  lemma ParagraphShape(s: seq<Symbol>, i: nat)
    requires Isolated(s) && i <= |s| && Unsplit(s, i)
    ensures Slotless(s[..i]) || LoneSlot(s[..i])
  {
    if exists k :: 0 <= k < i && s[k].Slot? {
      var k :| 0 <= k < i && s[k].Slot?;
      assert PairAt(s, k + 1) && BreaksBefore(s, k);
      assert k == i - 1;
      assert k >= 2 ==> PairAt(s, k - 2);
    }
  }

  lemma ParagraphSlots(s: seq<Symbol>, i: nat)
    requires Isolated(s) && i <= |s| && Unsplit(s, i)
    ensures OwnSlot(s[..i]) == Slots(s[..i])
  {
    var p := s[..i];
    ParagraphShape(s, i);
    if Slotless(p) {
      NoSlots(p);
      NoOwnSlot(p);
    } else {
      var x := p[|p| - 1];
      assert p == if |p| == 1 then [x] else [BREAK, x];
      TrimmedSlot(x);
    }
  }

  lemma NoOwnSlot(p: seq<Symbol>)
    requires forall x :: x in p ==> x.Ch?
    ensures OwnSlot(p) == []
  {
    var q := Trimmed(p);
    assert |q| == 1 ==> q[0] in q;
  }

  lemma PairHasNoSlots(s: seq<Symbol>, i: nat)
    requires PairAt(s, i)
    ensures Slots(s) == Slots(s[..i]) + Slots(s[i + 2..])
  {
    assert s == s[..i] + ([BREAK, BREAK] + s[i + 2..]);
    SlotsAppend(s[..i], [BREAK, BREAK] + s[i + 2..]);
    SlotsAppend([BREAK, BREAK], s[i + 2..]);
    NoSlots([BREAK, BREAK]);
  }

  lemma OwnSlotsCons(p: seq<Symbol>, rest: seq<seq<Symbol>>)
    ensures OwnSlots([p] + rest) == OwnSlot(p) + OwnSlots(rest)
  {
    assert ([p] + rest)[1..] == rest;
  }

  /** Splitting leaves every placeholder in a paragraph of its own, once and in order. */
  lemma {:induction false} SplitSlots(s: seq<Symbol>, i: nat)
    requires Isolated(s) && i <= |s| && Unsplit(s, i)
    ensures OwnSlots(SplitPairs(s, BREAK, i)) == Slots(s)
    decreases |s| - i, |s|
  {
    if i + 1 >= |s| {
      ParagraphSlots(s, |s|);
      OwnSlotsCons(s, []);
      assert s[..|s|] == s && [s] + [] == [s];
    } else if PairAt(s, i) {
      ParagraphSlots(s, i);
      IsolatedRest(s, i + 2);
      SplitSlots(s[i + 2..], 0);
      PairHasNoSlots(s, i);
      OwnSlotsCons(s[..i], SplitPairs(s[i + 2..], BREAK, 0));
    } else {
      SplitSlots(s, i + 1);
    }
  }

  /** The blocks with the given numbers. */
  function Fetch(slots: seq<nat>, blocks: seq<string>): seq<string> {
    if slots == [] then [] else Fetched(slots[0], blocks) + Fetch(slots[1..], blocks)
  }

  function Fetched(slot: nat, blocks: seq<string>): seq<string> {
    if slot < |blocks| then [blocks[slot]] else []
  }

  lemma {:induction false} FetchAppend(a: seq<nat>, b: seq<nat>, blocks: seq<string>)
    ensures Fetch(a + b, blocks) == Fetch(a, blocks) + Fetch(b, blocks)
  {
    if a == [] {
      assert a + b == b;
    } else {
      assert (a + b)[1..] == a[1..] + b;
      FetchAppend(a[1..], b, blocks);
      Regroup(Fetched(a[0], blocks), Fetch(a[1..], blocks), Fetch(b, blocks));
    }
  }

  lemma PieceFetches(p: seq<Symbol>, blocks: seq<string>, word: char -> bool)
    ensures Content(PieceOf(p, blocks, word)) == Fetch(OwnSlot(p), blocks)
  {
  }

  lemma {:induction false} PiecesFetch(paragraphs: seq<seq<Symbol>>, blocks: seq<string>, word: char -> bool)
    ensures Flatten(Each(Each(paragraphs, Renderer(blocks, word)), Content)) == Fetch(OwnSlots(paragraphs), blocks)
  {
    if paragraphs != [] {
      PieceFetches(paragraphs[0], blocks, word);
      PiecesFetch(paragraphs[1..], blocks, word);
      FetchAppend(OwnSlot(paragraphs[0]), OwnSlots(paragraphs[1..]), blocks);
    }
  }

  /** The numbers that setting aside hands out, from `n` on, fetch the blocks from there on. */
  lemma {:induction false} NumbersFetch(segments: seq<Segment>, n: nat, blocks: seq<string>)
    requires n <= |blocks| && blocks[n..] == Blocks(segments)
    ensures Fetch(Slots(SetAside(segments, n)), blocks) == blocks[n..]
  {
    if segments != [] {
      var rest := segments[1..];
      if segments[0].Block? {
        BlockFirst(segments, n, blocks);
        NumbersFetch(rest, n + 1, blocks);
        PlaceholderSlots(n, SetAside(rest, n + 1));
        FetchFirst(n, Slots(SetAside(rest, n + 1)), blocks);
      } else {
        NoBlockFirst(segments);
        NumbersFetch(rest, n, blocks);
        LetterSlots(segments[0].c, SetAside(rest, n));
      }
    }
  }

  lemma BlockFirst(segments: seq<Segment>, n: nat, blocks: seq<string>)
    requires segments != [] && segments[0].Block? && n <= |blocks| && blocks[n..] == Blocks(segments)
    ensures n < |blocks| && blocks[n + 1..] == Blocks(segments[1..])
  {
    var more := Blocks(segments[1..]);
    assert Blocks(segments) == [segments[0].content] + more;
    assert |blocks[n..]| == 1 + |more|;
    assert blocks[n + 1..] == blocks[n..][1..];
  }

  lemma NoBlockFirst(segments: seq<Segment>)
    requires segments != [] && segments[0].Letter?
    ensures Blocks(segments) == Blocks(segments[1..])
  {
  }

  lemma FetchFirst(n: nat, later: seq<nat>, blocks: seq<string>)
    requires n < |blocks| && Fetch(later, blocks) == blocks[n + 1..]
    ensures Fetch([n] + later, blocks) == blocks[n..]
  {
    assert ([n] + later)[1..] == later;
  }

  lemma LetterSlots(c: char, rest: seq<Symbol>)
    ensures Slots([Ch(c)] + rest) == Slots(rest)
  {
    assert ([Ch(c)] + rest)[1..] == rest;
  }

  lemma PlaceholderSlots(n: nat, rest: seq<Symbol>)
    ensures Slots(Placeholder(n) + rest) == [n] + Slots(rest)
  {
    TrimmedSlot(Slot(n));
    NoSlots([BREAK, BREAK]);
    SlotsAppend([BREAK, BREAK], [Slot(n)]);
    SlotsAppend([BREAK, BREAK] + [Slot(n)], [BREAK, BREAK]);
    assert Placeholder(n) == [BREAK, BREAK] + [Slot(n)] + [BREAK, BREAK];
    SlotsAppend(Placeholder(n), rest);
  }

  /** The code pieces of a page are the fenced blocks of its description: none lost, doubled or moved. */
  lemma PiecesAreBlocks(text: string, word: char -> bool)
    ensures Flatten(Each(PiecesOf(text, word), Content)) == Blocks(Segments(Escape(text)))
  {
    var segments := Segments(Escape(text));
    SetAsideIsolated(segments, 0);
    SplitSlots(SetAside(segments, 0), 0);
    PiecesFetch(ParagraphsOf(text), Blocks(segments), word);
    NumbersFetch(segments, 0, Blocks(segments));
  }

  // ---------------------------------------------------------------- the page read back

  /** Markup opens no code block, and no block closes early. */
  predicate Faithful(piece: Piece) {
    match piece
    case Markup(html) => Safe(html)
    case CodePiece(content) => '<' !in content
    case _ => piece == Nothing
  }

  lemma PieceFaithful(p: seq<Symbol>, blocks: seq<string>, word: char -> bool)
    requires Plain(blocks) && forall x :: x in p ==> if x.Slot? then x.block < |blocks| else x.c != '<'
    ensures Faithful(PieceOf(p, blocks, word))
  {
    var q := Trimmed(p);
    if q != [] && !(|q| == 1 && q[0].Slot?) {
      ParagraphSafe(Characters(q), word);
    }
  }

  /** No description makes the lookup of a set-aside block fail, and all its markup is safe. */
  lemma PiecesFaithful(text: string, word: char -> bool)
    ensures forall i :: 0 <= i < |PiecesOf(text, word)| ==> Faithful(PiecesOf(text, word)[i])
  {
    var paragraphs, blocks := ParagraphsOf(text), Blocks(Segments(Escape(text)));
    SegmentsBracketless(Escape(text));
    SetAsideInRange(Segments(Escape(text)), 0);
    BlocksPlain(Segments(Escape(text)));
    forall i | 0 <= i < |paragraphs| ensures Faithful(PiecesOf(text, word)[i]) {
      assert paragraphs[i] in paragraphs;
      forall x: Symbol | x in paragraphs[i] ensures if x.Slot? then x.block < |blocks| else x.c != '<' {
        assert x in SetAside(Segments(Escape(text)), 0);
      }
      PieceFaithful(paragraphs[i], blocks, word);
    }
  }

  /** Whatever follows `shown`, the search finds `own` in it and then goes on behind it. */
  ghost predicate Skips(find: string -> seq<string>, shown: string, own: seq<string>) {
    forall rest :: find(shown + rest) == own + find(rest)
  }

  lemma {:induction false} AllSkipped(
      find: string -> seq<string>, shown: seq<string>, own: seq<seq<string>>, rest: string)
    requires |shown| == |own| && forall i :: 0 <= i < |shown| ==> Skips(find, shown[i], own[i])
    ensures find(Flatten(shown) + rest) == Flatten(own) + find(rest)
  {
    if shown == [] {
      assert "" + rest == rest;
    } else {
      AllSkipped(find, shown[1..], own[1..], rest);
      assert find(shown[0] + (Flatten(shown[1..]) + rest)) == own[0] + find(Flatten(shown[1..]) + rest);
      assert (shown[0] + Flatten(shown[1..])) + rest == shown[0] + (Flatten(shown[1..]) + rest);
    }
  }

  lemma PieceSkipped(piece: Piece, rest: string)
    requires Faithful(piece)
    ensures FindBlocks(Shown(piece) + rest) == Content(piece) + FindBlocks(rest)
  {
    if piece.Markup? {
      SafeSkipped(piece.html, rest);
    } else if piece.CodePiece? {
      BlockFound(piece.content, rest);
    } else {
      assert "" + rest == rest;
    }
  }

  lemma PieceFound(piece: Piece)
    requires Faithful(piece)
    ensures Skips(FindBlocks, Shown(piece), Content(piece))
  {
    var find, shown, own := FindBlocks, Shown(piece), Content(piece);
    forall rest ensures find(shown + rest) == own + find(rest) {
      PieceSkipped(piece, rest);
    }
  }

  /** On the page of any description the parser finds its fenced blocks, in order, and nothing made up. */
  lemma PageFound(text: string, word: char -> bool, rest: string)
    ensures FindBlocks(Html(text, word) + rest) == Blocks(Segments(Escape(text))) + FindBlocks(rest)
  {
    PiecesAreBlocks(text, word);
    var pieces := PiecesOf(text, word);
    PiecesFaithful(text, word);
    PiecesFound(pieces, rest);
    if Flatten(Each(pieces, Shown)) == "" {
      assert "" + rest == rest;
      EmptyParagraphSafe();
      SafeSkipped(P + P_END, rest);
    }
  }

  lemma PiecesFound(pieces: seq<Piece>, rest: string)
    requires forall i :: 0 <= i < |pieces| ==> Faithful(pieces[i])
    ensures FindBlocks(Flatten(Each(pieces, Shown)) + rest) == Flatten(Each(pieces, Content)) + FindBlocks(rest)
  {
    forall i | 0 <= i < |pieces| ensures Skips(FindBlocks, Shown(pieces[i]), Content(pieces[i])) {
      PieceFound(pieces[i]);
    }
    AllSkipped(FindBlocks, Each(pieces, Shown), Each(pieces, Content), rest);
  }

  lemma EmptyParagraphSafe()
    ensures Safe(P + P_END)
  {
    BlockTags();
    SafeTag(P);
    SafeTag(P_END);
    SafeAppend(P, P_END);
  }
}
