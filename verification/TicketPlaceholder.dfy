/**
 * The placeholder of a set-aside block, spelled out: NUL, the block's number in decimal, NUL. A description may hold
 * NUL characters of its own and so forge a placeholder; this says exactly when that changes the page, or raises, and
 * that a description without NUL is rendered as TicketRecheck has it. `digit` stands for Python's decimal digits.
 */
module TicketPlaceholder {
  import opened Prelude
  import opened Text
  import opened TicketPage
  import opened TicketRecheck
  import opened TicketBlocks
  import opened TicketMeasure

  const NUL := '\0'

  /** The value of a character that `\d` matches. */
  type Digit = char -> Option<nat>

  /** The ASCII digits are among them. */
  ghost predicate Decimals(digit: Digit) {
    forall n :: 0 <= n < 10 ==> digit("0123456789"[n]) == Some(n)
  }

  /** `int` on digits. */
  function ValueOf(s: string, digit: Digit): Option<nat> {
    if s == "" then Some(0)
    else
      var front, last := ValueOf(s[..|s| - 1], digit), digit(s[|s| - 1]);
      if front.Some? && last.Some? then Some(10 * front.value + last.value) else None
  }

  /** The number of a placeholder that is all of `s`. */
  function NumberOf(s: string, digit: Digit): Option<nat> {
    if |s| >= 3 && s[0] == NUL && s[|s| - 1] == NUL then ValueOf(s[1..|s| - 1], digit) else None
  }

  function Marked(n: nat): string {
    "\0" + Decimal(n) + "\0"
  }

  /** The escaped text with every fenced block, numbered from `n`, replaced by its placeholder. */
  function SetAsideText(segments: seq<Segment>, n: nat): string {
    if segments == [] then ""
    else if segments[0].Block? then "\n\n" + Marked(n) + "\n\n" + SetAsideText(segments[1..], n + 1)
    else [segments[0].c] + SetAsideText(segments[1..], n)
  }

  /** What one paragraph puts on the page. */
  function PieceAt(paragraph: string, blocks: seq<string>, word: char -> bool, digit: Digit): Piece {
    PieceFor(StripNewlines(paragraph), blocks, word, digit)
  }

  function PieceFor(q: string, blocks: seq<string>, word: char -> bool, digit: Digit): Piece {
    if q == "" then Nothing
    else
      match NumberOf(q, digit)
      case Some(n) => if n < |blocks| then CodePiece(blocks[n]) else IndexError
      case None => Markup(ParagraphHtml(q, word))
  }

  function PieceMaker(blocks: seq<string>, word: char -> bool, digit: Digit): string -> Piece {
    paragraph => PieceAt(paragraph, blocks, word, digit)
  }

  function PiecesAt(text: string, word: char -> bool, digit: Digit): seq<Piece> {
    var segments := Segments(Escape(text));
    Each(SplitPairs(SetAsideText(segments, 0), '\n', 0), PieceMaker(Blocks(segments), word, digit))
  }

  /** The page, unless a lookup raises. */
  function Page(text: string, word: char -> bool, digit: Digit): Option<string> {
    var pieces := PiecesAt(text, word, digit);
    if IndexError in pieces then None else Some(PageOf(pieces))
  }

  /** `_html`. */
  method RenderHtml(text: string, word: char -> bool, digit: Digit) returns (html: Option<string>)
    ensures html == Page(text, word, digit)
  {
    var segments := Segments(Escape(text));
    var paragraphs := SplitPairs(SetAsideText(segments, 0), '\n', 0);
    var out := RenderEach(paragraphs, PieceMaker(Blocks(segments), word, digit));
    if out.None? {
      return None;
    }
    var page := Flatten(out.value);
    html := Some(if page == "" then P + P_END else page);
  }

  /** The loop of `_html` over the paragraphs; the first lookup that fails ends it. */
  method RenderEach(paragraphs: seq<string>, make: string -> Piece) returns (out: Option<seq<string>>)
    ensures var pieces := Each(paragraphs, make);
      out == if IndexError in pieces then None else Some(Each(pieces, Shown))
  {
    var shown := [];
    for i := 0 to |paragraphs|
      invariant |shown| == i && forall j :: 0 <= j < i ==> Renders(paragraphs[j], make, shown[j])
    {
      var piece := make(paragraphs[i]);
      if piece.IndexError? {
        OneRaises(paragraphs, make, i);
        return None;
      }
      shown := shown + [Shown(piece)];
    }
    NoneRaises(paragraphs, make, shown);
    out := Some(shown);
  }

  predicate Renders(paragraph: string, make: string -> Piece, shown: string) {
    make(paragraph) != IndexError && shown == Shown(make(paragraph))
  }

  lemma OneRaises(paragraphs: seq<string>, make: string -> Piece, i: nat)
    requires i < |paragraphs| && make(paragraphs[i]) == IndexError
    ensures IndexError in Each(paragraphs, make)
  {
    assert Each(paragraphs, make)[i] == IndexError;
  }

  lemma NoneRaises(paragraphs: seq<string>, make: string -> Piece, shown: seq<string>)
    requires |shown| == |paragraphs| && forall j :: 0 <= j < |shown| ==> Renders(paragraphs[j], make, shown[j])
    ensures IndexError !in Each(paragraphs, make) && shown == Each(Each(paragraphs, make), Shown)
  {
  }

  // ---------------------------------------------------------------- placeholders read back

  lemma {:induction false} DecimalRead(n: nat, digit: Digit)
    requires Decimals(digit)
    ensures Decimal(n) != "" && ValueOf(Decimal(n), digit) == Some(n)
  {
    if n < 10 {
      LastDigit("", n, digit);
      assert "" + ["0123456789"[n]] == ["0123456789"[n]];
    } else {
      DecimalRead(n / 10, digit);
      LastDigit(Decimal(n / 10), n % 10, digit);
    }
  }

  lemma LastDigit(front: string, n: nat, digit: Digit)
    requires n < 10 && Decimals(digit) && ValueOf(front, digit).Some?
    ensures ValueOf(front + ["0123456789"[n]], digit) == Some(10 * ValueOf(front, digit).value + n)
  {
    var s := front + ["0123456789"[n]];
    assert s[..|s| - 1] == front && s[|s| - 1] == "0123456789"[n];
  }

  /** A placeholder that was written is read as its number. */
  lemma MarkedRead(n: nat, digit: Digit)
    requires Decimals(digit)
    ensures NumberOf(Marked(n), digit) == Some(n)
  {
    DecimalRead(n, digit);
    var s := Marked(n);
    assert s[1..|s| - 1] == Decimal(n);
  }

  lemma {:induction false} DecimalNoBreak(n: nat)
    ensures '\n' !in Decimal(n)
  {
    if n >= 10 {
      DecimalNoBreak(n / 10);
    }
  }

  // ---------------------------------------------------------------- symbols spelled out

  function Spelled(x: Symbol): string {
    if x.Ch? then [x.c] else Marked(x.block)
  }

  lemma SpelledFirst(s: seq<Symbol>)
    requires s != []
    ensures Characters(s) == Spelled(s[0]) + Characters(s[1..])
  {
  }

  lemma SpelledCons(x: Symbol, rest: seq<Symbol>)
    ensures Characters([x] + rest) == Spelled(x) + Characters(rest)
  {
    assert ([x] + rest)[1..] == rest;
  }

  /** Only a line break is spelled with one. */
  lemma SpelledBreaks(x: Symbol)
    ensures Spelled(x) != "" && (x != BREAK ==> '\n' !in Spelled(x))
  {
    if x.Slot? {
      DecimalNoBreak(x.block);
    }
  }

  lemma {:induction false} CharactersAppend(a: seq<Symbol>, b: seq<Symbol>)
    ensures Characters(a + b) == Characters(a) + Characters(b)
  {
    if a == [] {
      assert a + b == b;
    } else {
      assert (a + b)[1..] == a[1..] + b;
      CharactersAppend(a[1..], b);
      Regroup(Spelled(a[0]), Characters(a[1..]), Characters(b));
    }
  }

  lemma TwoBreaks()
    ensures Characters([BREAK, BREAK]) == ['\n', '\n'] == "\n\n"
  {
    SpelledCons(BREAK, [BREAK]);
    SpelledCons(BREAK, []);
    assert [BREAK] + [BREAK] == [BREAK, BREAK] && [BREAK] + [] == [BREAK];
  }

  lemma SlotSpelled(x: Symbol)
    requires x.Slot?
    ensures Characters([x]) == Marked(x.block) && Characters([BREAK, x]) == "\n" + Marked(x.block)
  {
    SpelledCons(x, []);
    SpelledCons(BREAK, [x]);
    assert [x] + [] == [x] && [BREAK] + [x] == [BREAK, x];
  }

  lemma PlaceholderSpelled(n: nat)
    ensures Characters(Placeholder(n)) == "\n\n" + Marked(n) + "\n\n"
  {
    var breaks, slot := [BREAK, BREAK], [Slot(n)];
    TwoBreaks();
    SlotSpelled(Slot(n));
    CharactersAppend(breaks, slot);
    CharactersAppend(breaks + slot, breaks);
    assert Placeholder(n) == breaks + slot + breaks;
  }

  lemma {:induction false} SetAsideSpelled(segments: seq<Segment>, n: nat)
    ensures SetAsideText(segments, n) == Characters(SetAside(segments, n))
  {
    if segments != [] {
      if segments[0].Block? {
        SetAsideSpelled(segments[1..], n + 1);
        PlaceholderSpelled(n);
        CharactersAppend(Placeholder(n), SetAside(segments[1..], n + 1));
      } else {
        SetAsideSpelled(segments[1..], n);
        SpelledCons(Ch(segments[0].c), SetAside(segments[1..], n));
      }
    }
  }

  // ---------------------------------------------------------------- splitting without positions

  /** The parts between pairs of `x`. */
  function CutPairs<T(==)>(s: seq<T>, x: T): (r: seq<seq<T>>)
    ensures r != []
  {
    if s == [] then [[]]
    else if |s| >= 2 && s[0] == s[1] == x then [[]] + CutPairs(s[2..], x)
    else Prefixed([s[0]], CutPairs(s[1..], x))
  }

  /** More in front of the first part. */
  function Prefixed<T>(front: seq<T>, parts: seq<seq<T>>): (r: seq<seq<T>>)
    requires parts != []
    ensures r != []
  {
    [front + parts[0]] + parts[1..]
  }

  lemma PrefixedTwice<T>(a: seq<T>, b: seq<T>, parts: seq<seq<T>>)
    requires parts != []
    ensures Prefixed(a, Prefixed(b, parts)) == Prefixed(a + b, parts)
    ensures Prefixed([], parts) == parts
  {
    assert Prefixed(b, parts)[1..] == parts[1..];
    assert a + (b + parts[0]) == (a + b) + parts[0];
    assert [] + parts[0] == parts[0];
  }

  lemma {:induction false} SplitIsCut<T>(s: seq<T>, x: T, i: nat)
    requires i <= |s|
    ensures SplitPairs(s, x, i) == Prefixed(s[..i], CutPairs(s[i..], x))
    decreases |s| - i, |s|
  {
    if i + 1 >= |s| {
      ShortCut(s[i..], x);
      assert s[..i] + s[i..] == s;
    } else if s[i] == s[i + 1] == x {
      SplitIsCut(s[i + 2..], x, 0);
      CutFromStart(s[i + 2..], x);
      assert s[i..] == [x, x] + s[i + 2..];
      CutAhead(x, s[i + 2..]);
      FirstKept(s[..i], CutPairs(s[i + 2..], x));
    } else {
      SplitIsCut(s, x, i + 1);
      assert s[i..] == [s[i]] + s[i + 1..] && s[..i + 1] == s[..i] + [s[i]];
      CutStep(s[i], s[i + 1..], x);
      PrefixedTwice(s[..i], [s[i]], CutPairs(s[i + 1..], x));
    }
  }

  lemma CutAhead<T>(x: T, rest: seq<T>)
    ensures CutPairs([x, x] + rest, x) == [[]] + CutPairs(rest, x)
  {
    assert ([x, x] + rest)[2..] == rest;
  }

  lemma CutStep<T>(y: T, rest: seq<T>, x: T)
    requires !(y == x && rest != [] && rest[0] == x)
    ensures CutPairs([y] + rest, x) == Prefixed([y], CutPairs(rest, x))
  {
    assert ([y] + rest)[1..] == rest;
  }

  lemma FirstKept<T>(front: seq<T>, parts: seq<seq<T>>)
    ensures Prefixed(front, [[]] + parts) == [front] + parts
  {
    assert ([[]] + parts)[1..] == parts && front + [] == front;
  }

  lemma ShortCut<T>(s: seq<T>, x: T)
    requires |s| <= 1
    ensures CutPairs(s, x) == [s]
  {
    if |s| == 1 {
      assert s[1..] == [] && [s[0]] + [] == s;
    }
  }

  lemma CutFromStart<T>(s: seq<T>, x: T)
    ensures Prefixed(s[..0], CutPairs(s[0..], x)) == CutPairs(s, x)
  {
    assert s[..0] == [] && s[0..] == s;
    PrefixedTwice([], [], CutPairs(s, x));
  }

  lemma SplitCut<T>(s: seq<T>, x: T)
    ensures SplitPairs(s, x, 0) == CutPairs(s, x)
  {
    SplitIsCut(s, x, 0);
    CutFromStart(s, x);
  }

  /** A text without line breaks belongs to the part behind it. */
  lemma {:induction false} CutPasses(front: string, rest: string)
    requires '\n' !in front
    ensures CutPairs(front + rest, '\n') == Prefixed(front, CutPairs(rest, '\n'))
  {
    var parts := CutPairs(rest, '\n');
    if front == "" {
      assert front + rest == rest;
      PrefixedTwice([], [], parts);
    } else {
      var s := front + rest;
      assert s[0] == front[0] && s[1..] == front[1..] + rest;
      CutPasses(front[1..], rest);
      PrefixedTwice([front[0]], front[1..], parts);
      assert [front[0]] + front[1..] == front;
    }
  }

  lemma EachPrefixed(x: Symbol, parts: seq<seq<Symbol>>)
    requires parts != []
    ensures Each(Prefixed([x], parts), Characters) == Prefixed(Spelled(x), Each(parts, Characters))
  {
    SpelledCons(x, parts[0]);
    assert Prefixed([x], parts)[1..] == parts[1..];
  }

  /** Cutting the symbols and cutting what they spell is the same. */
  lemma {:induction false} CutSpelled(s: seq<Symbol>)
    ensures CutPairs(Characters(s), '\n') == Each(CutPairs(s, BREAK), Characters)
    decreases |s|
  {
    if s != [] {
      SpelledFirst(s);
      SpelledBreaks(s[0]);
      if PairAt(s, 0) {
        CutSpelled(s[2..]);
        PairCut(s[2..]);
        assert s == [BREAK, BREAK] + s[2..];
      } else {
        CutSpelled(s[1..]);
        EachPrefixed(s[0], CutPairs(s[1..], BREAK));
        if s[0] == BREAK {
          LoneBreakCut(s);
        } else {
          CutPasses(Spelled(s[0]), Characters(s[1..]));
        }
      }
    }
  }

  lemma PairCut(rest: seq<Symbol>)
    requires CutPairs(Characters(rest), '\n') == Each(CutPairs(rest, BREAK), Characters)
    ensures CutPairs(Characters([BREAK, BREAK] + rest), '\n')
         == Each(CutPairs([BREAK, BREAK] + rest, BREAK), Characters)
  {
    PairSpelled(rest);
    PairAhead(rest, Characters);
  }

  lemma PairSpelled(rest: seq<Symbol>)
    ensures Characters([BREAK, BREAK] + rest) == ['\n', '\n'] + Characters(rest)
  {
    TwoBreaks();
    CharactersAppend([BREAK, BREAK], rest);
  }

  lemma PairAhead(rest: seq<Symbol>, spell: seq<Symbol> -> string)
    requires spell([]) == "" && CutPairs(spell(rest), '\n') == Each(CutPairs(rest, BREAK), spell)
    ensures CutPairs(['\n', '\n'] + spell(rest), '\n') == Each(CutPairs([BREAK, BREAK] + rest, BREAK), spell)
  {
    CutAhead(BREAK, rest);
    CutAhead('\n', spell(rest));
    EachCons([], CutPairs(rest, BREAK), spell);
  }

  /** A line break that no other follows belongs to the part behind it. */
  lemma LoneBreakCut(s: seq<Symbol>)
    requires s != [] && s[0] == BREAK && !PairAt(s, 0)
    ensures CutPairs(Characters(s), '\n') == Prefixed("\n", CutPairs(Characters(s[1..]), '\n'))
  {
    SpelledFirst(s);
    var rest := Characters(s[1..]);
    if s[1..] != [] {
      SpelledFirst(s[1..]);
      SpelledBreaks(s[1]);
      assert rest[0] == Spelled(s[1])[0];
    }
    CutStep('\n', rest, '\n');
  }

  lemma ParagraphsSpelled(text: string)
    ensures SplitPairs(SetAsideText(Segments(Escape(text)), 0), '\n', 0) == Each(ParagraphsOf(text), Characters)
  {
    var s := SetAside(Segments(Escape(text)), 0);
    SetAsideSpelled(Segments(Escape(text)), 0);
    SplitCut(Characters(s), '\n');
    SplitCut(s, BREAK);
    CutSpelled(s);
  }

  // ---------------------------------------------------------------- one paragraph

  lemma {:induction false} SlotlessSpelled(p: seq<Symbol>)
    requires Slotless(p)
    ensures |Characters(p)| == |p| && forall i :: 0 <= i < |p| ==> Characters(p)[i] == p[i].c
  {
    if p != [] {
      SpelledFirst(p);
      SlotlessSpelled(p[1..]);
    }
  }

  lemma {:induction false} TrimLeftSpelled(p: seq<Symbol>)
    requires Slotless(p)
    ensures TrimLeft(Characters(p), IsNewline) == Characters(TrimLeft(p, IsBreak))
  {
    if p != [] {
      SlotlessSpelled(p);
      SpelledFirst(p);
      assert Characters(p)[1..] == Characters(p[1..]);
      if p[0] == BREAK {
        TrimLeftSpelled(p[1..]);
      }
    }
  }

  lemma SpelledSnoc(front: seq<Symbol>, c: char)
    ensures Characters(front + [Ch(c)]) == Characters(front) + [c]
  {
    CharactersAppend(front, [Ch(c)]);
    SpelledCons(Ch(c), []);
    assert [Ch(c)] + [] == [Ch(c)] && [c] + "" == [c];
  }

  lemma {:induction false} TrimRightSpelled(p: seq<Symbol>)
    requires Slotless(p)
    ensures TrimRight(Characters(p), IsNewline) == Characters(TrimRight(p, IsBreak))
  {
    if p != [] {
      var front, x := p[..|p| - 1], p[|p| - 1];
      assert front + [x] == p && x in p;
      SpelledSnoc(front, x.c);
      TrimLast(front, x, IsBreak);
      TrimLast(Characters(front), x.c, IsNewline);
      if x == BREAK {
        TrimRightSpelled(front);
      }
    }
  }

  lemma SlotlessTrimmed(p: seq<Symbol>)
    requires Slotless(p)
    ensures Slotless(Trimmed(p)) && StripNewlines(Characters(p)) == Characters(Trimmed(p))
  {
    TrimLeftSpelled(p);
    TrimRightSpelled(TrimLeft(p, IsBreak));
  }

  lemma MarkedTrimmed(n: nat)
    ensures StripNewlines(Marked(n)) == StripNewlines("\n" + Marked(n)) == Marked(n)
  {
    var marked := Marked(n);
    assert TrimRight(marked, IsNewline) == marked;
    assert ("\n" + marked)[1..] == marked;
    assert TrimLeft("\n" + marked, IsNewline) == TrimLeft(marked, IsNewline) == marked;
  }

  lemma SlotTrimmed(x: Symbol)
    requires x.Slot?
    ensures Trimmed([x]) == Trimmed([BREAK, x]) == [x]
  {
    assert [BREAK, x][1..] == [x];
    assert TrimRight([x], IsBreak) == [x];
    assert TrimLeft([BREAK, x], IsBreak) == TrimLeft([x], IsBreak) == [x];
  }

  lemma SlotAlone(x: Symbol)
    requires x.Slot?
    ensures Trimmed([x]) == [x] && StripNewlines(Characters([x])) == Marked(x.block)
  {
    SlotTrimmed(x);
    SlotSpelled(x);
    MarkedTrimmed(x.block);
  }

  lemma SlotBelow(x: Symbol)
    requires x.Slot?
    ensures Trimmed([BREAK, x]) == [x] && StripNewlines(Characters([BREAK, x])) == Marked(x.block)
  {
    SlotTrimmed(x);
    SlotSpelled(x);
    MarkedTrimmed(x.block);
  }

  lemma LoneSlotTrimmed(p: seq<Symbol>)
    requires LoneSlot(p)
    ensures Trimmed(p) == [p[|p| - 1]] && StripNewlines(Characters(p)) == Marked(p[|p| - 1].block)
  {
    SlotAlone(p[|p| - 1]);
    SlotBelow(p[|p| - 1]);
    LoneForm(p);
  }

  lemma LoneForm(p: seq<Symbol>)
    requires LoneSlot(p)
    ensures p == [p[|p| - 1]] || p == [BREAK, p[|p| - 1]]
  {
  }

  /** A paragraph of the description itself that reads like a placeholder. */
  predicate Forged(p: seq<Symbol>, digit: Digit) {
    Slotless(p) && NumberOf(Characters(Trimmed(p)), digit).Some?
  }

  /** The spelled paragraph is rendered like the paragraph of symbols exactly when it forges no placeholder. */
  lemma PieceIff(p: seq<Symbol>, blocks: seq<string>, word: char -> bool, digit: Digit)
    requires (Slotless(p) || LoneSlot(p)) && Decimals(digit)
    ensures PieceAt(Characters(p), blocks, word, digit) == PieceOf(p, blocks, word) <==> !Forged(p, digit)
    ensures Forged(p, digit) ==>
      (PieceAt(Characters(p), blocks, word, digit) == IndexError
       <==> NumberOf(Characters(Trimmed(p)), digit).value >= |blocks|)
  {
    if Slotless(p) {
      SlotlessPiece(p, blocks, word);
      ForgeryShows(Characters(Trimmed(p)), blocks, word, digit);
    } else {
      SlotPiece(p, blocks, word, digit);
    }
  }

  lemma ForgeryShows(q: string, blocks: seq<string>, word: char -> bool, digit: Digit)
    ensures
      var piece := PieceFor(q, blocks, word, digit);
      && (piece == (if q == "" then Nothing else Markup(ParagraphHtml(q, word))) <==> NumberOf(q, digit).None?)
      && (NumberOf(q, digit).Some? ==> (piece == IndexError <==> NumberOf(q, digit).value >= |blocks|))
  {
  }

  lemma SlotlessPiece(p: seq<Symbol>, blocks: seq<string>, word: char -> bool)
    requires Slotless(p)
    ensures
      var q := Characters(Trimmed(p));
      && PieceOf(p, blocks, word) == (if q == "" then Nothing else Markup(ParagraphHtml(q, word)))
      && StripNewlines(Characters(p)) == q
  {
    SlotlessTrimmed(p);
    var q := Trimmed(p);
    SlotlessSpelled(q);
    assert q != [] ==> q[0] in q;
  }

  lemma SlotPiece(p: seq<Symbol>, blocks: seq<string>, word: char -> bool, digit: Digit)
    requires LoneSlot(p) && Decimals(digit)
    ensures PieceAt(Characters(p), blocks, word, digit) == PieceOf(p, blocks, word) && !Slotless(p)
  {
    LoneSlotTrimmed(p);
    MarkedRead(p[|p| - 1].block, digit);
    assert p[|p| - 1] in p;
  }

  // ---------------------------------------------------------------- the whole page

  lemma {:induction false} SplitShapes(s: seq<Symbol>, i: nat)
    requires Isolated(s) && i <= |s| && Unsplit(s, i)
    ensures forall p :: p in SplitPairs(s, BREAK, i) ==> Slotless(p) || LoneSlot(p)
    decreases |s| - i, |s|
  {
    if i + 1 >= |s| {
      ParagraphShape(s, |s|);
      assert s[..|s|] == s;
    } else if PairAt(s, i) {
      ParagraphShape(s, i);
      IsolatedRest(s, i + 2);
      SplitShapes(s[i + 2..], 0);
    } else {
      SplitShapes(s, i + 1);
    }
  }

  /** Every paragraph of the page, spelled out or not. */
  lemma PiecesSpelled(text: string, word: char -> bool, digit: Digit)
    requires Decimals(digit)
    ensures
      var paragraphs, blocks := ParagraphsOf(text), Blocks(Segments(Escape(text)));
      && |PiecesAt(text, word, digit)| == |PiecesOf(text, word)| == |paragraphs|
      && forall i :: 0 <= i < |paragraphs| ==>
        && PiecesAt(text, word, digit)[i] == PieceAt(Characters(paragraphs[i]), blocks, word, digit)
        && PiecesOf(text, word)[i] == PieceOf(paragraphs[i], blocks, word)
        && (Slotless(paragraphs[i]) || LoneSlot(paragraphs[i]))
  {
    ParagraphsSpelled(text);
    SetAsideIsolated(Segments(Escape(text)), 0);
    SplitShapes(SetAside(Segments(Escape(text)), 0), 0);
    assert forall p :: p in ParagraphsOf(text) ==> Slotless(p) || LoneSlot(p);
  }

  /** No paragraph of the description reads like a placeholder. */
  predicate NoneForged(text: string, digit: Digit) {
    forall i :: 0 <= i < |ParagraphsOf(text)| ==> !Forged(ParagraphsOf(text)[i], digit)
  }

  /** Exactly when the page is the one with placeholders of their own: when the description forges none. */
  lemma PageFaithfulIff(text: string, word: char -> bool, digit: Digit)
    requires Decimals(digit)
    ensures PiecesAt(text, word, digit) == PiecesOf(text, word) <==> NoneForged(text, digit)
    ensures NoneForged(text, digit) ==> Page(text, word, digit) == Some(Html(text, word))
  {
    PiecesSpelled(text, word, digit);
    PiecesFaithful(text, word);
    var paragraphs, blocks := ParagraphsOf(text), Blocks(Segments(Escape(text)));
    var at, pieces := PiecesAt(text, word, digit), PiecesOf(text, word);
    forall i | 0 <= i < |paragraphs| ensures at[i] == pieces[i] <==> !Forged(paragraphs[i], digit) {
      PieceIff(paragraphs[i], blocks, word, digit);
    }
    forall i | 0 <= i < |pieces| ensures pieces[i] != IndexError {
      assert Faithful(pieces[i]);
    }
  }

  /** Exactly when a lookup raises: when a forged placeholder has a number that no block has. */
  lemma LookupRaisesIff(text: string, word: char -> bool, digit: Digit)
    requires Decimals(digit)
    ensures Page(text, word, digit) == None <==>
      exists i :: 0 <= i < |ParagraphsOf(text)| && Raises(text, digit, i)
  {
    PiecesSpelled(text, word, digit);
    PiecesFaithful(text, word);
    var paragraphs, blocks := ParagraphsOf(text), Blocks(Segments(Escape(text)));
    var at, pieces := PiecesAt(text, word, digit), PiecesOf(text, word);
    forall i | 0 <= i < |paragraphs| ensures at[i] == IndexError <==> Raises(text, digit, i) {
      PieceIff(paragraphs[i], blocks, word, digit);
      assert Faithful(pieces[i]);
    }
    if i :| 0 <= i < |paragraphs| && Raises(text, digit, i) {
      assert at[i] in at;
    }
  }

  predicate Raises(text: string, digit: Digit, i: nat)
    requires i < |ParagraphsOf(text)|
  {
    var p := ParagraphsOf(text)[i];
    Forged(p, digit) && NumberOf(Characters(Trimmed(p)), digit).value >= |Blocks(Segments(Escape(text)))|
  }

  // ---------------------------------------------------------------- descriptions without NUL

  lemma {:induction false} EscapeNulFree(s: string)
    requires NUL !in s
    ensures NUL !in Escape(s)
  {
    if s != "" {
      EscapeNulFree(s[1..]);
      EscapeCharNulFree(s[0]);
    }
  }

  lemma EscapeCharNulFree(c: char)
    requires c != NUL
    ensures NUL !in EscapeChar(c)
  {
  }

  lemma {:induction false} LettersNulFree(s: string)
    requires NUL !in s
    ensures forall x :: x in Segments(s) && x.Letter? ==> x.c != NUL
  {
    if s != "" {
      var fenced := Fenced(s);
      if fenced.Some? {
        LettersNulFree(s[fenced.value.1 + 3..]);
      } else {
        LettersNulFree(s[1..]);
        assert s[0] in s;
      }
    }
  }

  lemma {:induction false} SymbolsNulFree(segments: seq<Segment>, n: nat)
    requires forall x :: x in segments && x.Letter? ==> x.c != NUL
    ensures Ch(NUL) !in SetAside(segments, n)
  {
    if segments != [] {
      SymbolsNulFree(segments[1..], if segments[0].Block? then n + 1 else n);
      assert segments[0] in segments;
    }
  }

  /** A description without NUL forges no placeholder. */
  lemma NulFreeForgesNone(text: string, digit: Digit)
    requires NUL !in text
    ensures NoneForged(text, digit)
  {
    EscapeNulFree(text);
    LettersNulFree(Escape(text));
    SymbolsNulFree(Segments(Escape(text)), 0);
    forall i | 0 <= i < |ParagraphsOf(text)| ensures !Forged(ParagraphsOf(text)[i], digit) {
      var p := ParagraphsOf(text)[i];
      assert p in ParagraphsOf(text);
      if Slotless(p) {
        var q := Trimmed(p);
        SlotlessTrimmed(p);
        SlotlessSpelled(q);
        assert q != [] ==> q[0] in q && q[0] in p && q[0] in SetAside(Segments(Escape(text)), 0);
      }
    }
  }

  /** A forged placeholder in a description without blocks: the lookup raises. */
  lemma ForgedRaises(word: char -> bool, digit: Digit)
    requires Decimals(digit)
    ensures Page("\0" + "0" + "\0", word, digit) == None
  {
    var text := "\0" + "0" + "\0";
    var p := [Ch(NUL), Ch('0'), Ch(NUL)];
    ForgedParagraphs(text, p);
    ForgedNumber(text, p, digit);
    assert Raises(text, digit, 0);
    LookupRaisesIff(text, word, digit);
  }

  lemma ForgedParagraphs(text: string, p: seq<Symbol>)
    requires text == [NUL, '0', NUL] && p == [Ch(NUL), Ch('0'), Ch(NUL)]
    ensures ParagraphsOf(text) == [p] && Blocks(Segments(Escape(text))) == []
  {
    ForgedEscape(text);
    SymbolsPlain(text, p);
    NothingSplit(p, 0);
  }

  lemma SymbolsPlain(text: string, p: seq<Symbol>)
    requires '`' !in text && |p| == |text| && forall i :: 0 <= i < |p| ==> p[i] == Ch(text[i])
    ensures SetAside(Segments(text), 0) == p && Blocks(Segments(text)) == []
  {
    SegmentsPlain(text);
    LettersOnly(Segments(text));
  }

  lemma {:induction false} NothingSplit(p: seq<Symbol>, i: nat)
    requires i <= |p| && BREAK !in p
    ensures SplitPairs(p, BREAK, i) == [p]
    decreases |p| - i
  {
    if i + 1 < |p| {
      NothingSplit(p, i + 1);
    }
  }

  lemma ForgedNumber(text: string, p: seq<Symbol>, digit: Digit)
    requires text == [NUL, '0', NUL] && p == [Ch(NUL), Ch('0'), Ch(NUL)] && Decimals(digit)
    ensures Slotless(p) && NumberOf(Characters(Trimmed(p)), digit) == Some(0)
  {
    assert TrimLeft(p, IsBreak) == p && TrimRight(p, IsBreak) == p;
    SlotlessSpelled(p);
    assert Characters(p) == text;
    MarkedRead(0, digit);
    assert Marked(0) == text;
  }

  lemma ForgedEscape(text: string)
    requires forall i :: 0 <= i < |text| ==> text[i] == NUL || text[i] == '0'
    ensures Escape(text) == text && '`' !in text
  {
    EscapePlain(text);
  }

  lemma {:induction false} EscapePlain(s: string)
    requires forall i :: 0 <= i < |s| ==> s[i] == NUL || s[i] == '0'
    ensures Escape(s) == s
  {
    if s != "" {
      EscapePlain(s[1..]);
      PlainChar(s[0]);
      assert s == [s[0]] + s[1..];
    }
  }

  lemma PlainChar(c: char)
    requires c == NUL || c == '0'
    ensures EscapeChar(c) == [c]
  {
  }

  lemma {:induction false} SegmentsPlain(s: string)
    requires '`' !in s
    ensures Segments(s) == Each(s, c => Letter(c))
  {
    if s != "" {
      assert s[0] in s && Fenced(s) == None;
      SegmentsPlain(s[1..]);
    }
  }

  lemma {:induction false} LettersOnly(segments: seq<Segment>)
    requires forall i :: 0 <= i < |segments| ==> segments[i].Letter?
    ensures Blocks(segments) == [] && |SetAside(segments, 0)| == |segments|
    ensures forall i :: 0 <= i < |segments| ==> SetAside(segments, 0)[i] == Ch(segments[i].c)
  {
    if segments != [] {
      LettersOnly(segments[1..]);
    }
  }

  // ---------------------------------------------------------------- the ticket as it is written

  /** The description of a new ticket, unless rendering raises. */
  function Written(text: string, m: Measurement, word: char -> bool, digit: Digit): Option<string> {
    match Page(text, word, digit)
    case Some(page) => Some(page + MeasurementHtml(m))
    case None => None
  }

  /** Of the ticket as it is written: for a description that forges no placeholder all that is said of it holds. */
  lemma WrittenRoundTrip(text: string, m: Measurement, word: char -> bool, digit: Digit)
    requires Decimals(digit) && Passed(m) && NoneForged(text, digit)
    ensures Written(text, m, word, digit) == Some(Document(text, m, word))
    ensures Parse(Written(text, m, word, digit).value) == Some((m.command, m.output))
      <==> '\n' !in m.command && |m.output| <= OUTPUT_LIMIT && !HasFence(m.output)
  {
    PageFaithfulIff(text, word, digit);
    RoundTripIff(text, m, word);
  }
}
