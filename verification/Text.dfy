/**
 * Python string functions: stripping, splitting, searching, and HTML escaping with its inverse.
 */
module Text {
  import opened Prelude

  /** Python's white space, of `str.strip` and of the class `\s`. */
  predicate IsSpace(c: char) {
    || '\t' <= c <= '\r' || '\U{1c}' <= c <= ' ' || c == '\U{85}' || c == '\U{a0}' || c == '\U{1680}'
    || '\U{2000}' <= c <= '\U{200a}' || c == '\U{2028}' || c == '\U{2029}' || c == '\U{202f}' || c == '\U{205f}'
    || c == '\U{3000}'
  }

  predicate Starts(s: string, literal: string) {
    |literal| <= |s| && forall i :: 0 <= i < |literal| ==> s[i] == literal[i]
  }

  /** The first position of `c` at or after `i`. */
  function FindChar(s: string, c: char, i: nat): (r: Option<nat>)
    ensures r.Some? ==> i <= r.value < |s| && s[r.value] == c && forall k :: i <= k < r.value ==> s[k] != c
    ensures r.None? ==> forall k :: i <= k < |s| ==> s[k] != c
    decreases |s| - i
  {
    if i >= |s| then None else if s[i] == c then Some(i) else FindChar(s, c, i + 1)
  }

  /** The first position of a nonempty `literal` at or after `i`. */
  function FindSub(s: string, literal: string, i: nat): (r: Option<nat>)
    requires literal != ""
    ensures r.Some? ==> i <= r.value < |s| && Starts(s[r.value..], literal)
    decreases |s| - i
  {
    if i >= |s| then None else if Starts(s[i..], literal) then Some(i) else FindSub(s, literal, i + 1)
  }

  function FoundLater(found: Option<nat>, n: nat): Option<nat> {
    match found case Some(k) => Some(n + k) case None => None
  }

  /** `rest` is what `s` holds from `n` on. */
  ghost predicate Behind(s: string, rest: string, n: nat) {
    |s| == n + |rest| && forall i :: 0 <= i <= |rest| ==> rest[i..] == s[n + i..]
  }

  lemma {:induction false} FoundBehind(s: string, rest: string, literal: string, n: nat, i: nat)
    requires literal != "" && Behind(s, rest, n) && i <= |rest|
    ensures FindSub(s, literal, n + i) == FoundLater(FindSub(rest, literal, i), n)
    decreases |rest| - i
  {
    if i < |rest| && !Starts(rest[i..], literal) {
      FoundBehind(s, rest, literal, n, i + 1);
    }
  }

  /** What is found in a suffix is found in the whole, as far behind. */
  lemma FoundInSuffix(s: string, literal: string, n: nat)
    requires literal != "" && n <= |s|
    ensures FindSub(s, literal, n) == FoundLater(FindSub(s[n..], literal, 0), n)
  {
    SuffixIsBehind(s, n);
    FoundBehind(s, s[n..], literal, n, 0);
  }

  lemma SuffixIsBehind(s: string, n: nat)
    requires n <= |s|
    ensures Behind(s, s[n..], n)
  {
    forall i | 0 <= i <= |s| - n ensures s[n..][i..] == s[n + i..] {
    }
  }

  /** `split` at two neighbouring elements `x`, looking from `i` on: the blank-line split of a text. */
  function SplitPairs<T(==)>(s: seq<T>, x: T, i: nat): (r: seq<seq<T>>)
    requires i <= |s|
    ensures r != [] && forall p, c :: p in r && c in p ==> c in s
    decreases |s| - i, |s|
  {
    if i + 1 >= |s| then [s]
    else if s[i] == s[i + 1] == x then [s[..i]] + SplitPairs(s[i + 2..], x, 0)
    else SplitPairs(s, x, i + 1)
  }

  /** The parts with two elements `x` between each two of them. */
  function JoinPairs<T>(parts: seq<seq<T>>, x: T): seq<T> {
    if parts == [] then []
    else if |parts| == 1 then parts[0]
    else parts[0] + ([x, x] + JoinPairs(parts[1..], x))
  }

  /** Splitting loses nothing, and leaves no two neighbouring elements `x` in a part. */
  lemma {:induction false} SplitPairsJoined<T>(s: seq<T>, x: T, i: nat)
    requires i <= |s| && forall k :: 0 <= k < i && k + 1 < |s| ==> !(s[k] == x && s[k + 1] == x)
    ensures JoinPairs(SplitPairs(s, x, i), x) == s
    ensures forall p :: p in SplitPairs(s, x, i) ==> Unpaired(p, x)
    decreases |s| - i, |s|
  {
    if i + 1 < |s| {
      if s[i] == s[i + 1] == x {
        SplitPairsJoined(s[i + 2..], x, 0);
        assert ([s[..i]] + SplitPairs(s[i + 2..], x, 0))[1..] == SplitPairs(s[i + 2..], x, 0);
        assert s == s[..i] + ([x, x] + s[i + 2..]);
      } else {
        SplitPairsJoined(s, x, i + 1);
      }
    }
  }

  predicate Unpaired<T(==)>(s: seq<T>, x: T) {
    forall k :: 0 <= k < |s| - 1 ==> !(s[k] == x && s[k + 1] == x)
  }

  /** A character at which `str.splitlines` breaks. */
  predicate IsLineBreak(c: char) {
    '\n' <= c <= '\r' || '\U{1c}' <= c <= '\U{1e}' || c == '\U{85}' || c == '\U{2028}' || c == '\U{2029}'
  }

  function LineEnd(s: string, i: nat): (r: nat)
    requires i <= |s|
    ensures i <= r <= |s| && (r < |s| ==> IsLineBreak(s[r]))
    decreases |s| - i
  {
    if i == |s| || IsLineBreak(s[i]) then i else LineEnd(s, i + 1)
  }

  // ---------------------------------------------------------------- stripping

  function TrimLeft<T>(s: seq<T>, drop: T -> bool): (r: seq<T>)
    ensures |r| <= |s| && (r == [] || (!drop(r[0]) && r[|r| - 1] == s[|s| - 1]))
    ensures forall c :: c in r ==> c in s
  {
    if s != [] && drop(s[0]) then TrimLeft(s[1..], drop) else s
  }

  function TrimRight<T>(s: seq<T>, drop: T -> bool): (r: seq<T>)
    ensures |r| <= |s| && (r == [] || (!drop(r[|r| - 1]) && r[0] == s[0]))
    ensures forall c :: c in r ==> c in s
  {
    if s != [] && drop(s[|s| - 1]) then TrimRight(s[..|s| - 1], drop) else s
  }

  /** `s.strip(...)`: a part of `s` that neither starts nor ends with a dropped element. */
  function StripBy<T>(s: seq<T>, drop: T -> bool): (r: seq<T>)
    ensures |r| <= |s| && (r == [] || (!drop(r[0]) && !drop(r[|r| - 1])))
    ensures forall c :: c in r ==> c in s
  {
    TrimRight(TrimLeft(s, drop), drop)
  }

  function Strip(s: string): (r: string)
    ensures |r| <= |s| && (r == "" || (!IsSpace(r[0]) && !IsSpace(r[|r| - 1])))
    ensures forall c :: c in r ==> c in s
  {
    StripBy(s, IsSpace)
  }

  function StripNewlines(s: string): (r: string)
    ensures forall c :: c in r ==> c in s
  {
    StripBy(s, IsNewline)
  }

  predicate IsNewline(c: char) {
    c == '\n'
  }

  lemma TrimLast<T>(front: seq<T>, x: T, drop: T -> bool)
    ensures TrimRight(front + [x], drop) == if drop(x) then TrimRight(front, drop) else front + [x]
  {
    assert (front + [x])[..|front|] == front;
  }

  /** Stripping what is already stripped changes nothing. */
  lemma StripStripped(s: string)
    requires s == "" || (!IsSpace(s[0]) && !IsSpace(s[|s| - 1]))
    ensures Strip(s) == s
  {
  }

  lemma StripTwice(s: string)
    ensures Strip(Strip(s)) == Strip(s)
  {
    StripStripped(Strip(s));
  }

  /** White space is these twenty-nine characters. */
  lemma WhiteSpace(c: char)
    ensures IsSpace(c) <==>
      c as int in [9, 10, 11, 12, 13, 28, 29, 30, 31, 32, 0x85, 0xa0, 0x1680, 0x2000, 0x2001, 0x2002, 0x2003, 0x2004,
                   0x2005, 0x2006, 0x2007, 0x2008, 0x2009, 0x200a, 0x2028, 0x2029, 0x202f, 0x205f, 0x3000]
  {
  }

  /** Lines break at these ten characters. */
  lemma LineBreaks(c: char)
    ensures IsLineBreak(c) <==> c as int in [10, 11, 12, 13, 28, 29, 30, 0x85, 0x2028, 0x2029]
  {
  }

  predicate AllSpace(s: string) {
    forall i :: 0 <= i < |s| ==> IsSpace(s[i])
  }

  lemma {:induction false} TrimLeftInside(s: string) returns (before: string)
    ensures s == before + TrimLeft(s, IsSpace) && AllSpace(before)
  {
    before := "";
    if s != "" && IsSpace(s[0]) {
      var more := TrimLeftInside(s[1..]);
      before := [s[0]] + more;
    }
  }

  lemma {:induction false} TrimRightInside(s: string) returns (after: string)
    ensures s == TrimRight(s, IsSpace) + after && AllSpace(after)
  {
    after := "";
    if s != "" && IsSpace(s[|s| - 1]) {
      var more := TrimRightInside(s[..|s| - 1]);
      after := more + [s[|s| - 1]];
    }
  }

  /** What is left after stripping is one piece of the original, between white space only. */
  lemma StripInside(s: string) returns (before: string, after: string)
    ensures s == before + Strip(s) + after && AllSpace(before) && AllSpace(after)
  {
    before := TrimLeftInside(s);
    after := TrimRightInside(TrimLeft(s, IsSpace));
  }

  // ---------------------------------------------------------------- escaping

  function EscapeChar(c: char): (r: string)
    ensures '<' !in r
  {
    match c
    case '&' => "&amp;"
    case '<' => "&lt;"
    case '>' => "&gt;"
    case '"' => "&quot;"
    case '\'' => "&#x27;"
    case _ => [c]
  }

  /** `html.escape`. */
  function Escape(s: string): (r: string)
    ensures '<' !in r
  {
    if s == "" then "" else EscapeChar(s[0]) + Escape(s[1..])
  }

  /** The character whose reference `s` starts with. */
  function Reference(s: string): (r: Option<char>)
    ensures r.Some? ==> Starts(s, EscapeChar(r.value))
  {
    if Starts(s, "&amp;") then Some('&')
    else if Starts(s, "&lt;") then Some('<')
    else if Starts(s, "&gt;") then Some('>')
    else if Starts(s, "&quot;") then Some('"')
    else if Starts(s, "&#x27;") then Some('\'')
    else None
  }

  /** `html.unescape`, for the references that `Escape` writes. */
  function Unescape(s: string): string {
    if s == "" then ""
    else
      match Reference(s)
      case Some(c) => [c] + Unescape(s[|EscapeChar(c)|..])
      case None => [s[0]] + Unescape(s[1..])
  }

  lemma {:induction false} EscapeAppend(a: string, b: string)
    ensures Escape(a + b) == Escape(a) + Escape(b)
  {
    if a == "" {
      assert a + b == b;
    } else {
      assert (a + b)[1..] == a[1..] + b;
      EscapeAppend(a[1..], b);
    }
  }

  /** The five characters that are escaped, and what is written for them. */
  lemma EscapeTable(c: char)
    ensures Escape("&") == "&amp;" && Escape("<") == "&lt;" && Escape(">") == "&gt;"
    ensures Escape("\"") == "&quot;" && Escape("'") == "&#x27;"
    ensures c !in ['&', '<', '>', '"', '\''] ==> Escape([c]) == [c]
  {
    assert forall d: char :: [d][1..] == "";
    assert "&"[1..] == "" && "<"[1..] == "" && ">"[1..] == "" && "\""[1..] == "" && "'"[1..] == "";
  }

  /** Escaping and unescaping any text gives the text back. */
  lemma {:induction false} UnescapeEscape(s: string)
    ensures Unescape(Escape(s)) == s
  {
    if s != "" {
      UnescapeEscape(s[1..]);
      UnescapeOne(s[0], Escape(s[1..]));
    }
  }

  lemma UnescapeOne(c: char, rest: string)
    ensures Unescape(EscapeChar(c) + rest) == [c] + Unescape(rest)
  {
    var e := EscapeChar(c);
    assert (e + rest)[|e|..] == rest;
    if c in {'&', '<', '>', '"', '\''} {
      ReferenceRead(c, e + rest);
    } else {
      assert (e + rest)[0] == c && Reference(e + rest) == None;
    }
  }

  lemma ReferenceRead(c: char, s: string)
    requires c in {'&', '<', '>', '"', '\''} && Starts(s, EscapeChar(c))
    ensures Reference(s) == Some(c)
  {
    if c == '&' {
    } else if c == '<' {
      assert s[1] == EscapeChar(c)[1] == 'l';
    } else if c == '>' {
      assert s[1] == EscapeChar(c)[1] == 'g';
    } else if c == '"' {
      assert s[1] == EscapeChar(c)[1] == 'q';
    } else {
      assert s[1] == EscapeChar(c)[1] == '#';
    }
  }
}
