/**
 * Rendering a ticket description to HTML. Regular expressions are written out as matchers over character
 * sequences; `word` stands for the Unicode word characters, and nothing depends on which they are.
 *
 * A description may hold anything, tags and fences included. What matters to whoever reads the page back is that a
 * code block appears on it exactly where a fenced block was: everything else is `Safe`, it opens no `<pre`.
 */
module TicketPage {
  import opened Prelude
  import opened Text

  /** A character that a rewriting rule may replace, or that opens a tag. */
  predicate Rewritten(c: char) {
    c == '*' || c == '`' || c == '\n' || c == '<'
  }

  /** A bracket at `i` starts a tag of at least three characters that no rewriting rule cuts, and that is no `<pre`. */
  predicate TagAt(s: string, i: nat)
    requires i < |s|
  {
    s[i] == '<' ==>
      i + 2 < |s| && !Rewritten(s[i + 1]) && !Rewritten(s[i + 2]) && !(s[i + 1] == 'p' && s[i + 2] == 'r')
  }

  predicate Safe(s: string) {
    forall i {:trigger TagAt(s, i)} :: 0 <= i < |s| ==> TagAt(s, i)
  }

  lemma SafeAppend(a: string, b: string)
    requires Safe(a) && Safe(b)
    ensures Safe(a + b)
  {
    forall i | 0 <= i < |a + b| ensures TagAt(a + b, i) {
      assert if i < |a| then TagAt(a, i) else TagAt(b, i - |a|);
    }
  }

  /** Cutting a safe text before a rewritten character, or at its ends, leaves safe pieces. */
  lemma SafeSlice(s: string, a: nat, b: nat)
    requires Safe(s) && a <= b <= |s| && (b == |s| || Rewritten(s[b]))
    ensures Safe(s[a..b])
  {
    forall i | 0 <= i < b - a ensures TagAt(s[a..b], i) {
      assert TagAt(s, a + i);
    }
  }

  /** A tag of at least three characters, which no rewriting rule cuts, and that is no `<pre`. */
  predicate IsTag(tag: string) {
    && |tag| >= 3 && tag[0] == '<' && !Rewritten(tag[1]) && !Rewritten(tag[2]) && !(tag[1] == 'p' && tag[2] == 'r')
    && forall i :: 1 <= i < |tag| ==> tag[i] != '<'
  }

  lemma SafeTag(tag: string)
    requires IsTag(tag)
    ensures Safe(tag)
  {
    forall i | 0 <= i < |tag| ensures TagAt(tag, i) {
    }
  }

  // ---------------------------------------------------------------- the tags of a page

  const STRONG := "<strong>"
  const STRONG_END := "</strong>"
  const EM := "<em>"
  const EM_END := "</em>"
  const CODE := "<code>"
  const CODE_END := "</code>"
  const P := "<p>"
  const P_END := "</p>"
  const BR := "<br/>"
  const HR := "<hr/>"
  const TABLE := "<table>"
  const TABLE_END := "</table>"
  const TBODY := "<tbody>"
  const TBODY_END := "</tbody>"
  const TR := "<tr>"
  const TR_END := "</tr>"
  const TH := "<th>"
  const TH_END := "</th>"
  const TD := "<td>"
  const TD_END := "</td>"
  const HEADING_CLASS := " class=\"editor-heading-block\""
  const H3 := "<h3" + HEADING_CLASS + ">"
  const H3_END := "</h3>"

  lemma InlineTags()
    ensures IsTag(STRONG) && IsTag(STRONG_END) && IsTag(EM) && IsTag(EM_END) && IsTag(CODE) && IsTag(CODE_END)
  {
  }

  lemma BlockTags()
    ensures IsTag(P) && IsTag(P_END) && IsTag(BR) && IsTag(HR) && IsTag(H3_END)
  {
  }

  lemma HeadingTag()
    ensures IsTag(H3)
  {
    assert '<' !in HEADING_CLASS;
    assert H3[1] == "<h3"[1] && H3[2] == "<h3"[2];
  }

  lemma TableTags()
    ensures IsTag(TABLE) && IsTag(TABLE_END) && IsTag(TBODY) && IsTag(TBODY_END)
    ensures IsTag(TR) && IsTag(TR_END) && IsTag(TH) && IsTag(TH_END) && IsTag(TD) && IsTag(TD_END)
  {
  }

  // ---------------------------------------------------------------- emphasis

  /** The three rewriting rules, in the order they are applied. */
  datatype Kind = Strong | Em | Code

  /** A rule: what delimits, and the tags that are put there instead. */
  datatype Rule = Rule(kind: Kind, delimiter: string, open: string, close: string)

  function RuleOf(kind: Kind): Rule {
    match kind
    case Strong => Rule(Strong, "**", STRONG, STRONG_END)
    case Em => Rule(Em, "*", EM, EM_END)
    case Code => Rule(Code, "`", CODE, CODE_END)
  }

  lemma TagsAreSafe(kind: Kind)
    ensures Safe(RuleOf(kind).open) && Safe(RuleOf(kind).close)
  {
    InlineTags();
    SafeTag(RuleOf(kind).open);
    SafeTag(RuleOf(kind).close);
  }

  function Width(kind: Kind): nat {
    if kind == Strong then 2 else 1
  }

  /** What may stand between the two delimiters. */
  predicate Inner(kind: Kind, c: char) {
    kind == Code ==> c != '`' && c != '\n'
  }

  /** An opening delimiter stands at `i`; a single star not after a star or a word, nor before white space. */
  predicate Opens(s: string, i: nat, kind: Kind, word: char -> bool)
    requires i < |s|
  {
    match kind
    case Strong => i + 1 < |s| && s[i] == s[i + 1] == '*'
    case Em => s[i] == '*' && (i > 0 ==> s[i - 1] != '*' && !word(s[i - 1])) && (i + 1 < |s| ==> !IsSpace(s[i + 1]))
    case Code => s[i] == '`'
  }

  /** A closing delimiter stands at `j`; a single star not after white space, nor before a star or a word. */
  predicate Closes(s: string, j: nat, kind: Kind, word: char -> bool)
    requires 0 < j < |s|
  {
    match kind
    case Strong => j + 1 < |s| && s[j] == s[j + 1] == '*'
    case Em => s[j] == '*' && !IsSpace(s[j - 1]) && (j + 1 < |s| ==> s[j + 1] != '*' && !word(s[j + 1]))
    case Code => s[j] == '`'
  }

  /** The first closing delimiter from `j` on, across characters that may stand inside. */
  function Closing(s: string, j: nat, kind: Kind, word: char -> bool): (r: Option<nat>)
    requires 0 < j
    ensures r.Some? ==> j <= r.value && r.value + Width(kind) <= |s| && Rewritten(s[r.value])
    decreases |s| - j
  {
    if j >= |s| then None
    else if Closes(s, j, kind, word) then Some(j)
    else if Inner(kind, s[j]) then Closing(s, j + 1, kind, word)
    else None
  }

  /** The end of the emphasised text, at least one character, that is delimited from `i` on. */
  function Delimited(s: string, i: nat, kind: Kind, word: char -> bool): (r: Option<nat>)
    requires i < |s|
    ensures r.Some? ==> i + Width(kind) < r.value && r.value + Width(kind) <= |s|
    ensures r.Some? ==> Rewritten(s[i]) && Rewritten(s[r.value])
  {
    var start := i + Width(kind);
    if Opens(s, i, kind, word) && start < |s| && Inner(kind, s[start]) then Closing(s, start + 1, kind, word) else None
  }

  /** The leftmost match from `i` on: where its two delimiters start. */
  function NextMatch(s: string, i: nat, kind: Kind, word: char -> bool): (r: Option<(nat, nat)>)
    ensures r.Some? ==> i <= r.value.0 && r.value.0 + Width(kind) < r.value.1 && r.value.1 + Width(kind) <= |s|
    ensures r.Some? ==> Rewritten(s[r.value.0]) && Rewritten(s[r.value.1])
    decreases |s| - i
  {
    if i >= |s| then None
    else
      match Delimited(s, i, kind, word)
      case Some(j) => Some((i, j))
      case None => NextMatch(s, i + 1, kind, word)
  }

  /** The text before the next match and inside it, and where the rest starts. */
  function NextPart(s: string, i: nat, kind: Kind, word: char -> bool): (r: Option<(string, string, nat)>)
    requires i <= |s|
    ensures r.Some? ==> i < r.value.2 <= |s|
  {
    match NextMatch(s, i, kind, word)
    case None => None
    case Some((k, j)) => Some((s[i..k], s[k + Width(kind)..j], j + Width(kind)))
  }

  /** One rule applied from left to right, without overlap, to `s[i..]`. */
  function Emphasise(s: string, i: nat, rule: Rule, word: char -> bool): string
    requires i <= |s|
    decreases |s| - i
  {
    match NextPart(s, i, rule.kind, word)
    case None => s[i..]
    case Some((before, inner, behind)) =>
      before + (rule.open + (inner + (rule.close + Emphasise(s, behind, rule, word))))
  }

  /** `_zvyraznenia`. */
  function Emphasised(s: string, word: char -> bool): string {
    Emphasise(Emphasise(Emphasise(s, 0, RuleOf(Strong), word), 0, RuleOf(Em), word), 0, RuleOf(Code), word)
  }

  lemma SafeMarked(before: string, rule: Rule, inner: string, after: string)
    requires Safe(before) && Safe(inner) && Safe(after) && Safe(rule.open) && Safe(rule.close)
    ensures Safe(before + (rule.open + (inner + (rule.close + after))))
  {
    SafeAppend(rule.close, after);
    SafeAppend(inner, rule.close + after);
    SafeAppend(rule.open, inner + (rule.close + after));
    SafeAppend(before, rule.open + (inner + (rule.close + after)));
  }

  lemma SafeDrop(s: string, a: nat)
    requires Safe(s) && a <= |s|
    ensures Safe(s[a..])
  {
    SafeSlice(s, a, |s|);
    assert s[a..|s|] == s[a..];
  }

  /** Wherever the rule matches, its delimiter stands on both sides. */
  ghost predicate Delimits(rule: Rule, word: char -> bool) {
    forall s: string, i: nat :: NextMatch(s, i, rule.kind, word).Some? ==> MatchDelimited(s, i, rule, word)
  }

  predicate MatchDelimited(s: string, i: nat, rule: Rule, word: char -> bool) {
    match NextMatch(s, i, rule.kind, word)
    case None => true
    case Some((k, j)) => DelimitersAt(s, k, j, Width(rule.kind), rule.delimiter)
  }

  predicate DelimitersAt(s: string, k: nat, j: nat, w: nat, d: string) {
    k + w <= |s| && s[k..k + w] == d && j + w <= |s| && s[j..j + w] == d
  }

  /** A match, taken apart. */
  lemma MatchParts(s: string, i: nat, k: nat, j: nat, w: nat, d: string)
    requires i <= k && k + w < j && DelimitersAt(s, k, j, w, d)
    ensures s[i..] == s[i..k] + (d + (s[k + w..j] + (d + s[j + w..])))
  {
    assert s[j..] == d + s[j + w..];
    assert s[k..] == d + (s[k + w..j] + s[j..]);
  }

  lemma {:induction false} ClosingDelimits(s: string, j: nat, kind: Kind, word: char -> bool)
    requires 0 < j && Closing(s, j, kind, word).Some?
    ensures var e := Closing(s, j, kind, word).value; s[e..e + Width(kind)] == RuleOf(kind).delimiter
    decreases |s| - j
  {
    if !Closes(s, j, kind, word) {
      ClosingDelimits(s, j + 1, kind, word);
    }
  }

  lemma MatchDelimits(s: string, i: nat, kind: Kind, word: char -> bool, j: nat)
    requires i < |s| && Delimited(s, i, kind, word) == Some(j)
    ensures DelimitersAt(s, i, j, Width(kind), RuleOf(kind).delimiter)
  {
    ClosingDelimits(s, i + Width(kind) + 1, kind, word);
  }

  lemma {:induction false} NextMatchDelimited(s: string, i: nat, kind: Kind, word: char -> bool)
    ensures MatchDelimited(s, i, RuleOf(kind), word)
    decreases |s| - i
  {
    if i < |s| {
      var end := Delimited(s, i, kind, word);
      if end.Some? {
        MatchDelimits(s, i, kind, word, end.value);
        assert NextMatch(s, i, kind, word) == Some((i, end.value));
      } else {
        NextMatchDelimited(s, i + 1, kind, word);
        assert NextMatch(s, i, kind, word) == NextMatch(s, i + 1, kind, word);
      }
    }
  }

  lemma RuleDelimits(kind: Kind, word: char -> bool)
    ensures Delimits(RuleOf(kind), word)
  {
    forall s: string, i: nat ensures MatchDelimited(s, i, RuleOf(kind), word) {
      NextMatchDelimited(s, i, kind, word);
    }
  }

  /** Around the next match the text is as it was, with its delimiters. */
  lemma PartAround(s: string, i: nat, rule: Rule, word: char -> bool, before: string, inner: string, behind: nat)
    requires i <= |s| && Delimits(rule, word)
    requires NextPart(s, i, rule.kind, word) == Some((before, inner, behind))
    ensures s[i..] == before + (rule.delimiter + (inner + (rule.delimiter + s[behind..])))
    ensures Safe(s) ==> Safe(before) && Safe(inner)
  {
    var (k, j) := NextMatch(s, i, rule.kind, word).value;
    assert MatchDelimited(s, i, rule, word);
    MatchAround(s, i, k, j, Width(rule.kind), rule.delimiter, before, inner);
  }

  lemma MatchAround(s: string, i: nat, k: nat, j: nat, w: nat, d: string, before: string, inner: string)
    requires i <= k && k + w < j && DelimitersAt(s, k, j, w, d) && j < |s| && Rewritten(s[k]) && Rewritten(s[j])
    requires before == s[i..k] && inner == s[k + w..j]
    ensures s[i..] == before + (d + (inner + (d + s[j + w..])))
    ensures Safe(s) ==> Safe(before) && Safe(inner)
  {
    MatchParts(s, i, k, j, w, d);
    if Safe(s) {
      SafeSlice(s, i, k);
      SafeSlice(s, k + w, j);
    }
  }

  lemma {:induction false} EmphasiseSafe(s: string, i: nat, rule: Rule, word: char -> bool)
    requires i <= |s| && Safe(s) && Safe(rule.open) && Safe(rule.close) && Delimits(rule, word)
    ensures Safe(Emphasise(s, i, rule, word))
    decreases |s| - i
  {
    match NextPart(s, i, rule.kind, word)
    case None => SafeDrop(s, i);
    case Some((before, inner, behind)) =>
      PartAround(s, i, rule, word, before, inner, behind);
      EmphasiseSafe(s, behind, rule, word);
      SafeMarked(before, rule, inner, Emphasise(s, behind, rule, word));
  }

  lemma RuleSafe(s: string, kind: Kind, word: char -> bool)
    requires Safe(s)
    ensures Safe(Emphasise(s, 0, RuleOf(kind), word))
  {
    TagsAreSafe(kind);
    RuleDelimits(kind, word);
    EmphasiseSafe(s, 0, RuleOf(kind), word);
  }

  lemma EmphasisedSafe(s: string, word: char -> bool)
    requires '<' !in s
    ensures Safe(Emphasised(s, word))
  {
    var strong := Emphasise(s, 0, RuleOf(Strong), word);
    RuleSafe(s, Strong, word);
    RuleSafe(strong, Em, word);
    RuleSafe(Emphasise(strong, 0, RuleOf(Em), word), Code, word);
  }

  // ---------------------------------------------------------------- emphasis undone

  /** The tag of a rule at the start of `s`: the delimiter it stands for, and its length. */
  function TagOf(s: string): (r: Option<(string, nat)>)
    ensures r.Some? ==> 0 < r.value.1 <= |s| && s[0] == '<'
    ensures r.Some? ==> forall k :: 0 <= k < r.value.1 ==> s[k] != '*' && s[k] != '`'
  {
    if s == "" || s[0] != '<' then None
    else if Starts(s, STRONG) then Some(("**", |STRONG|))
    else if Starts(s, STRONG_END) then Some(("**", |STRONG_END|))
    else if Starts(s, EM) then Some(("*", |EM|))
    else if Starts(s, EM_END) then Some(("*", |EM_END|))
    else if Starts(s, CODE) then Some(("`", |CODE|))
    else if Starts(s, CODE_END) then Some(("`", |CODE_END|))
    else None
  }

  /** Every tag put back to the delimiter it stands for. */
  function Undone(s: string): string {
    if s == "" then ""
    else
      match TagOf(s)
      case Some((delimiter, n)) => delimiter + Undone(s[n..])
      case None => [s[0]] + Undone(s[1..])
  }

  /** Every bracket starts a whole tag of a rule. */
  predicate Whole(s: string) {
    if s == "" then true
    else
      match TagOf(s)
      case Some((_, n)) => Whole(s[n..])
      case None => s[0] != '<' && Whole(s[1..])
  }

  lemma TagStays(a: string, b: string)
    requires a != "" && (a[0] != '<' || TagOf(a).Some?)
    ensures TagOf(a + b) == TagOf(a)
  {
    if a[0] == '<' {
      assert (a + b)[0] == a[0] && (a + b)[1] == a[1] && (a + b)[2] == a[2];
    }
  }

  lemma {:induction false} UndoneAppend(a: string, b: string)
    requires Whole(a)
    ensures Undone(a + b) == Undone(a) + Undone(b)
    ensures Whole(b) ==> Whole(a + b)
  {
    if a == "" {
      assert a + b == b;
    } else {
      TagStays(a, b);
      var tag := TagOf(a);
      var n := if tag.Some? then tag.value.1 else 1;
      assert (a + b)[n..] == a[n..] + b;
      UndoneAppend(a[n..], b);
      Regroup(if tag.Some? then tag.value.0 else [a[0]], Undone(a[n..]), Undone(b));
    }
  }

  /** No tag reaches across a delimiter. */
  lemma TagKept(a: string, b: string)
    requires a != "" && (b == "" || b[0] == '*' || b[0] == '`')
    requires (a + b)[0] != '<' || TagOf(a + b).Some?
    ensures TagOf(a) == TagOf(a + b)
  {
    var s := a + b;
    if s[0] == '<' {
      var n := TagOf(s).value.1;
      assert b != "" ==> s[|a|] == b[0];
      assert a[0] == s[0] && a[1] == s[1] && a[2] == s[2];
    }
  }

  /** A whole text cut at a delimiter gives two whole texts. */
  lemma {:induction false} WholeCut(a: string, b: string)
    requires Whole(a + b) && (b == "" || b[0] == '*' || b[0] == '`')
    ensures Whole(a) && Whole(b)
  {
    if a == "" {
      assert a + b == b;
    } else {
      TagKept(a, b);
      var n := if TagOf(a).Some? then TagOf(a).value.1 else 1;
      assert (a + b)[n..] == a[n..] + b;
      WholeCut(a[n..], b);
    }
  }

  lemma {:induction false} BracketlessWhole(s: string)
    requires '<' !in s
    ensures Whole(s) && Undone(s) == s
  {
    if s != "" {
      BracketlessWhole(s[1..]);
    }
  }

  /** The rule's tags stand for its delimiter, which holds no bracket. */
  predicate Undoable(rule: Rule) {
    && TagOf(rule.open) == Some((rule.delimiter, |rule.open|))
    && TagOf(rule.close) == Some((rule.delimiter, |rule.close|))
    && |rule.delimiter| == Width(rule.kind)
    && forall k :: 0 <= k < |rule.delimiter| ==> rule.delimiter[k] == '*' || rule.delimiter[k] == '`'
  }

  /** A delimited text with its tags is undone to the text with its delimiters. */
  lemma MarkedUndone(before: string, rule: Rule, inner: string, after: string)
    requires Undoable(rule) && Whole(before) && Whole(inner) && Whole(after)
    ensures Undone(before + (rule.open + (inner + (rule.close + after))))
      == Undone(before) + (rule.delimiter + (Undone(inner) + (rule.delimiter + Undone(after))))
    ensures Whole(before + (rule.open + (inner + (rule.close + after))))
  {
    TagUndone(rule.close, rule.delimiter, after);
    UndoneAppend(inner, rule.close + after);
    TagUndone(rule.open, rule.delimiter, inner + (rule.close + after));
    UndoneAppend(before, rule.open + (inner + (rule.close + after)));
  }

  lemma TagUndone(tag: string, delimiter: string, after: string)
    requires TagOf(tag) == Some((delimiter, |tag|))
    ensures Undone(tag + after) == delimiter + Undone(after)
    ensures Whole(after) ==> Whole(tag + after)
  {
    TagStays(tag, after);
    assert (tag + after)[|tag|..] == after;
  }

  lemma PlainHead(c: char, rest: string)
    requires c != '<'
    ensures Whole([c] + rest) == Whole(rest) && Undone([c] + rest) == [c] + Undone(rest)
  {
    assert ([c] + rest)[1..] == rest;
  }

  /** A delimiter holds no tag. */
  lemma {:induction false} DelimiterDropped(d: string, rest: string)
    requires forall k :: 0 <= k < |d| ==> d[k] == '*' || d[k] == '`'
    ensures Whole(d + rest) == Whole(rest) && Undone(d + rest) == d + Undone(rest)
  {
    if d == "" {
      assert d + rest == rest;
    } else {
      DelimiterDropped(d[1..], rest);
      PlainHead(d[0], d[1..] + rest);
      assert d == [d[0]] + d[1..];
      Regroup([d[0]], d[1..], rest);
      Regroup([d[0]], d[1..], Undone(rest));
    }
  }

  /** Text with delimiters is undone part by part. */
  lemma DelimitedUndone(before: string, d: string, inner: string, after: string)
    requires d != "" && forall k :: 0 <= k < |d| ==> d[k] == '*' || d[k] == '`'
    requires Whole(before + (d + (inner + (d + after))))
    ensures Whole(before) && Whole(inner) && Whole(after)
    ensures Undone(before + (d + (inner + (d + after)))) == Undone(before) + (d + (Undone(inner) + (d + Undone(after))))
  {
    WholeCut(before, d + (inner + (d + after)));
    DelimiterDropped(d, inner + (d + after));
    WholeCut(inner, d + after);
    DelimiterDropped(d, after);
    UndoneAppend(before, d + (inner + (d + after)));
    UndoneAppend(inner, d + after);
  }

  /** One match can be undone, given that what stands behind it can. */
  ghost predicate UndoesOne(undo: string -> string, whole: string -> bool, rule: Rule,
                            before: string, inner: string, after: string, rest: string) {
    var d := rule.delimiter;
    var plain, marked := before + (d + (inner + (d + after))), before + (rule.open + (inner + (rule.close + rest)));
    whole(plain) ==>
      whole(after) && (undo(rest) == undo(after) && whole(rest) ==> undo(marked) == undo(plain) && whole(marked))
  }

  ghost predicate Undoes(undo: string -> string, whole: string -> bool, rule: Rule, word: char -> bool) {
    && Delimits(rule, word)
    && forall before, inner, after, rest :: UndoesOne(undo, whole, rule, before, inner, after, rest)
  }

  lemma OneMatch(undo: string -> string, whole: string -> bool, rule: Rule, word: char -> bool,
                 before: string, inner: string, after: string, rest: string, plain: string, marked: string)
    requires Undoes(undo, whole, rule, word) && whole(plain)
    requires plain == before + (rule.delimiter + (inner + (rule.delimiter + after)))
    requires marked == before + (rule.open + (inner + (rule.close + rest)))
    ensures whole(after)
    ensures undo(rest) == undo(after) && whole(rest) ==> undo(marked) == undo(plain) && whole(marked)
  {
    assert UndoesOne(undo, whole, rule, before, inner, after, rest);
  }

  /** If a way of undoing undoes one match, it undoes all that a rule did. */
  lemma {:induction false} UndoesAll(
      undo: string -> string, whole: string -> bool, s: string, i: nat, rule: Rule, word: char -> bool)
    requires i <= |s| && whole(s[i..]) && Undoes(undo, whole, rule, word)
    ensures undo(Emphasise(s, i, rule, word)) == undo(s[i..]) && whole(Emphasise(s, i, rule, word))
    decreases |s| - i
  {
    match NextPart(s, i, rule.kind, word)
    case None =>
    case Some((before, inner, behind)) =>
      PartAround(s, i, rule, word, before, inner, behind);
      var rest := Emphasise(s, behind, rule, word);
      OneMatch(undo, whole, rule, word, before, inner, s[behind..], rest, s[i..], Emphasise(s, i, rule, word));
      UndoesAll(undo, whole, s, behind, rule, word);
  }

  lemma OneUndone(rule: Rule, before: string, inner: string, after: string, rest: string)
    requires Undoable(rule)
    ensures UndoesOne(Undone, Whole, rule, before, inner, after, rest)
  {
    var d := rule.delimiter;
    if Whole(before + (d + (inner + (d + after)))) {
      DelimitedUndone(before, d, inner, after);
      if Undone(rest) == Undone(after) && Whole(rest) {
        MarkedUndone(before, rule, inner, rest);
      }
    }
  }

  lemma RuleUndoable(kind: Kind)
    ensures Undoable(RuleOf(kind))
  {
    var rule := RuleOf(kind);
    match kind
    case Strong => TagRead(STRONG, 's', 't'); TagRead(STRONG_END, '/', 's');
    case Em => TagRead(EM, 'e', 'm'); TagRead(EM_END, '/', 'e');
    case Code => TagRead(CODE, 'c', 'o'); TagRead(CODE_END, '/', 'c');
  }

  /** The first three characters tell the tags apart. */
  lemma TagRead(tag: string, second: char, third: char)
    requires tag in {STRONG, STRONG_END, EM, EM_END, CODE, CODE_END}
    requires tag[1] == second && tag[2] == third
    ensures TagOf(tag).Some? && TagOf(tag).value.1 == |tag|
    ensures TagOf(tag).value.0 ==
      if second == 's' || third == 's' then "**" else if second == 'e' || third == 'e' then "*" else "`"
  {
  }

  /** A rule changes nothing that cannot be undone: its tags stand where the delimiters stood. */
  lemma EmphasiseUndone(s: string, kind: Kind, word: char -> bool)
    requires Whole(s)
    ensures Undone(Emphasise(s, 0, RuleOf(kind), word)) == Undone(s) && Whole(Emphasise(s, 0, RuleOf(kind), word))
  {
    RuleUndoable(kind);
    RuleDelimits(kind, word);
    RuleUndoesAll(s, RuleOf(kind), word);
  }

  lemma RuleUndoesAll(s: string, rule: Rule, word: char -> bool)
    requires Whole(s) && Undoable(rule) && Delimits(rule, word)
    ensures Undone(Emphasise(s, 0, rule, word)) == Undone(s) && Whole(Emphasise(s, 0, rule, word))
  {
    forall before, inner, after, rest ensures UndoesOne(Undone, Whole, rule, before, inner, after, rest) {
      OneUndone(rule, before, inner, after, rest);
    }
    assert s[0..] == s;
    UndoesAll(Undone, Whole, s, 0, rule, word);
  }

  /** Emphasis loses nothing: with its tags put back to delimiters, any escaped text is as it was. */
  lemma EmphasisedUndone(s: string, word: char -> bool)
    requires '<' !in s
    ensures Undone(Emphasised(s, word)) == s && Whole(Emphasised(s, word))
  {
    BracketlessWhole(s);
    var strong := Emphasise(s, 0, RuleOf(Strong), word);
    var em := Emphasise(strong, 0, RuleOf(Em), word);
    EmphasiseUndone(s, Strong, word);
    EmphasiseUndone(strong, Em, word);
    EmphasiseUndone(em, Code, word);
  }

  // ---------------------------------------------------------------- line breaks

  /** `replace("\n", "<br/>")`. */
  function BreakLines(s: string): string {
    if s == "" then "" else (if s[0] == '\n' then BR else [s[0]]) + BreakLines(s[1..])
  }

  /** Outside line breaks the text is kept. */
  lemma BreakLinesKeeps(s: string)
    requires |s| >= 2 && s[0] != '\n' && s[1] != '\n'
    ensures |BreakLines(s)| >= 2 && BreakLines(s)[0] == s[0] && BreakLines(s)[1] == s[1]
  {
    var t := s[1..];
    assert BreakLines(t) == [s[1]] + BreakLines(t[1..]);
    assert BreakLines(s) == [s[0]] + BreakLines(t);
  }

  lemma {:induction false} BreakLinesSafe(s: string)
    requires Safe(s)
    ensures Safe(BreakLines(s))
  {
    if s != "" {
      SafeDrop(s, 1);
      BreakLinesSafe(s[1..]);
      if s[0] == '\n' {
        BlockTags();
        SafeTag(BR);
        SafeAppend(BR, BreakLines(s[1..]));
      } else {
        assert TagAt(s, 0);
        if s[0] == '<' {
          BreakLinesKeeps(s[1..]);
        }
        SafeCons(s, BreakLines(s[1..]));
      }
    }
  }

  /** What follows the first two characters of a tag does not matter. */
  lemma SafeCons(s: string, rest: string)
    requires s != "" && TagAt(s, 0) && Safe(rest)
    requires s[0] == '<' ==> |rest| >= 2 && rest[0] == s[1] && rest[1] == s[2]
    ensures Safe([s[0]] + rest)
  {
    var r := [s[0]] + rest;
    assert TagAt(r, 0);
    forall i | 0 < i < |r| ensures TagAt(r, i) {
      assert TagAt(rest, i - 1);
    }
  }

  // ---------------------------------------------------------------- paragraphs

  /** A tag around a safe text. */
  lemma SafeInside(open: string, s: string, close: string)
    requires Safe(open) && Safe(s) && Safe(close)
    ensures Safe(open + s + close)
  {
    SafeAppend(open, s);
    SafeAppend(open + s, close);
  }

  /** A horizontal rule: three or more of one of the three characters. */
  predicate IsRule(s: string) {
    |s| >= 3 && s[0] in {'-', '*', '_'} && forall c :: c in s ==> c == s[0]
  }

  /** The number of leading characters `c`. */
  function Leading(s: string, c: char): (r: nat)
    ensures r <= |s| && (r < |s| ==> s[r] != c)
  {
    if s != "" && s[0] == c then 1 + Leading(s[1..], c) else 0
  }

  /** The text of a heading: one to four hashes, spaces, and the rest of that line only. */
  function Heading(s: string): (r: Option<string>)
    ensures r.Some? ==> forall c :: c in r.value ==> c in s
  {
    var hashes := Leading(s, '#');
    var spaces := Leading(s[hashes..], ' ');
    if 1 <= hashes <= 4 && spaces > 0 then
      var rest := s[hashes..][spaces..];
      match FindChar(rest, '\n', 0)
      case Some(k) => Some(rest[..k])
      case None => Some(rest)
    else None
  }

  /** No row has a bracket. */
  predicate Plain(rows: seq<string>) {
    forall i :: 0 <= i < |rows| ==> '<' !in rows[i]
  }

  /** The stripped lines that are not blank. */
  function TableRows(s: string): (r: seq<string>)
    ensures '<' !in s ==> Plain(r)
  {
    var end := LineEnd(s, 0);
    var row := Strip(s[..end]);
    (if row != "" then [row] else []) + (if end < |s| then TableRows(s[end + 1..]) else [])
  }

  function SplitBars(s: string): (r: seq<string>)
    ensures '<' !in s ==> Plain(r)
  {
    match FindChar(s, '|', 0)
    case Some(k) => [Strip(s[..k])] + SplitBars(s[k + 1..])
    case None => [Strip(s)]
  }

  /** `_bunky`. */
  function Cells(row: string): (r: seq<string>)
    ensures '<' !in row ==> Plain(r)
  {
    SplitBars(StripBy(Strip(row), IsBar))
  }

  predicate IsBar(c: char) {
    c == '|'
  }

  /** `_je_tabulka`: every line is between bars, and the second one is a header separator. */
  predicate IsTable(rows: seq<string>) {
    && |rows| >= 2
    && (forall i :: 0 <= i < |rows| ==> rows[i] != "" && rows[i][0] == '|' && rows[i][|rows[i]| - 1] == '|')
    && |rows[1]| >= 3
    && (forall k :: 0 < k < |rows[1]| - 1 ==> IsSpace(rows[1][k]) || rows[1][k] in {':', '|', '-'})
  }

  function TableCells(cells: seq<string>, open: string, close: string, word: char -> bool): string {
    if cells == [] then ""
    else open + Emphasised(cells[0], word) + close + TableCells(cells[1..], open, close, word)
  }

  function TableBody(rows: seq<string>, word: char -> bool): string {
    if rows == [] then ""
    else TR + TableCells(Cells(rows[0]), TD, TD_END, word) + TR_END + TableBody(rows[1..], word)
  }

  /** `_tabulka_na_html`; the separator row is left out. */
  function TableHtml(rows: seq<string>, word: char -> bool): string
    requires |rows| >= 2
  {
    TABLE + TBODY + TR + TableCells(Cells(rows[0]), TH, TH_END, word) + TR_END + TableBody(rows[2..], word)
    + TBODY_END + TABLE_END
  }

  lemma {:induction false} TableCellsSafe(cells: seq<string>, open: string, close: string, word: char -> bool)
    requires Plain(cells) && Safe(open) && Safe(close)
    ensures Safe(TableCells(cells, open, close, word))
  {
    if cells != [] {
      EmphasisedSafe(cells[0], word);
      SafeInside(open, Emphasised(cells[0], word), close);
      TableCellsSafe(cells[1..], open, close, word);
      SafeAppend(open + Emphasised(cells[0], word) + close, TableCells(cells[1..], open, close, word));
    }
  }

  lemma {:induction false} TableBodySafe(rows: seq<string>, word: char -> bool)
    requires Plain(rows)
    ensures Safe(TableBody(rows, word))
  {
    if rows != [] {
      TableTagsSafe();
      var cells := TableCells(Cells(rows[0]), TD, TD_END, word);
      TableCellsSafe(Cells(rows[0]), TD, TD_END, word);
      SafeInside(TR, cells, TR_END);
      TableBodySafe(rows[1..], word);
      SafeAppend(TR + cells + TR_END, TableBody(rows[1..], word));
    }
  }

  lemma TableTagsSafe()
    ensures Safe(TABLE) && Safe(TABLE_END) && Safe(TBODY) && Safe(TBODY_END)
    ensures Safe(TR) && Safe(TR_END) && Safe(TH) && Safe(TH_END) && Safe(TD) && Safe(TD_END)
  {
    TableTags();
    forall tag | tag in {TABLE, TABLE_END, TBODY, TBODY_END, TR, TR_END, TH, TH_END, TD, TD_END} ensures Safe(tag) {
      SafeTag(tag);
    }
  }

  lemma TableSafe(rows: seq<string>, word: char -> bool)
    requires |rows| >= 2 && Plain(rows)
    ensures Safe(TableHtml(rows, word))
  {
    TableTagsSafe();
    var head, body := TableCells(Cells(rows[0]), TH, TH_END, word), TableBody(rows[2..], word);
    TableCellsSafe(Cells(rows[0]), TH, TH_END, word);
    TableBodySafe(rows[2..], word);
    SafeAppend(TABLE, TBODY);
    SafeAppend(TABLE + TBODY, TR);
    SafeInside(TABLE + TBODY + TR, head, TR_END);
    SafeInside(TABLE + TBODY + TR + head + TR_END, body, TBODY_END);
    SafeAppend(TABLE + TBODY + TR + head + TR_END + body + TBODY_END, TABLE_END);
  }

  /** The HTML of a paragraph that is no code block: a table, a rule, a heading, or text. */
  function ParagraphHtml(s: string, word: char -> bool): string {
    if IsTable(TableRows(s)) then TableHtml(TableRows(s), word)
    else if IsRule(s) then HR
    else
      match Heading(s)
      case Some(title) => H3 + Emphasised(title, word) + H3_END
      case None => P + BreakLines(Emphasised(s, word)) + P_END
  }

  lemma HeadingTagsSafe()
    ensures Safe(H3) && Safe(H3_END)
  {
    HeadingTag();
    SafeTag(H3);
    BlockTags();
    SafeTag(H3_END);
  }

  /** Escaped text renders to a safe paragraph. */
  lemma ParagraphSafe(s: string, word: char -> bool)
    requires '<' !in s
    ensures Safe(ParagraphHtml(s, word))
  {
    if IsTable(TableRows(s)) {
      TableSafe(TableRows(s), word);
    } else if IsRule(s) {
      BlockTags();
      SafeTag(HR);
    } else if Heading(s).Some? {
      EmphasisedSafe(Heading(s).value, word);
      HeadingTagsSafe();
      SafeInside(H3, Emphasised(Heading(s).value, word), H3_END);
    } else {
      EmphasisedSafe(s, word);
      BreakLinesSafe(Emphasised(s, word));
      BlockTags();
      SafeTag(P);
      SafeTag(P_END);
      SafeInside(P, BreakLines(Emphasised(s, word)), P_END);
    }
  }
}
