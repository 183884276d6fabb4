/**
 * The measurement of a ticket: the gate that lets it in, the block that shows it, the parser that reads it back from
 * the page, and the re-measurement before work. What a command does when it is run is a parameter.
 */
module TicketMeasure {
  import opened Prelude
  import opened Text
  import opened TicketPage
  import opened TicketRecheck

  const OUTPUT_LIMIT := 4000

  datatype Measurement = Measurement(command: string, output: string)

  /** What running a command gives: stdout and stderr together, unless it does not end or cannot start. */
  datatype Run = TimedOut | NotStarted | Exited(code: int, output: string)

  datatype Refusal = NoCommand | Sentence | NeverEnded | OsError | Failed(code: int) | Silent

  // ---------------------------------------------------------------- the gate

  predicate Stripped(s: string) {
    s != "" && !IsSpace(s[0]) && !IsSpace(s[|s| - 1])
  }

  /** What the gate lets in: a command and an output, both stripped and not empty. */
  predicate Passed(m: Measurement) {
    Stripped(m.command) && Stripped(m.output)
  }

  /** `vykonaj_meranie`; `sentence` recognises prose about a measurement. */
  function Gate(command: string, sentence: string -> bool, run: Run): (r: Result<Measurement, Refusal>)
    ensures r.Ok? <==>
      Strip(command) != "" && !sentence(command) && run.Exited? && run.code == 0 && Strip(run.output) != ""
    ensures r.Ok? ==> r.value == Measurement(Strip(command), Strip(run.output)) && Passed(r.value)
    ensures r == Err(NoCommand) <==> Strip(command) == ""
    ensures r == Err(Sentence) <==> Strip(command) != "" && sentence(command)
    ensures Strip(command) != "" && !sentence(command) ==>
      && (r == Err(NeverEnded) <==> run.TimedOut?) && (r == Err(OsError) <==> run.NotStarted?)
      && (run.Exited? && run.code != 0 ==> r == Err(Failed(run.code)))
      && (r == Err(Silent) <==> run.Exited? && run.code == 0 && Strip(run.output) == "")
  {
    if Strip(command) == "" then Err(NoCommand)
    else if sentence(command) then Err(Sentence)
    else
      match run
      case TimedOut => Err(NeverEnded)
      case NotStarted => Err(OsError)
      case Exited(code, output) =>
        if code != 0 then Err(Failed(code))
        else if Strip(output) == "" then Err(Silent)
        else Ok(Measurement(Strip(command), Strip(output)))
  }

  // ---------------------------------------------------------------- the block on the page

  function Cut(output: string): string {
    if |output| <= OUTPUT_LIMIT then output else output[..OUTPUT_LIMIT]
  }

  /** The text of the block, before escaping. */
  function Record(m: Measurement): string {
    "$ " + m.command + "\n" + Cut(m.output)
  }

  function EscapedRecord(m: Measurement): string {
    "$ " + Escape(m.command) + "\n" + Escape(Cut(m.output))
  }

  const NOTE_1 := "Príkaz vyššie spustil nástroj; "
  const NOTE_2 := "výstup je jeho skutočný "
  const NOTE_3 := "výsledok. Pred prácou na "
  const NOTE_4 := "tikete ho pusti znovu ("
  const NOTE_5 := "icc_ticket.py recheck &lt;N&gt;)."

  function Note(): string {
    NOTE_1 + NOTE_2 + NOTE_3 + NOTE_4 + NOTE_5
  }

  function Title(): string {
    H3 + "Ako som to zmeral" + H3_END
  }

  function Closing(): string {
    P + EM + Note() + EM_END + P_END
  }

  /** `_html_meranie`. */
  function MeasurementHtml(m: Measurement): string {
    Title() + (Shown(CodePiece(EscapedRecord(m))) + Closing())
  }

  /** The description of a new ticket. */
  function Document(text: string, m: Measurement, word: char -> bool): string {
    Html(text, word) + MeasurementHtml(m)
  }

  // ---------------------------------------------------------------- the parser

  /** `re.sub(r"<[^>]+>", "\n", ...)`. */
  function StripTags(s: string): string {
    if s == "" then ""
    else
      var close := FindChar(s, '>', 1);
      if s[0] == '<' && close.Some? && close.value > 1 then "\n" + StripTags(s[close.value + 1..])
      else [s[0]] + StripTags(s[1..])
  }

  /** The last block that shows a prompt. */
  function LastMeasuring(blocks: seq<string>): Option<string> {
    if blocks == [] then None
    else
      var n := |blocks| - 1;
      if FindSub(Unescape(blocks[n]), "$ ", 0).Some? then Some(blocks[n]) else LastMeasuring(blocks[..n])
  }

  const FENCE := "\n```"

  /** A command behind a prompt at `i`, and its output up to a line that starts with a fence. */
  function FencedAt(s: string, i: nat): Option<(string, string)>
    requires i <= |s|
  {
    match FindChar(s, '\n', i + 3)
    case None => None
    case Some(p) =>
      match FindSub(s, FENCE, p + 1)
      case None => None
      case Some(q) => if Starts(s[i..], "$ ") then Some((s[i + 2..p], s[p + 1..q])) else None
  }

  /** A command behind a prompt at `i`, and everything behind it. */
  function OpenAt(s: string, i: nat): Option<(string, string)>
    requires i <= |s|
  {
    match FindChar(s, '\n', i + 3)
    case None => None
    case Some(p) => if Starts(s[i..], "$ ") && p + 1 < |s| then Some((s[i + 2..p], s[p + 1..])) else None
  }

  function FirstFenced(s: string, i: nat): Option<(string, string)>
    requires i <= |s|
    decreases |s| - i
  {
    match FencedAt(s, i)
    case Some(found) => Some(found)
    case None => if i == |s| then None else FirstFenced(s, i + 1)
  }

  function FirstOpen(s: string, i: nat): Option<(string, string)>
    requires i <= |s|
    decreases |s| - i
  {
    match OpenAt(s, i)
    case Some(found) => Some(found)
    case None => if i == |s| then None else FirstOpen(s, i + 1)
  }

  /** The fenced form if there is one, else the open form. */
  function Search(s: string): Option<(string, string)> {
    match FirstFenced(s, 0)
    case Some(found) => Some(found)
    case None => FirstOpen(s, 0)
  }

  /** The text a page is searched in: its last measuring block, or else the whole page. */
  function TextOf(html: string): string {
    var measuring := LastMeasuring(FindBlocks(html));
    Unescape(StripTags(if measuring.Some? then measuring.value else html))
  }

  /** `_rozbor_merania`. */
  function Parse(html: string): Option<(string, string)> {
    match Search(TextOf(html))
    case Some((command, output)) => Some((Strip(command), Strip(output)))
    case None => None
  }

  // ---------------------------------------------------------------- which text is searched

  /** The block shows a prompt somewhere. */
  predicate Prompts(block: string) {
    exists i :: 0 <= i < |Unescape(block)| && Starts(Unescape(block)[i..], "$ ")
  }

  lemma {:induction false} FoundIff(s: string, literal: string, i: nat)
    requires literal != ""
    ensures FindSub(s, literal, i).Some? <==> exists k :: i <= k < |s| && Starts(s[k..], literal)
    decreases |s| - i
  {
    if i < |s| && !Starts(s[i..], literal) {
      FoundIff(s, literal, i + 1);
    }
  }

  lemma PromptFound(block: string)
    ensures FindSub(Unescape(block), "$ ", 0).Some? <==> Prompts(block)
  {
    FoundIff(Unescape(block), "$ ", 0);
  }

  /** Blocks without a prompt are passed over, from the last one on. */
  lemma {:induction false} PromptlessPassed(before: seq<string>, after: seq<string>)
    requires forall i :: 0 <= i < |after| ==> !Prompts(after[i])
    ensures LastMeasuring(before + after) == LastMeasuring(before)
    decreases |after|
  {
    if after == [] {
      assert before + after == before;
    } else {
      var n := |after| - 1;
      PromptFound(after[n]);
      PromptlessPassed(before, after[..n]);
      assert (before + after)[..|before + after| - 1] == before + after[..n];
    }
  }

  /** The last block that shows a prompt is searched, with a line feed for every tag; no other block matters. */
  lemma LastPromptSearched(html: string, before: seq<string>, block: string, after: seq<string>)
    requires FindBlocks(html) == before + [block] + after
    requires Prompts(block) && forall i :: 0 <= i < |after| ==> !Prompts(after[i])
    ensures TextOf(html) == Unescape(StripTags(block))
  {
    PromptlessPassed(before + [block], after);
    PromptFound(block);
    assert (before + [block])[..|before|] == before;
  }

  /** Without such a block the whole page is searched. */
  lemma PageSearched(html: string)
    requires forall i :: 0 <= i < |FindBlocks(html)| ==> !Prompts(FindBlocks(html)[i])
    ensures TextOf(html) == Unescape(StripTags(html))
  {
    PromptlessPassed([], FindBlocks(html));
    assert [] + FindBlocks(html) == FindBlocks(html);
  }

  /** A tag becomes one line feed, and the text in front of it stays. */
  lemma {:induction false} TagBreaks(before: string, inner: string, rest: string)
    requires '<' !in before && inner != "" && '>' !in inner
    ensures StripTags(before + ("<" + inner + ">" + rest)) == before + ("\n" + StripTags(rest))
  {
    var s := "<" + inner + ">" + rest;
    if before == "" {
      assert before + s == s && s[|inner| + 1] == '>' && s[|inner| + 2..] == rest;
      assert forall i :: 1 <= i <= |inner| ==> s[i] == inner[i - 1];
      assert FindChar(s, '>', 1) == Some(|inner| + 1);
    } else {
      TagBreaks(before[1..], inner, rest);
      assert (before + s)[0] == before[0] && (before + s)[1..] == before[1..] + s;
      assert before + ("\n" + StripTags(rest)) == [before[0]] + (before[1..] + ("\n" + StripTags(rest)));
    }
  }

  /** A bracket that no tag begins with stays: nothing, or nothing but a bracket, closes it. */
  lemma LoneBracket(rest: string)
    requires '>' !in rest || rest[0] == '>'
    ensures StripTags("<" + rest) == "<" + StripTags(rest)
  {
    var s := "<" + rest;
    assert s[1..] == rest;
    assert forall i :: 0 <= i < |rest| ==> s[i + 1] == rest[i];
  }

  // ---------------------------------------------------------------- the block found again

  lemma TitleSafe()
    ensures Safe(Title())
  {
    HeadingTagsSafe();
    assert Safe("Ako som to zmeral");
    SafeInside(H3, "Ako som to zmeral", H3_END);
  }

  lemma ClosingSafe()
    ensures Safe(Closing())
  {
    BlockTags();
    SafeTag(P);
    SafeTag(P_END);
    InlineTags();
    SafeTag(EM);
    SafeTag(EM_END);
    NoteSafe();
    SafeInParagraph(P, EM, Note(), EM_END, P_END);
  }

  lemma SafeInParagraph(a: string, b: string, c: string, d: string, e: string)
    requires Safe(a) && Safe(b) && Safe(c) && Safe(d) && Safe(e)
    ensures Safe(a + b + c + d + e)
  {
    SafeAppend(a, b);
    SafeInside(a + b, c, d);
    SafeAppend(a + b + c + d, e);
  }

  lemma NoteSafe()
    ensures Safe(Note())
  {
    NoteStart();
    NoteEnd();
    SafeInParagraph(NOTE_1, NOTE_2, NOTE_3, NOTE_4, NOTE_5);
  }

  lemma NoteStart()
    ensures Safe(NOTE_1) && Safe(NOTE_2)
    ensures '<' !in NOTE_1 && '<' !in NOTE_2
  {
    assert '<' !in NOTE_1;
    assert '<' !in NOTE_2;
  }

  lemma NoteEnd()
    ensures Safe(NOTE_3) && Safe(NOTE_4) && Safe(NOTE_5)
    ensures '<' !in NOTE_3 && '<' !in NOTE_4 && '<' !in NOTE_5
  {
    assert '<' !in NOTE_3;
    assert '<' !in NOTE_4;
    assert '<' !in NOTE_5;
  }

  lemma EscapedRecordText(m: Measurement)
    ensures '<' !in EscapedRecord(m) && Unescape(EscapedRecord(m)) == Record(m)
  {
    var command, output := m.command, Cut(m.output);
    EscapeAppend("$ ", command);
    EscapeAppend("$ " + command, "\n");
    EscapeAppend("$ " + command + "\n", output);
    assert Escape("$ ") == "$ " && Escape("\n") == "\n";
    UnescapeEscape(Record(m));
  }

  lemma {:induction false} NoTags(s: string)
    requires '<' !in s
    ensures StripTags(s) == s
  {
    if s != "" {
      NoTags(s[1..]);
    }
  }

  lemma SafeSkips(text: string)
    requires Safe(text)
    ensures Skips(FindBlocks, text, [])
  {
    var find := FindBlocks;
    forall rest ensures find(text + rest) == [] + find(rest) {
      SafeSkipped(text, rest);
    }
  }

  lemma PageSkips(text: string, word: char -> bool)
    ensures Skips(FindBlocks, Html(text, word), Blocks(Segments(Escape(text))))
  {
    var find, page, own := FindBlocks, Html(text, word), Blocks(Segments(Escape(text)));
    forall rest ensures find(page + rest) == own + find(rest) {
      PageFound(text, word, rest);
    }
  }

  lemma SkipFour(find: string -> seq<string>, page: string, title: string, block: string, closing: string,
                 own: seq<string>, content: string)
    requires Skips(find, page, own) && Skips(find, title, [])
    requires Skips(find, block, [content]) && Skips(find, closing, [])
    requires find("") == []
    ensures find(page + (title + (block + closing))) == own + [content]
  {
    assert find(page + (title + (block + closing))) == own + find(title + (block + closing));
    assert find(title + (block + closing)) == [] + find(block + closing);
    assert find(block + closing) == [content] + find(closing);
    assert closing + "" == closing && find(closing + "") == [] + find("");
  }

  /** Whatever the description holds, the last block found is the measurement. */
  lemma MeasurementFound(text: string, m: Measurement, word: char -> bool)
    ensures FindBlocks(Document(text, m, word)) == Blocks(Segments(Escape(text))) + [EscapedRecord(m)]
  {
    PageSkips(text, word);
    TitleSafe();
    SafeSkips(Title());
    EscapedRecordText(m);
    PieceFound(CodePiece(EscapedRecord(m)));
    ClosingSafe();
    SafeSkips(Closing());
    SkipFour(FindBlocks, Html(text, word), Title(), Shown(CodePiece(EscapedRecord(m))), Closing(),
             Blocks(Segments(Escape(text))), EscapedRecord(m));
  }

  /** A last block that shows a prompt is the one taken. */
  lemma LastTaken(blocks: seq<string>, last: string)
    requires blocks != [] && blocks[|blocks| - 1] == last && Starts(Unescape(last), "$ ")
    ensures LastMeasuring(blocks) == Some(last)
  {
    assert Unescape(last)[0..] == Unescape(last);
  }

  /** A page whose last block is the record of a measurement. */
  predicate Carries(html: string, m: Measurement) {
    var blocks := FindBlocks(html);
    blocks != [] && blocks[|blocks| - 1] == EscapedRecord(m)
  }

  lemma DocumentCarries(text: string, m: Measurement, word: char -> bool)
    ensures Carries(Document(text, m, word), m)
  {
    MeasurementFound(text, m, word);
  }

  lemma RecordPrompts(m: Measurement)
    ensures Starts(Unescape(EscapedRecord(m)), "$ ")
  {
    EscapedRecordText(m);
    assert Record(m)[0] == '$' && Record(m)[1] == ' ';
  }

  lemma RecordText(m: Measurement)
    ensures Unescape(StripTags(EscapedRecord(m))) == Record(m)
  {
    EscapedRecordText(m);
    NoTags(EscapedRecord(m));
  }

  /** On such a page the recorded text is searched, and nothing else. */
  lemma RecordTaken(html: string, m: Measurement)
    requires Carries(html, m)
    ensures TextOf(html) == Record(m)
  {
    RecordPrompts(m);
    LastTaken(FindBlocks(html), EscapedRecord(m));
    RecordText(m);
  }

  // ---------------------------------------------------------------- what the search finds

  /** A line of the output, after its first, starts with a fence. */
  predicate HasFence(s: string) {
    FindSub(s, FENCE, 0).Some?
  }

  function UpToFence(s: string): string {
    match FindSub(s, FENCE, 0)
    case Some(k) => s[..k]
    case None => s
  }

  /** What a ticket stores of an output. */
  function Stored(output: string): string {
    Strip(UpToFence(Cut(output)))
  }

  lemma {:induction false} NoneLater(s: string, literal: string, i: nat, j: nat)
    requires literal != "" && i <= j && FindSub(s, literal, i) == None
    ensures FindSub(s, literal, j) == None
    decreases j - i
  {
    if i < j && i < |s| {
      NoneLater(s, literal, i + 1, j);
    }
  }

  lemma NoFencedAt(s: string, p: nat, i: nat)
    requires i <= |s| && FindChar(s, '\n', 3) == Some(p) && FindSub(s, FENCE, p + 1) == None
    ensures FencedAt(s, i) == None
  {
    var p' := FindChar(s, '\n', i + 3);
    if p'.Some? {
      NoneLater(s, FENCE, p + 1, p'.value + 1);
    }
  }

  /** Without a fence behind the first line there is no fenced form, wherever one starts looking. */
  lemma {:induction false} NoFencedForm(s: string, p: nat, i: nat)
    requires i <= |s| && FindChar(s, '\n', 3) == Some(p) && FindSub(s, FENCE, p + 1) == None
    ensures FirstFenced(s, i) == None
    decreases |s| - i
  {
    NoFencedAt(s, p, i);
    if i < |s| {
      NoFencedForm(s, p, i + 1);
    }
  }

  lemma FencedFound(s: string, p: nat, q: nat)
    requires Starts(s[0..], "$ ") && FindChar(s, '\n', 3) == Some(p) && FindSub(s, FENCE, p + 1) == Some(q)
    ensures Search(s) == Some((s[2..p], s[p + 1..q]))
  {
    assert FencedAt(s, 0) == Some((s[2..p], s[p + 1..q]));
  }

  lemma OpenFound(s: string, p: nat)
    requires Starts(s[0..], "$ ") && FindChar(s, '\n', 3) == Some(p) && p + 1 < |s| && FirstFenced(s, 0) == None
    ensures Search(s) == Some((s[2..p], s[p + 1..]))
  {
    assert OpenAt(s, 0) == Some((s[2..p], s[p + 1..]));
  }

  /** Where the output has its fence. */
  lemma FenceShifted(s: string, p: nat)
    requires p < |s|
    ensures FindSub(s, FENCE, p + 1) == FoundLater(FindSub(s[p + 1..], FENCE, 0), p + 1)
  {
    FoundInSuffix(s, FENCE, p + 1);
  }

  /** Behind the first line, the output ends where its own fence is. */
  lemma FenceBehind(s: string, p: nat, q: Option<nat>)
    requires p < |s| && q == FindSub(s, FENCE, p + 1)
    ensures q.None? ==> UpToFence(s[p + 1..]) == s[p + 1..]
    ensures q.Some? ==> p < q.value <= |s| && UpToFence(s[p + 1..]) == s[p + 1..q.value]
  {
    FenceShifted(s, p);
    if q.Some? {
      assert s[p + 1..q.value] == s[p + 1..][..q.value - (p + 1)];
    }
  }

  /** A prompt, a command that is not empty, and everything behind its first line. */
  lemma SearchFound(s: string, p: nat)
    requires Starts(s[0..], "$ ") && FindChar(s, '\n', 3) == Some(p) && p + 1 < |s|
    ensures Search(s) == Some((s[2..p], UpToFence(s[p + 1..])))
  {
    var q := FindSub(s, FENCE, p + 1);
    FenceBehind(s, p, q);
    if q.Some? {
      FencedFound(s, p, q.value);
    } else {
      NoFencedForm(s, p, 0);
      OpenFound(s, p);
    }
  }

  /** The first line break of a record behind the first character of the command. */
  lemma RecordBreak(m: Measurement) returns (p: nat)
    requires Passed(m)
    ensures FindChar(Record(m), '\n', 3) == Some(p) && 3 <= p <= |m.command| + 2
    ensures p == |m.command| + 2 <==> '\n' !in m.command
    ensures Record(m)[2..p] == m.command[..p - 2]
  {
    var s, n := Record(m), |m.command|;
    assert s[n + 2] == '\n' && forall k :: 0 <= k < n ==> s[2 + k] == m.command[k];
    var found := FindChar(s, '\n', 3);
    assert m.command[0] != '\n';
    p := found.value;
    if '\n' in m.command {
      var k :| 0 <= k < n && m.command[k] == '\n';
      assert s[2 + k] == '\n';
    }
  }

  lemma OneLineFound(m: Measurement)
    requires Passed(m) && '\n' !in m.command
    ensures Search(Record(m)) == Some((m.command, UpToFence(Cut(m.output))))
  {
    var p := RecordBreak(m);
    assert Record(m)[p + 1..] == Cut(m.output) && Record(m)[0..] == Record(m);
    assert m.command[..p - 2] == m.command;
    SearchFound(Record(m), p);
  }

  lemma OneLineRead(html: string, m: Measurement)
    requires Carries(html, m) && Passed(m) && '\n' !in m.command
    ensures Parse(html) == Some((m.command, Stored(m.output)))
  {
    RecordTaken(html, m);
    OneLineFound(m);
    StripStripped(m.command);
  }

  lemma MultiLineRead(html: string, m: Measurement)
    requires Carries(html, m) && Passed(m) && '\n' in m.command
    ensures Parse(html).Some? && |Parse(html).value.0| < |m.command|
  {
    var p := RecordBreak(m);
    RecordTaken(html, m);
    assert Record(m)[0..] == Record(m);
    SearchFound(Record(m), p);
  }

  /** What the parser gives back for a one-line command, whatever the description and the output. */
  lemma RoundTrip(text: string, m: Measurement, word: char -> bool)
    requires Passed(m) && '\n' !in m.command
    ensures Parse(Document(text, m, word)) == Some((m.command, Stored(m.output)))
  {
    DocumentCarries(text, m, word);
    OneLineRead(Document(text, m, word), m);
  }

  /** Of a command of several lines only the first comes back. */
  lemma MultiLineCut(text: string, m: Measurement, word: char -> bool)
    requires Passed(m) && '\n' in m.command
    ensures Parse(Document(text, m, word)).Some? && |Parse(Document(text, m, word)).value.0| < |m.command|
  {
    DocumentCarries(text, m, word);
    MultiLineRead(Document(text, m, word), m);
  }

  lemma StoredWhole(output: string)
    requires Stripped(output)
    ensures Stored(output) == output <==> |output| <= OUTPUT_LIMIT && !HasFence(output)
  {
    StripStripped(output);
  }

  /**
   * Exactly when the original command and output come back: the command is one line, and the output is at most 4000
   * characters and has no later line that starts with a fence.
   */
  lemma RoundTripIff(text: string, m: Measurement, word: char -> bool)
    requires Passed(m)
    ensures Parse(Document(text, m, word)) == Some((m.command, m.output))
      <==> '\n' !in m.command && |m.output| <= OUTPUT_LIMIT && !HasFence(m.output)
  {
    DocumentCarries(text, m, word);
    if '\n' in m.command {
      MultiLineRead(Document(text, m, word), m);
    } else {
      OneLineRead(Document(text, m, word), m);
      StoredWhole(m.output);
    }
  }

  // ---------------------------------------------------------------- re-measuring

  /** `porovnaj_meranie`: has the world changed? A failed re-measurement is never taken for agreement. */
  function Compare(run: Run, stored: string): (r: Option<bool>)
    ensures r.None? <==> !(run.Exited? && run.code == 0)
    ensures r.Some? ==> (r.value <==> Strip(run.output) != Strip(stored))
  {
    match run
    case TimedOut => None
    case NotStarted => None
    case Exited(code, output) => if code != 0 then None else Some(Strip(output) != Strip(stored))
  }

  /** Re-running with the output that was measured compares equal exactly when it was stored whole. */
  lemma SameOutput(run: Run, output: string)
    requires run.Exited? && run.code == 0 && output == Strip(run.output) && Stripped(output)
    ensures Compare(run, Stored(output)) == Some(false) <==> |output| <= OUTPUT_LIMIT && !HasFence(output)
  {
    StoredWhole(output);
    StripTwice(UpToFence(Cut(output)));
  }

  /** The command run again is the one measured, and the answer is "unchanged" exactly when all output was stored. */
  predicate Rechecks(m: Measurement, run: Run, read: Option<(string, string)>) {
    && read.Some? && read.value.0 == m.command
    && (Compare(run, read.value.1) == Some(false) <==> |m.output| <= OUTPUT_LIMIT && !HasFence(m.output))
  }

  /**
   * A ticket passes the gate, is rendered, and is read back; its command, of one line, is run again and ends with the
   * same result.
   */
  lemma NoFalseAlarm(
      text: string, command: string, sentence: string -> bool, run: Run, word: char -> bool, m: Measurement)
    requires Gate(command, sentence, run) == Ok(m)
    ensures '\n' !in m.command ==> Rechecks(m, run, Parse(Document(text, m, word)))
  {
    if '\n' !in m.command {
      RoundTrip(text, m, word);
      SameOutput(run, m.output);
    }
  }
}
