/**
 * A page read back. Every tag is read as the markdown it stands for: emphasis tags as their delimiters, a line break
 * as a line feed, a heading as its hash, a cell as the bar in front of it. Read this way, what `_html` writes for a
 * description is its paragraphs again, in order: rendering loses nothing but what stands below a heading's line, the
 * separator of a table, and the length and character of a horizontal rule.
 */
module TicketRead {
  import opened Prelude
  import opened Text
  import opened TicketPage
  import opened TicketRecheck
  import TicketMeasure

  // ---------------------------------------------------------------- the reader

  datatype Tag =
    | StrongOpen | StrongClose | EmOpen | EmClose | CodeOpen | CodeClose | POpen | PClose | Break | Ruler
    | TableOpen | TableClose | TbodyOpen | TbodyClose | TrOpen | TrClose | ThOpen | ThClose | TdOpen | TdClose
    | H3Open | H3Close | PreOpen | PreClose

  function TextOf(t: Tag): string {
    match t
    case StrongOpen => "<strong>"
    case StrongClose => "</strong>"
    case EmOpen => "<em>"
    case EmClose => "</em>"
    case CodeOpen => "<code>"
    case CodeClose => "</code>"
    case POpen => "<p>"
    case PClose => "</p>"
    case Break => "<br/>"
    case Ruler => "<hr/>"
    case TableOpen => "<table>"
    case TableClose => "</table>"
    case TbodyOpen => "<tbody>"
    case TbodyClose => "</tbody>"
    case TrOpen => "<tr>"
    case TrClose => "</tr>"
    case ThOpen => "<th>"
    case ThClose => "</th>"
    case TdOpen => "<td>"
    case TdClose => "</td>"
    case H3Open => "<h3" + " class=\"editor-heading-block\"" + ">"
    case H3Close => "</h3>"
    case PreOpen => "<pre>"
    case PreClose => "</pre>"
  }

  /** The markdown that a tag stands for; a header cell is told apart, and so is the end of a block. */
  function Meaning(t: Tag): string {
    match t
    case StrongOpen => "**"
    case StrongClose => "**"
    case EmOpen => "*"
    case EmClose => "*"
    case CodeOpen => "`"
    case CodeClose => "`"
    case PClose => "\n\n"
    case Break => "\n"
    case Ruler => "---\n\n"
    case TableClose => "\n"
    case TrClose => "|\n"
    case ThOpen => "^"
    case TdOpen => "|"
    case H3Open => "# "
    case H3Close => "\n\n"
    case PreOpen => "``"
    case PreClose => "``\n\n"
    case _ => ""
  }

  function At(s: string, i: nat): char {
    if i < |s| then s[i] else '\0'
  }

  /** The only tag that a text with these first characters can start with. */
  function Which(s: string): Tag {
    if At(s, 1) == '/' then
      match At(s, 2)
      case 's' => StrongClose
      case 'e' => EmClose
      case 'c' => CodeClose
      case 'p' => if At(s, 3) == '>' then PClose else PreClose
      case 'h' => H3Close
      case _ =>
        match At(s, 3)
        case 'a' => TableClose
        case 'b' => TbodyClose
        case 'r' => TrClose
        case 'h' => ThClose
        case _ => TdClose
    else
      match At(s, 1)
      case 's' => StrongOpen
      case 'e' => EmOpen
      case 'c' => CodeOpen
      case 'p' => if At(s, 2) == '>' then POpen else PreOpen
      case 'b' => Break
      case 'h' => if At(s, 2) == 'r' then Ruler else H3Open
      case _ =>
        match At(s, 2)
        case 'a' => TableOpen
        case 'b' => TbodyOpen
        case 'r' => TrOpen
        case 'h' => ThOpen
        case _ => TdOpen
  }

  /** The tag that a text starts with. */
  function TagAhead(s: string): (r: Option<Tag>)
    ensures r.Some? ==> 0 < |TextOf(r.value)| <= |s|
  {
    if Starts(s, TextOf(Which(s))) then Some(Which(s)) else None
  }

  function Read(s: string): string {
    if s == "" then ""
    else
      match TagAhead(s)
      case Some(t) => Meaning(t) + Read(s[|TextOf(t)|..])
      case None => [s[0]] + Read(s[1..])
  }

  lemma TagKnown(t: Tag)
    ensures |TextOf(t)| >= 3 && TextOf(t)[0] == '<'
    ensures forall s :: Starts(s, TextOf(t)) ==> Which(s) == t
  {
    forall s | Starts(s, TextOf(t)) ensures Which(s) == t {
      FirstThree(s, TextOf(t));
      WhichOf(t, s);
    }
  }

  lemma FirstThree(s: string, tag: string)
    requires Starts(s, tag) && |tag| >= 3
    ensures At(s, 1) == tag[1] && At(s, 2) == tag[2] && (|tag| >= 4 ==> At(s, 3) == tag[3])
  {
  }

  lemma WhichOf(t: Tag, s: string)
    requires |TextOf(t)| >= 3
    requires At(s, 1) == TextOf(t)[1] && At(s, 2) == TextOf(t)[2] && (|TextOf(t)| >= 4 ==> At(s, 3) == TextOf(t)[3])
    ensures Which(s) == t
  {
  }

  lemma StartsItself(tag: string, rest: string)
    ensures Starts(tag + rest, tag) && (tag + rest)[|tag|..] == rest
  {
  }

  lemma ReadTag(t: Tag, rest: string)
    ensures Read(TextOf(t) + rest) == Meaning(t) + Read(rest)
  {
    TagKnown(t);
    StartsItself(TextOf(t), rest);
    assert Which(TextOf(t) + rest) == t;
  }

  lemma ReadChar(c: char, rest: string)
    requires c != '<'
    ensures Read([c] + rest) == [c] + Read(rest)
  {
    var s := [c] + rest;
    TagKnown(Which(s));
    assert s[0] == c && s[1..] == rest;
  }

  predicate ReadsChar(read: string -> string, c: char, rest: string) {
    c != '<' ==> read([c] + rest) == [c] + read(rest)
  }

  predicate ReadsTag(read: string -> string, t: Tag, rest: string) {
    read(TextOf(t) + rest) == Meaning(t) + read(rest)
  }

  /** Tags are read as what they mean, everything else as it is. */
  ghost predicate Reader(read: string -> string) {
    && read("") == ""
    && (forall c, rest :: ReadsChar(read, c, rest))
    && (forall t, rest :: ReadsTag(read, t, rest))
  }

  lemma ReadIsReader()
    ensures Reader(Read)
  {
    var read := Read;
    forall c, rest ensures ReadsChar(read, c, rest) {
      if c != '<' {
        ReadChar(c, rest);
      }
    }
    forall t, rest ensures ReadsTag(read, t, rest) {
      ReadTag(t, rest);
    }
  }

  lemma TagFirst(read: string -> string, t: Tag, tag: string, rest: string)
    requires Reader(read) && tag == TextOf(t)
    ensures read(tag + rest) == Meaning(t) + read(rest)
  {
    assert ReadsTag(read, t, rest);
  }

  lemma CharFirst(read: string -> string, c: char, rest: string)
    requires Reader(read) && c != '<'
    ensures read([c] + rest) == [c] + read(rest)
  {
    assert ReadsChar(read, c, rest);
  }

  lemma {:induction false} PlainFirst(read: string -> string, s: string, rest: string)
    requires Reader(read) && '<' !in s
    ensures read(s + rest) == s + read(rest)
  {
    if s == "" {
      assert s + rest == rest;
    } else {
      PlainFirst(read, s[1..], rest);
      CharFirst(read, s[0], s[1..] + rest);
      assert s == [s[0]] + s[1..];
      Regroup([s[0]], s[1..], rest);
      Regroup([s[0]], s[1..], read(rest));
    }
  }

  // ---------------------------------------------------------------- emphasis and line breaks

  /** The rule's tag at the start of a text is one of the reader's, and means its delimiter. */
  lemma EmphasisTag(s: string) returns (t: Tag)
    requires TagOf(s).Some?
    ensures TagOf(s).value == (Meaning(t), |TextOf(t)|) && Starts(s, TextOf(t)) && '\n' !in TextOf(t)
  {
    if Starts(s, STRONG) {
      t := StrongOpen;
    } else if Starts(s, STRONG_END) {
      t := StrongClose;
    } else if Starts(s, EM) {
      t := EmOpen;
    } else if Starts(s, EM_END) {
      t := EmClose;
    } else if Starts(s, CODE) {
      t := CodeOpen;
    } else {
      t := CodeClose;
    }
  }

  lemma SplitTag(s: string, tag: string)
    requires Starts(s, tag)
    ensures s == tag + s[|tag|..]
  {
  }

  lemma WholeTag(s: string, t: Tag)
    requires TagOf(s) == Some((Meaning(t), |TextOf(t)|)) && Whole(s)
    ensures |TextOf(t)| <= |s| && Whole(s[|TextOf(t)|..]) && Undone(s) == Meaning(t) + Undone(s[|TextOf(t)|..])
  {
  }

  lemma WholeChar(s: string)
    requires s != "" && TagOf(s) == None && Whole(s)
    ensures s[0] != '<' && Whole(s[1..]) && Undone(s) == [s[0]] + Undone(s[1..])
  {
  }

  /** Emphasised text is read as the text with its delimiters. */
  lemma {:induction false} WholeFirst(read: string -> string, s: string, rest: string)
    requires Reader(read) && Whole(s)
    ensures read(s + rest) == Undone(s) + read(rest)
    decreases |s|
  {
    if s == "" {
      assert s + rest == rest;
    } else if TagOf(s).Some? {
      var t := EmphasisTag(s);
      var tag := TextOf(t);
      SplitTag(s, tag);
      WholeTag(s, t);
      WholeFirst(read, s[|tag|..], rest);
      TagFirst(read, t, tag, s[|tag|..] + rest);
      Regroup(tag, s[|tag|..], rest);
      Regroup(Meaning(t), Undone(s[|tag|..]), read(rest));
    } else {
      WholeChar(s);
      WholeFirst(read, s[1..], rest);
      CharFirst(read, s[0], s[1..] + rest);
      assert s == [s[0]] + s[1..];
      Regroup([s[0]], s[1..], rest);
      Regroup([s[0]], Undone(s[1..]), read(rest));
    }
  }

  lemma {:induction false} BreakLinesPasses(front: string, rest: string)
    requires '\n' !in front
    ensures BreakLines(front + rest) == front + BreakLines(rest)
  {
    if front == "" {
      assert front + rest == rest;
    } else {
      BreakLinesPasses(front[1..], rest);
      assert (front + rest)[1..] == front[1..] + rest && front == [front[0]] + front[1..];
      Regroup([front[0]], front[1..], BreakLines(rest));
    }
  }

  /** So it is with its line breaks replaced. */
  lemma {:induction false} BrokenFirst(read: string -> string, s: string, rest: string)
    requires Reader(read) && Whole(s)
    ensures read(BreakLines(s) + rest) == Undone(s) + read(rest)
    decreases |s|
  {
    if s == "" {
      assert "" + rest == rest;
    } else if TagOf(s).Some? {
      var t := EmphasisTag(s);
      var tag := TextOf(t);
      SplitTag(s, tag);
      WholeTag(s, t);
      BrokenFirst(read, s[|tag|..], rest);
      BreakLinesPasses(tag, s[|tag|..]);
      TagFirst(read, t, tag, BreakLines(s[|tag|..]) + rest);
      Regroup(tag, BreakLines(s[|tag|..]), rest);
      Regroup(Meaning(t), Undone(s[|tag|..]), read(rest));
    } else {
      WholeChar(s);
      BrokenFirst(read, s[1..], rest);
      BrokenChar(read, s[0], BreakLines(s[1..]), rest);
      assert BreakLines(s) == (if s[0] == '\n' then BR else [s[0]]) + BreakLines(s[1..]);
      Regroup([s[0]], Undone(s[1..]), read(rest));
    }
  }

  lemma BrokenChar(read: string -> string, c: char, more: string, rest: string)
    requires Reader(read) && c != '<'
    ensures read((if c == '\n' then BR else [c]) + more + rest) == [c] + read(more + rest)
  {
    if c == '\n' {
      TagFirst(read, Break, BR, more + rest);
      Regroup(BR, more, rest);
    } else {
      CharFirst(read, c, more + rest);
      Regroup([c], more, rest);
    }
  }

  lemma EmphasisFirst(read: string -> string, s: string, word: char -> bool, rest: string)
    requires Reader(read) && '<' !in s
    ensures read(Emphasised(s, word) + rest) == s + read(rest)
    ensures read(BreakLines(Emphasised(s, word)) + rest) == s + read(rest)
  {
    EmphasisedUndone(s, word);
    WholeFirst(read, Emphasised(s, word), rest);
    BrokenFirst(read, Emphasised(s, word), rest);
  }

  // ---------------------------------------------------------------- tables

  /** The cells of one row, each behind its mark. */
  function CellsText(cells: seq<string>, mark: string): string {
    if cells == [] then "" else mark + cells[0] + CellsText(cells[1..], mark)
  }

  function RowText(row: seq<string>): string {
    CellsText(row, "|") + "|\n"
  }

  function TableText(header: seq<string>, body: seq<seq<string>>): string {
    CellsText(header, "^") + "|\n" + Flatten(Each(body, RowText)) + "\n"
  }

  /** Whatever follows `shown`, it is read as `text`. */
  ghost predicate ReadsAs(read: string -> string, shown: string, text: string) {
    forall rest {:trigger read(shown + rest)} :: read(shown + rest) == text + read(rest)
  }

  lemma {:induction false} AllRead(read: string -> string, shown: seq<string>, texts: seq<string>, rest: string)
    requires |shown| == |texts| && forall i :: 0 <= i < |shown| ==> ReadsAs(read, shown[i], texts[i])
    ensures read(Flatten(shown) + rest) == Flatten(texts) + read(rest)
  {
    if shown == [] {
      assert "" + rest == rest;
    } else {
      AllRead(read, shown[1..], texts[1..], rest);
      Regroup(shown[0], Flatten(shown[1..]), rest);
      Regroup(texts[0], Flatten(texts[1..]), read(rest));
    }
  }

  lemma {:induction false} CellsFirst(
      read: string -> string, cells: seq<string>, open: Tag, close: Tag, word: char -> bool, rest: string)
    requires Reader(read) && Plain(cells) && Meaning(close) == ""
    ensures read(TableCells(cells, TextOf(open), TextOf(close), word) + rest)
         == CellsText(cells, Meaning(open)) + read(rest)
  {
    if cells == [] {
      assert "" + rest == rest;
    } else {
      var more := TableCells(cells[1..], TextOf(open), TextOf(close), word);
      CellsFirst(read, cells[1..], open, close, word, rest);
      OneCell(read, cells[0], open, close, word, more, rest);
      Regroup(Meaning(open) + cells[0], CellsText(cells[1..], Meaning(open)), read(rest));
    }
  }

  lemma OneCell(
      read: string -> string, cell: string, open: Tag, close: Tag, word: char -> bool, more: string, rest: string)
    requires Reader(read) && '<' !in cell && Meaning(close) == ""
    ensures read(TextOf(open) + Emphasised(cell, word) + TextOf(close) + more + rest)
         == Meaning(open) + cell + read(more + rest)
  {
    var e, a, b := Emphasised(cell, word), TextOf(open), TextOf(close);
    TagFirst(read, open, a, e + (b + (more + rest)));
    EmphasisFirst(read, cell, word, b + (more + rest));
    TagFirst(read, close, b, more + rest);
    FiveParts(a, e, b, more, rest);
    assert "" + read(more + rest) == read(more + rest);
    Regroup(Meaning(open), cell, read(more + rest));
  }

  lemma FiveParts(a: string, b: string, c: string, d: string, e: string)
    ensures a + b + c + d + e == a + (b + (c + (d + e)))
  {
    Regroup(c, d, e);
    Regroup(b, c, d + e);
    Regroup(a, b, c + (d + e));
    Regroup(a + b, c, d + e);
    Regroup(a + b + c, d, e);
  }

  /** A row of a table's body, given its cells. */
  function RowHtml(word: char -> bool): seq<string> -> string {
    row => TR + TableCells(row, TD, TD_END, word) + TR_END
  }

  lemma {:induction false} BodyIsRows(rows: seq<string>, word: char -> bool)
    ensures TableBody(rows, word) == Flatten(Each(Each(rows, Cells), RowHtml(word)))
  {
    if rows != [] {
      BodyIsRows(rows[1..], word);
    }
  }

  ghost predicate AllPlain(rows: seq<seq<string>>) {
    forall i :: 0 <= i < |rows| ==> Plain(rows[i])
  }

  lemma RowReads(read: string -> string, row: seq<string>, word: char -> bool)
    requires Reader(read) && Plain(row)
    ensures ReadsAs(read, RowHtml(word)(row), RowText(row))
  {
    CellsRead(read, row, TdOpen, TD, TdClose, TD_END, word);
    RowFrame(read, TableCells(row, TD, TD_END, word), CellsText(row, "|"));
  }

  lemma BodyFirst(read: string -> string, rows: seq<seq<string>>, word: char -> bool, rest: string)
    requires Reader(read) && AllPlain(rows)
    ensures read(Flatten(Each(rows, RowHtml(word))) + rest) == Flatten(Each(rows, RowText)) + read(rest)
  {
    forall i | 0 <= i < |rows| ensures ReadsAs(read, RowHtml(word)(rows[i]), RowText(rows[i])) {
      RowReads(read, rows[i], word);
    }
    AllRead(read, Each(rows, RowHtml(word)), Each(rows, RowText), rest);
  }

  lemma CellsRead(
      read: string -> string, row: seq<string>, open: Tag, front: string, close: Tag, back: string, word: char -> bool)
    requires Reader(read) && Plain(row) && front == TextOf(open) && back == TextOf(close) && Meaning(close) == ""
    ensures ReadsAs(read, TableCells(row, front, back, word), CellsText(row, Meaning(open)))
  {
    var shown, text := TableCells(row, front, back, word), CellsText(row, Meaning(open));
    forall rest ensures read(shown + rest) == text + read(rest) {
      CellsFirst(read, row, open, close, word, rest);
    }
  }

  /** The tags of a row around its cells. */
  lemma RowFrame(read: string -> string, cells: string, text: string)
    requires Reader(read) && ReadsAs(read, cells, text)
    ensures ReadsAs(read, TR + cells + TR_END, text + "|\n")
  {
    var shown, line := TR + cells + TR_END, text + "|\n";
    forall rest ensures read(shown + rest) == line + read(rest) {
      RowParts(TR, cells, TR_END, rest);
      TagFirst(read, TrOpen, TR, cells + (TR_END + rest));
      assert read(cells + (TR_END + rest)) == text + read(TR_END + rest);
      TagFirst(read, TrClose, TR_END, rest);
      Regroup(text, "|\n", read(rest));
      assert "" + read(cells + (TR_END + rest)) == read(cells + (TR_END + rest));
    }
  }

  lemma RowParts(a: string, b: string, c: string, d: string)
    ensures a + b + c + d == a + (b + (c + d))
  {
    Regroup(b, c, d);
    Regroup(a, b, c + d);
    Regroup(a + b, c, d);
  }

  /** The tags around the rows of a table. */
  lemma FrameFirst(read: string -> string, row: string, body: string, rest: string)
    requires Reader(read)
    ensures read(TABLE + TBODY + row + body + TBODY_END + TABLE_END + rest)
         == read(row + (body + (TBODY_END + (TABLE_END + rest))))
    ensures read(TBODY_END + (TABLE_END + rest)) == "\n" + read(rest)
  {
    var inner := row + (body + (TBODY_END + (TABLE_END + rest)));
    SevenParts(TABLE, TBODY, row, body, TBODY_END, TABLE_END, rest);
    TagFirst(read, TableOpen, TABLE, TBODY + inner);
    TagFirst(read, TbodyOpen, TBODY, inner);
    TagFirst(read, TbodyClose, TBODY_END, TABLE_END + rest);
    TagFirst(read, TableClose, TABLE_END, rest);
  }

  lemma SevenParts(a: string, b: string, c: string, d: string, e: string, f: string, g: string)
    ensures a + b + c + d + e + f + g == a + (b + (c + (d + (e + (f + g)))))
  {
    FiveParts(a, b, c, d, e + (f + g));
    Regroup(e, f, g);
    Regroup(a + b + c + d, e, f + g);
    Regroup(a + b + c + d + e, f, g);
  }

  /** A table around the cells of its header and the rows of its body. */
  function Framed(cells: string, rows: string): string {
    TABLE + TBODY + TR + cells + TR_END + rows + TBODY_END + TABLE_END
  }

  /** A table is read as its rows, whatever they are made of. */
  lemma FrameReads(read: string -> string, cells: string, header: string, rows: string, body: string)
    requires Reader(read)
    requires ReadsAs(read, TR + cells + TR_END, header) && ReadsAs(read, rows, body)
    ensures ReadsAs(read, Framed(cells, rows), header + body + "\n")
  {
    var row, shown, text := TR + cells + TR_END, Framed(cells, rows), header + body + "\n";
    forall rest ensures read(shown + rest) == text + read(rest) {
      var ends := TBODY_END + (TABLE_END + rest);
      TableParts(cells, rows, rest);
      FrameFirst(read, row, rows, rest);
      assert read(row + (rows + ends)) == header + read(rows + ends);
      assert read(rows + ends) == body + read(ends);
      RowParts(header, body, "\n", read(rest));
    }
  }

  lemma HeaderReads(read: string -> string, header: seq<string>, word: char -> bool)
    requires Reader(read) && Plain(header)
    ensures ReadsAs(read, TR + TableCells(header, TH, TH_END, word) + TR_END, CellsText(header, "^") + "|\n")
  {
    CellsRead(read, header, ThOpen, TH, ThClose, TH_END, word);
    RowFrame(read, TableCells(header, TH, TH_END, word), CellsText(header, "^"));
  }

  lemma TableReads(
      read: string -> string, header: seq<string>, body: seq<seq<string>>, word: char -> bool,
      cells: string, rows: string)
    requires Reader(read) && Plain(header) && AllPlain(body)
    requires cells == TableCells(header, TH, TH_END, word) && rows == Flatten(Each(body, RowHtml(word)))
    ensures ReadsAs(read, Framed(cells, rows), TableText(header, body))
  {
    HeaderReads(read, header, word);
    RowsRead(read, body, word);
    FrameReads(read, cells, CellsText(header, "^") + "|\n", rows, Flatten(Each(body, RowText)));
  }

  lemma RowsRead(read: string -> string, rows: seq<seq<string>>, word: char -> bool)
    requires Reader(read) && AllPlain(rows)
    ensures ReadsAs(read, Flatten(Each(rows, RowHtml(word))), Flatten(Each(rows, RowText)))
  {
    var shown, texts := Flatten(Each(rows, RowHtml(word))), Flatten(Each(rows, RowText));
    forall rest ensures read(shown + rest) == texts + read(rest) {
      BodyFirst(read, rows, word, rest);
    }
  }

  lemma TableParts(cells: string, body: string, rest: string)
    ensures TABLE + TBODY + TR + cells + TR_END + body + TBODY_END + TABLE_END + rest
         == TABLE + TBODY + (TR + cells + TR_END) + body + TBODY_END + TABLE_END + rest
  {
    Regroup(TABLE + TBODY, TR + cells, TR_END);
    Regroup(TABLE + TBODY, TR, cells);
  }

  // ---------------------------------------------------------------- what kind of paragraph it is

  /** The lines of a text, at every line break. */
  function LinesOf(s: string): (r: seq<string>)
    ensures r != []
  {
    if s == "" then [""]
    else if IsLineBreak(s[0]) then [""] + LinesOf(s[1..])
    else OnFirst([s[0]], LinesOf(s[1..]))
  }

  /** More in front of the first line. */
  function OnFirst(front: string, lines: seq<string>): (r: seq<string>)
    requires lines != []
    ensures r != []
  {
    [front + lines[0]] + lines[1..]
  }

  /** The stripped lines that are not blank. */
  function Filled(lines: seq<string>): seq<string> {
    if lines == [] then []
    else (if Strip(lines[0]) == "" then [] else [Strip(lines[0])]) + Filled(lines[1..])
  }

  predicate BarLine(line: string) {
    |line| > 0 && line[0] == '|' && line[|line| - 1] == '|'
  }

  /** Nothing but white space, colons, hyphens and bars between its two bars. */
  predicate SeparatorLine(line: string) {
    |line| > 2
    && forall k :: 1 <= k < |line| - 1 ==> line[k] == ':' || line[k] == '-' || line[k] == '|' || IsSpace(line[k])
  }

  /** Two or more lines, all of them between bars, and the second one a separator. */
  predicate TableLike(s: string) {
    var lines := Filled(LinesOf(s));
    |lines| > 1 && SeparatorLine(lines[1]) && forall i :: 0 <= i < |lines| ==> BarLine(lines[i])
  }

  /** Three or more hyphens, or stars, or underscores. */
  predicate RuleLike(s: string) {
    |s| > 2 &&
      ((forall i :: 0 <= i < |s| ==> s[i] == '-')
       || (forall i :: 0 <= i < |s| ==> s[i] == '*')
       || (forall i :: 0 <= i < |s| ==> s[i] == '_'))
  }

  function Repeat(c: char, n: nat): (r: string)
    ensures |r| == n && forall i :: 0 <= i < n ==> r[i] == c
  {
    if n == 0 then "" else [c] + Repeat(c, n - 1)
  }

  /** Up to four hashes with a space behind them. */
  predicate HeadingLike(s: string) {
    exists k :: 1 <= k <= 4 && k < |s| && s[..k] == Repeat('#', k) && s[k] == ' '
  }

  lemma OnFirstTwice(a: string, b: string, lines: seq<string>)
    requires lines != []
    ensures OnFirst(a, OnFirst(b, lines)) == OnFirst(a + b, lines) && OnFirst("", lines) == lines
  {
    Regroup(a, b, lines[0]);
    assert OnFirst(b, lines)[1..] == lines[1..];
    assert "" + lines[0] == lines[0];
  }

  lemma LinesCons(c: char, rest: string)
    ensures LinesOf([c] + rest) == if IsLineBreak(c) then [""] + LinesOf(rest) else OnFirst([c], LinesOf(rest))
  {
    assert ([c] + rest)[1..] == rest;
  }

  lemma {:induction false} LinesPrefix(front: string, rest: string)
    requires forall i :: 0 <= i < |front| ==> !IsLineBreak(front[i])
    ensures LinesOf(front + rest) == OnFirst(front, LinesOf(rest))
  {
    if front == "" {
      assert front + rest == rest;
      OnFirstTwice("", "", LinesOf(rest));
    } else {
      LinesPrefix(front[1..], rest);
      LinesCons(front[0], front[1..] + rest);
      assert front == [front[0]] + front[1..];
      Regroup([front[0]], front[1..], rest);
      OnFirstTwice([front[0]], front[1..], LinesOf(rest));
    }
  }

  lemma {:induction false} LineEndFirst(s: string, i: nat)
    requires i <= |s|
    ensures forall k :: i <= k < LineEnd(s, i) ==> !IsLineBreak(s[k])
    decreases |s| - i
  {
    if i < |s| && !IsLineBreak(s[i]) {
      LineEndFirst(s, i + 1);
    }
  }

  lemma FirstLine(s: string, end: nat)
    requires end <= |s| && (end < |s| ==> IsLineBreak(s[end])) && forall k :: 0 <= k < end ==> !IsLineBreak(s[k])
    ensures LinesOf(s) == [s[..end]] + (if end < |s| then LinesOf(s[end + 1..]) else [])
  {
    LineCut(s, end);
    if end < |s| {
      LineAndMore(s[..end], s[end], s[end + 1..]);
    } else {
      LastLine(s);
    }
  }

  lemma LineCut(s: string, end: nat)
    requires end <= |s|
    ensures if end < |s| then s == s[..end] + ([s[end]] + s[end + 1..]) else s[..end] == s
  {
  }

  lemma LineAndMore(line: string, c: char, more: string)
    requires IsLineBreak(c) && forall i :: 0 <= i < |line| ==> !IsLineBreak(line[i])
    ensures LinesOf(line + ([c] + more)) == [line] + LinesOf(more)
  {
    LinesPrefix(line, [c] + more);
    LinesCons(c, more);
    FirstKept(line, LinesOf(more));
  }

  lemma LastLine(line: string)
    requires forall i :: 0 <= i < |line| ==> !IsLineBreak(line[i])
    ensures LinesOf(line) == [line]
  {
    LinesPrefix(line, "");
    assert line + "" == line;
  }

  lemma FirstKept(front: string, lines: seq<string>)
    ensures OnFirst(front, [""] + lines) == [front] + lines
  {
    assert ([""] + lines)[1..] == lines && front + "" == front;
  }

  lemma FilledCons(line: string, more: seq<string>)
    ensures Filled([line] + more) == (if Strip(line) == "" then [] else [Strip(line)]) + Filled(more)
  {
    assert ([line] + more)[1..] == more;
  }

  lemma {:induction false} RowsAreLines(s: string)
    ensures TableRows(s) == Filled(LinesOf(s))
    decreases |s|
  {
    var end := LineEnd(s, 0);
    LineEndFirst(s, 0);
    FirstLine(s, end);
    if end < |s| {
      RowsAreLines(s[end + 1..]);
      FilledCons(s[..end], LinesOf(s[end + 1..]));
    } else {
      FilledCons(s[..end], []);
    }
  }

  lemma TableIff(s: string)
    ensures IsTable(TableRows(s)) <==> TableLike(s)
  {
    RowsAreLines(s);
  }

  lemma RuleIff(s: string)
    ensures IsRule(s) <==> RuleLike(s)
  {
    if RuleLike(s) {
      assert forall c :: c in s ==> c == s[0];
    }
    if IsRule(s) {
      assert forall i :: 0 <= i < |s| ==> s[i] in s;
    }
  }

  lemma {:induction false} LeadingRun(s: string, c: char)
    ensures s[..Leading(s, c)] == Repeat(c, Leading(s, c))
  {
    if s != "" && s[0] == c {
      LeadingRun(s[1..], c);
      assert s[..1 + Leading(s[1..], c)] == [s[0]] + s[1..][..Leading(s[1..], c)];
    }
  }

  /** A run of a character that another one ends is all of the leading ones. */
  lemma {:induction false} LeadingOf(s: string, c: char, n: nat)
    requires n <= |s| && s[..n] == Repeat(c, n) && (n < |s| ==> s[n] != c)
    ensures Leading(s, c) == n
  {
    if n > 0 {
      assert s[0] == s[..n][0] == c;
      assert s[1..][..n - 1] == s[..n][1..] == Repeat(c, n)[1..] == Repeat(c, n - 1);
      LeadingOf(s[1..], c, n - 1);
    }
  }

  lemma HeadingIff(s: string)
    ensures Heading(s).Some? <==> HeadingLike(s)
  {
    var hashes := Leading(s, '#');
    if Heading(s).Some? {
      LeadingRun(s, '#');
      assert s[hashes..][0] == s[hashes] == ' ';
    }
    if k :| 1 <= k <= 4 && k < |s| && s[..k] == Repeat('#', k) && s[k] == ' ' {
      LeadingOf(s, '#', k);
      assert s[k..][0] == ' ';
    }
  }

  /** The title of a heading: what follows the spaces, up to the end of that line. */
  lemma TitleRead(k: nat, j: nat, title: string, rest: string)
    requires 1 <= k <= 4 && j > 0 && '\n' !in title
    requires title != "" ==> title[0] != ' '
    requires rest != "" ==> rest[0] == '\n'
    ensures Heading(Repeat('#', k) + Repeat(' ', j) + title + rest) == Some(title)
  {
    var line := title + rest;
    Regroup(Repeat('#', k) + Repeat(' ', j), title, rest);
    Regroup(Repeat('#', k), Repeat(' ', j), line);
    TitleAt(k, Repeat(' ', j) + line, j, line);
    TitleCut(title, rest);
  }

  lemma TitleAt(k: nat, t: string, j: nat, line: string)
    requires 1 <= k <= 4 && j > 0 && t == Repeat(' ', j) + line && (line != "" ==> line[0] != ' ')
    ensures Heading(Repeat('#', k) + t)
         == Some(match FindChar(line, '\n', 0) case Some(end) => line[..end] case None => line)
  {
    assert t[0] == Repeat(' ', j)[0];
    RunAhead('#', k, t);
    RunAhead(' ', j, line);
    HeadingParts(Repeat('#', k) + t, k, t, j, line);
  }

  lemma TitleCut(title: string, rest: string)
    requires '\n' !in title && (rest != "" ==> rest[0] == '\n')
    ensures
      var line := title + rest;
      title == match FindChar(line, '\n', 0) case Some(end) => line[..end] case None => line
  {
    LineFound(title, rest, 0);
    assert (title + rest)[..|title|] == title && (rest == "" ==> title + rest == title);
  }

  lemma HeadingParts(s: string, k: nat, t: string, j: nat, line: string)
    requires 1 <= k <= 4 && j > 0 && k <= |s| && j <= |t|
    requires Leading(s, '#') == k && s[k..] == t && Leading(t, ' ') == j && t[j..] == line
    ensures Heading(s)
         == Some(match FindChar(line, '\n', 0) case Some(end) => line[..end] case None => line)
  {
  }

  lemma RunAhead(c: char, n: nat, rest: string)
    requires rest != "" ==> rest[0] != c
    ensures Leading(Repeat(c, n) + rest, c) == n && (Repeat(c, n) + rest)[n..] == rest
  {
    var s := Repeat(c, n) + rest;
    assert s[..n] == Repeat(c, n);
    LeadingOf(s, c, n);
  }

  lemma {:induction false} LineFound(title: string, rest: string, i: nat)
    requires i <= |title| && '\n' !in title && (rest != "" ==> rest[0] == '\n')
    ensures FindChar(title + rest, '\n', i) == if rest == "" then None else Some(|title|)
    decreases |title| - i
  {
    if i < |title| {
      assert (title + rest)[i] == title[i];
      LineFound(title, rest, i + 1);
    }
  }

  // ---------------------------------------------------------------- paragraphs and pages

  /** The markdown that the HTML of a paragraph is read as. */
  function ReadBack(s: string): string {
    if TableLike(s) then
      var rows := Filled(LinesOf(s));
      TableText(Cells(rows[0]), Each(rows[2..], Cells))
    else if RuleLike(s) then "---\n\n"
    else if HeadingLike(s) then HeadingIff(s); "# " + Heading(s).value + "\n\n"
    else s + "\n\n"
  }

  lemma TextReads(read: string -> string, s: string, word: char -> bool, rest: string)
    requires Reader(read) && '<' !in s
    ensures read(P + BreakLines(Emphasised(s, word)) + P_END + rest) == s + "\n\n" + read(rest)
    ensures read(H3 + Emphasised(s, word) + H3_END + rest) == "# " + s + "\n\n" + read(rest)
  {
    var text, title := BreakLines(Emphasised(s, word)), Emphasised(s, word);
    RowParts(P, text, P_END, rest);
    RowParts(H3, title, H3_END, rest);
    TagFirst(read, POpen, P, text + (P_END + rest));
    TagFirst(read, H3Open, H3, title + (H3_END + rest));
    EmphasisFirst(read, s, word, P_END + rest);
    EmphasisFirst(read, s, word, H3_END + rest);
    TagFirst(read, PClose, P_END, rest);
    TagFirst(read, H3Close, H3_END, rest);
    Regroup(s, "\n\n", read(rest));
    Regroup("# ", s, "\n\n" + read(rest));
    Regroup("# " + s, "\n\n", read(rest));
    assert "" + (s + ("\n\n" + read(rest))) == s + ("\n\n" + read(rest));
  }

  /** What the HTML of a paragraph is, by its kind. */
  lemma HtmlByKind(s: string, word: char -> bool)
    ensures TableLike(s) ==>
      && TableRows(s) == Filled(LinesOf(s)) && |TableRows(s)| >= 2
      && ParagraphHtml(s, word) == TableHtml(TableRows(s), word)
    ensures !TableLike(s) && RuleLike(s) ==> ParagraphHtml(s, word) == HR
    ensures !TableLike(s) && !RuleLike(s) && HeadingLike(s) ==>
      Heading(s).Some? && ParagraphHtml(s, word) == H3 + Emphasised(Heading(s).value, word) + H3_END
    ensures !TableLike(s) && !RuleLike(s) && !HeadingLike(s) ==>
      ParagraphHtml(s, word) == P + BreakLines(Emphasised(s, word)) + P_END
  {
    RowsAreLines(s);
    TableIff(s);
    RuleIff(s);
    HeadingIff(s);
  }

  /** An escaped paragraph is read back as what it was written as. */
  lemma ParagraphRead(read: string -> string, s: string, word: char -> bool, rest: string)
    requires Reader(read) && '<' !in s
    ensures read(ParagraphHtml(s, word) + rest) == ReadBack(s) + read(rest)
  {
    HtmlByKind(s, word);
    if TableLike(s) {
      TableParagraph(read, TableRows(s), word, rest);
    } else if RuleLike(s) {
      TagFirst(read, Ruler, HR, rest);
    } else if HeadingLike(s) {
      TextReads(read, Heading(s).value, word, rest);
    } else {
      TextReads(read, s, word, rest);
    }
  }

  lemma TableParagraph(read: string -> string, rows: seq<string>, word: char -> bool, rest: string)
    requires Reader(read) && |rows| >= 2 && Plain(rows)
    ensures read(TableHtml(rows, word) + rest) == TableText(Cells(rows[0]), Each(rows[2..], Cells)) + read(rest)
  {
    var header, body := Cells(rows[0]), Each(rows[2..], Cells);
    BodyIsRows(rows[2..], word);
    var cells, html := TableCells(header, TH, TH_END, word), Flatten(Each(body, RowHtml(word)));
    assert TableHtml(rows, word) == Framed(cells, html);
    TableReads(read, header, body, word, cells, html);
    assert read(Framed(cells, html) + rest) == TableText(header, body) + read(rest);
  }

  // ---------------------------------------------------------------- tables as they are written

  /** Cells with bars between them. */
  function Barred(cells: seq<string>): string {
    if cells == [] then "" else if |cells| == 1 then cells[0] else cells[0] + ("|" + Barred(cells[1..]))
  }

  function RowSource(cells: seq<string>): string {
    "|" + Barred(cells) + "|"
  }

  /** Cells as one writes them: no bar, no bracket, no line break, and something in the first and in the last. */
  predicate Writable(cells: seq<string>) {
    && cells != [] && cells[0] != "" && cells[|cells| - 1] != ""
    && forall i :: 0 <= i < |cells| ==> CellWritable(cells[i])
  }

  predicate CellWritable(cell: string) {
    forall k :: 0 <= k < |cell| ==> cell[k] != '|' && cell[k] != '<' && !IsLineBreak(cell[k])
  }

  lemma {:induction false} BarFound(cell: string, rest: string, i: nat)
    requires CellWritable(cell) && i <= |cell|
    ensures FindChar(cell + ("|" + rest), '|', i) == Some(|cell|) && FindChar(cell, '|', i) == None
    decreases |cell| - i
  {
    if i < |cell| {
      assert (cell + ("|" + rest))[i] == cell[i];
      BarFound(cell, rest, i + 1);
    }
  }

  lemma {:induction false} BarsSplit(cells: seq<string>)
    requires cells != [] && forall i :: 0 <= i < |cells| ==> CellWritable(cells[i])
    ensures SplitBars(Barred(cells)) == Each(cells, Strip)
  {
    if |cells| == 1 {
      BarFound(cells[0], "", 0);
    } else {
      var rest := Barred(cells[1..]);
      var s := cells[0] + ("|" + rest);
      BarsSplit(cells[1..]);
      BarFound(cells[0], rest, 0);
      assert s[..|cells[0]|] == cells[0] && s[|cells[0]| + 1..] == rest;
    }
  }

  lemma {:induction false} BarredEnds(cells: seq<string>)
    requires Writable(cells)
    ensures Barred(cells) != "" && Barred(cells)[0] != '|' && Barred(cells)[|Barred(cells)| - 1] != '|'
    ensures Barred(cells)[0] == cells[0][0]
  {
    if |cells| > 1 {
      var rest := Barred(cells[1..]);
      LastOfBarred(cells[1..]);
      assert cells[1..][|cells| - 2] == cells[|cells| - 1];
      assert Barred(cells)[|Barred(cells)| - 1] == rest[|rest| - 1];
    }
  }

  lemma {:induction false} LastOfBarred(cells: seq<string>)
    requires cells != [] && cells[|cells| - 1] != "" && forall i :: 0 <= i < |cells| ==> CellWritable(cells[i])
    ensures Barred(cells) != "" && Barred(cells)[|Barred(cells)| - 1] != '|'
  {
    if |cells| > 1 {
      LastOfBarred(cells[1..]);
    }
  }

  lemma BetweenBars(inner: string)
    requires inner != "" && inner[0] != '|' && inner[|inner| - 1] != '|'
    ensures StripBy("|" + inner + "|", IsBar) == inner && Strip("|" + inner + "|") == "|" + inner + "|"
  {
    var row := "|" + inner + "|";
    StripStripped(row);
    assert row[1..] == inner + "|" && (inner + "|")[0] == inner[0];
    assert TrimLeft(row, IsBar) == TrimLeft(inner + "|", IsBar) == inner + "|";
    TrimLast(inner, '|', IsBar);
    assert TrimRight(inner, IsBar) == inner;
  }

  /** The cells of a row as it was written, each stripped. */
  lemma CellsOfRow(cells: seq<string>)
    requires Writable(cells)
    ensures Cells(RowSource(cells)) == Each(cells, Strip)
  {
    BarredEnds(cells);
    BetweenBars(Barred(cells));
    BarsSplit(cells);
  }

  function JoinLines(lines: seq<string>): string
    requires lines != []
  {
    if |lines| == 1 then lines[0] else lines[0] + (['\n'] + JoinLines(lines[1..]))
  }

  predicate OneLine(s: string) {
    forall k :: 0 <= k < |s| ==> !IsLineBreak(s[k])
  }

  lemma {:induction false} LinesOfJoined(lines: seq<string>)
    requires lines != [] && forall i :: 0 <= i < |lines| ==> OneLine(lines[i])
    ensures LinesOf(JoinLines(lines)) == lines
  {
    if |lines| == 1 {
      LastLine(lines[0]);
    } else {
      LinesOfJoined(lines[1..]);
      LineAndMore(lines[0], '\n', JoinLines(lines[1..]));
      assert lines == [lines[0]] + lines[1..];
    }
  }

  lemma {:induction false} FilledAll(lines: seq<string>)
    requires forall i :: 0 <= i < |lines| ==> lines[i] != "" && Strip(lines[i]) == lines[i]
    ensures Filled(lines) == lines
  {
    if lines != [] {
      FilledAll(lines[1..]);
    }
  }

  lemma {:induction false} BarredOneLine(cells: seq<string>)
    requires cells != [] && forall i :: 0 <= i < |cells| ==> CellWritable(cells[i])
    ensures OneLine(Barred(cells))
  {
    if |cells| > 1 {
      BarredOneLine(cells[1..]);
    }
  }

  lemma RowLine(cells: seq<string>)
    requires Writable(cells)
    ensures OneLine(RowSource(cells)) && BarLine(RowSource(cells)) && Strip(RowSource(cells)) == RowSource(cells)
  {
    BarredEnds(cells);
    BetweenBars(Barred(cells));
    BarredOneLine(cells);
  }

  /** The source of a table: its header, a separator, and its other rows. */
  function TableSource(header: seq<string>, separator: string, body: seq<seq<string>>): string {
    JoinLines([RowSource(header), separator] + Each(body, RowSource))
  }

  /** A table as it is written is read back with the cells of its header and of every other row, in order. */
  lemma TableReadBack(header: seq<string>, separator: string, body: seq<seq<string>>)
    requires Writable(header) && forall i :: 0 <= i < |body| ==> Writable(body[i])
    requires SeparatorLine(separator) && BarLine(separator) && OneLine(separator)
    ensures ReadBack(TableSource(header, separator, body))
         == TableText(Each(header, Strip), Each(body, (cells: seq<string>) => Each(cells, Strip)))
  {
    var s, lines := TableSource(header, separator, body), [RowSource(header), separator] + Each(body, RowSource);
    StripStripped(separator);
    forall i | 0 <= i < |lines| ensures OneLine(lines[i]) && BarLine(lines[i]) && Strip(lines[i]) == lines[i] {
      if i != 1 {
        RowLine(if i == 0 then header else body[i - 2]);
      }
    }
    LinesOfJoined(lines);
    FilledAll(lines);
    CellsOfRow(header);
    assert lines[2..] == Each(body, RowSource);
    SourcesCells(body);
  }

  lemma SourcesCells(body: seq<seq<string>>)
    requires forall i :: 0 <= i < |body| ==> Writable(body[i])
    ensures Each(Each(body, RowSource), Cells) == Each(body, (cells: seq<string>) => Each(cells, Strip))
  {
    forall i | 0 <= i < |body| ensures Cells(RowSource(body[i])) == Each(body[i], Strip) {
      CellsOfRow(body[i]);
    }
  }

  /** A heading is read back as its title; the lines below it in the same paragraph are not shown. */
  lemma HeadingReadBack(k: nat, j: nat, title: string, rest: string)
    requires 1 <= k <= 4 && j > 0 && '\n' !in title
    requires title != "" ==> title[0] != ' '
    requires rest != "" ==> rest[0] == '\n'
    ensures
      var s := Repeat('#', k) + Repeat(' ', j) + title + rest;
      !TableLike(s) && !RuleLike(s) ==> ReadBack(s) == "# " + title + "\n\n"
  {
    TitleRead(k, j, title, rest);
    HeadingIff(Repeat('#', k) + Repeat(' ', j) + title + rest);
  }

  // ---------------------------------------------------------------- pages

  /** What a paragraph of the description is read back as; a set-aside block is a fenced block again. */
  function ParagraphText(p: seq<Symbol>, blocks: seq<string>): string {
    var q := Trimmed(p);
    if q == [] then ""
    else if |q| == 1 && q[0].Slot? then (if q[0].block < |blocks| then "```" + blocks[q[0].block] + "```\n\n" else "")
    else ReadBack(Characters(q))
  }

  function Texts(blocks: seq<string>): seq<Symbol> -> string {
    p => ParagraphText(p, blocks)
  }

  lemma BlockReads(read: string -> string, content: string)
    requires Reader(read) && '<' !in content
    ensures ReadsAs(read, Shown(CodePiece(content)), "```" + content + "```\n\n")
  {
    var shown, text := Shown(CodePiece(content)), "```" + content + "```\n\n";
    forall rest ensures read(shown + rest) == text + read(rest) {
      var ends := CODE_END + (TextOf(PreClose) + rest);
      assert CODE_OPEN == TextOf(PreOpen) + CODE && CODE_CLOSE == CODE_END + TextOf(PreClose);
      assert shown + rest == TextOf(PreOpen) + (CODE + (content + ends));
      TagFirst(read, PreOpen, TextOf(PreOpen), CODE + (content + ends));
      TagFirst(read, CodeOpen, CODE, content + ends);
      PlainFirst(read, content, ends);
      TagFirst(read, CodeClose, CODE_END, TextOf(PreClose) + rest);
      TagFirst(read, PreClose, TextOf(PreClose), rest);
      TickText(content, read(rest));
    }
  }

  lemma TickText(content: string, rest: string)
    ensures "``" + ("`" + (content + ("`" + ("``\n\n" + rest)))) == "```" + content + "```\n\n" + rest
  {
    assert "``" + "`" == "```" && "`" + "``\n\n" == "```\n\n";
    Regroup("`", "``\n\n", rest);
    Regroup("``", "`", content + ("```\n\n" + rest));
    Regroup("```", content, "```\n\n" + rest);
    Regroup("```" + content, "```\n\n", rest);
  }

  lemma PieceReads(read: string -> string, p: seq<Symbol>, blocks: seq<string>, word: char -> bool)
    requires Reader(read) && Plain(blocks)
    requires forall x :: x in p ==> if x.Slot? then x.block < |blocks| else x.c != '<'
    ensures ReadsAs(read, Shown(PieceOf(p, blocks, word)), ParagraphText(p, blocks))
  {
    var q := Trimmed(p);
    var shown, text := Shown(PieceOf(p, blocks, word)), ParagraphText(p, blocks);
    if |q| == 1 && q[0].Slot? {
      BlockReads(read, blocks[q[0].block]);
    } else {
      forall rest ensures read(shown + rest) == text + read(rest) {
        if q == [] {
          assert "" + rest == rest && "" + read(rest) == read(rest);
        } else {
          ParagraphRead(read, Characters(q), word, rest);
        }
      }
    }
  }

  /**
   * The page of any description, read back: its paragraphs, in order, each as it was written; fenced blocks as fenced
   * blocks. A description without any is an empty paragraph.
   */
  lemma PageRead(text: string, word: char -> bool)
    ensures Read(Html(text, word)) == DescriptionText(text)
  {
    ReadIsReader();
    PageFirst(Read, text, word, "");
    AtTheEnd(Read, Html(text, word), DescriptionText(text));
  }

  lemma AtTheEnd(read: string -> string, shown: string, text: string)
    requires read(shown + "") == text + read("") && read("") == ""
    ensures read(shown) == text
  {
    assert shown + "" == shown && text + "" == text;
  }

  /** A description as its page shows it. */
  function DescriptionText(text: string): string {
    var texts := Flatten(Each(ParagraphsOf(text), Texts(Blocks(Segments(Escape(text))))));
    if texts == "" then "\n\n" else texts
  }

  lemma PageFirst(read: string -> string, text: string, word: char -> bool, rest: string)
    requires Reader(read)
    ensures read(Html(text, word) + rest) == DescriptionText(text) + read(rest)
  {
    var paragraphs, blocks := ParagraphsOf(text), Blocks(Segments(Escape(text)));
    var shown, texts := Each(PiecesOf(text, word), Shown), Each(paragraphs, Texts(blocks));
    SegmentsBracketless(Escape(text));
    SetAsideInRange(Segments(Escape(text)), 0);
    BlocksPlain(Segments(Escape(text)));
    PiecesFaithful(text, word);
    forall i | 0 <= i < |paragraphs| ensures ReadsAs(read, shown[i], texts[i]) {
      assert paragraphs[i] in paragraphs;
      forall x: Symbol | x in paragraphs[i] ensures if x.Slot? then x.block < |blocks| else x.c != '<' {
        assert x in SetAside(Segments(Escape(text)), 0);
      }
      PieceReads(read, paragraphs[i], blocks, word);
    }
    AllRead(read, shown, texts, rest);
    EmptyPage(read, rest);
    forall i | 0 <= i < |paragraphs| ensures shown[i] == "" <==> texts[i] == "" {
      assert Faithful(PiecesOf(text, word)[i]);
      EmptyPiece(paragraphs[i], blocks, word);
    }
    NothingFlat(shown, texts);
  }

  /** A measurement as its section of the page shows it: a heading, the record as a block, and an emphasised note. */
  function MeasurementText(m: TicketMeasure.Measurement): string {
    "# " + "Ako som to zmeral" + "\n\n"
    + ("```" + TicketMeasure.EscapedRecord(m) + "```\n\n" + ("*" + (TicketMeasure.Note() + "*\n\n")))
  }

  /** The page of a whole ticket, read back: the description, and behind it the measurement. */
  lemma DocumentRead(text: string, m: TicketMeasure.Measurement, word: char -> bool)
    ensures Read(TicketMeasure.Document(text, m, word)) == DescriptionText(text) + MeasurementText(m)
  {
    ReadIsReader();
    PageFirst(Read, text, word, TicketMeasure.MeasurementHtml(m));
    MeasurementReads(Read, m);
  }

  lemma MeasurementReads(read: string -> string, m: TicketMeasure.Measurement)
    requires Reader(read)
    ensures read(TicketMeasure.MeasurementHtml(m)) == MeasurementText(m)
  {
    var record := TicketMeasure.EscapedRecord(m);
    TitleReads(read, "Ako som to zmeral", Shown(CodePiece(record)) + TicketMeasure.Closing());
    TicketMeasure.EscapedRecordText(m);
    BlockReads(read, record);
    NoteBracketless();
    NoteReads(read, TicketMeasure.Note());
    ThreeRead(read, TicketMeasure.Title(), Shown(CodePiece(record)), TicketMeasure.Closing(),
              "# " + "Ako som to zmeral" + "\n\n", "```" + record + "```\n\n", "*" + (TicketMeasure.Note() + "*\n\n"));
  }

  lemma ThreeRead(read: string -> string, a: string, b: string, c: string, x: string, y: string, z: string)
    requires read(a + (b + c)) == x + read(b + c) && ReadsAs(read, b, y) && read(c) == z
    ensures read(a + (b + c)) == x + (y + z)
  {
    assert read(b + c) == y + read(c);
  }

  lemma TitleReads(read: string -> string, title: string, rest: string)
    requires Reader(read) && '<' !in title
    ensures read(H3 + title + H3_END + rest) == "# " + title + "\n\n" + read(rest)
  {
    TagFirst(read, H3Open, H3, title + (H3_END + rest));
    PlainFirst(read, title, H3_END + rest);
    TagFirst(read, H3Close, H3_END, rest);
    assert H3 + title + H3_END + rest == H3 + (title + (H3_END + rest));
    Regroup("# " + title, "\n\n", read(rest));
    Regroup("# ", title, "\n\n" + read(rest));
  }

  lemma NoteBracketless()
    ensures '<' !in TicketMeasure.Note()
  {
    TicketMeasure.NoteStart();
    TicketMeasure.NoteEnd();
  }

  lemma NoteReads(read: string -> string, note: string)
    requires Reader(read) && '<' !in note
    ensures read(P + EM + note + EM_END + P_END) == "*" + (note + "*\n\n")
  {
    TagFirst(read, POpen, P, EM + (note + (EM_END + P_END)));
    TagFirst(read, EmOpen, EM, note + (EM_END + P_END));
    PlainFirst(read, note, EM_END + P_END);
    TagFirst(read, EmClose, EM_END, P_END);
    EmptyEnd(read);
    assert P + EM + note + EM_END + P_END == P + (EM + (note + (EM_END + P_END)));
    assert "*" + "\n\n" == "*\n\n";
  }

  lemma EmptyEnd(read: string -> string)
    requires Reader(read)
    ensures read(P_END) == "\n\n"
  {
    TagFirst(read, PClose, P_END, "");
    assert P_END + "" == P_END && "\n\n" + "" == "\n\n";
  }

  lemma {:induction false} NothingFlat(a: seq<string>, b: seq<string>)
    requires |a| == |b| && forall i :: 0 <= i < |a| ==> (a[i] == "" <==> b[i] == "")
    ensures Flatten(a) == "" <==> Flatten(b) == ""
  {
    if a != [] {
      NothingFlat(a[1..], b[1..]);
    }
  }

  /** Only an empty paragraph leaves nothing on the page, and nothing to read. */
  lemma EmptyPiece(p: seq<Symbol>, blocks: seq<string>, word: char -> bool)
    requires PieceOf(p, blocks, word) != IndexError
    ensures Shown(PieceOf(p, blocks, word)) == "" <==> ParagraphText(p, blocks) == ""
  {
    var q := Trimmed(p);
    if q != [] && !(|q| == 1 && q[0].Slot?) {
      HtmlByKind(Characters(q), word);
    }
  }

  lemma EmptyPage(read: string -> string, rest: string)
    requires Reader(read)
    ensures read(P + P_END + rest) == "\n\n" + read(rest)
  {
    TagFirst(read, POpen, P, P_END + rest);
    TagFirst(read, PClose, P_END, rest);
    Regroup(P, P_END, rest);
  }

  // ---------------------------------------------------------------- emphasis is put where it belongs

  /** No character that may delimit anything. */
  predicate Undelimited(s: string) {
    forall i :: 0 <= i < |s| ==> s[i] != '*' && s[i] != '`'
  }

  lemma {:induction false} NothingOpens(s: string, i: nat, n: nat, kind: Kind, word: char -> bool)
    requires i <= n <= |s| && forall k :: i <= k < n ==> !Opens(s, k, kind, word)
    ensures NextMatch(s, i, kind, word) == NextMatch(s, n, kind, word)
    decreases n - i
  {
    if i < n {
      NothingOpens(s, i + 1, n, kind, word);
    }
  }

  lemma Unmatched(s: string, i: nat, rule: Rule, word: char -> bool)
    requires i <= |s| && forall k :: i <= k < |s| ==> !Opens(s, k, rule.kind, word)
    ensures Emphasise(s, i, rule, word) == s[i..]
  {
    NothingOpens(s, i, |s|, rule.kind, word);
  }

  /** Text without delimiters is as it was. */
  lemma UndelimitedKept(s: string, word: char -> bool)
    requires Undelimited(s)
    ensures Emphasised(s, word) == s
  {
    assert s[0..] == s;
    Unmatched(s, 0, RuleOf(Strong), word);
    Unmatched(s, 0, RuleOf(Em), word);
    Unmatched(s, 0, RuleOf(Code), word);
  }

  lemma {:induction false} ClosesAt(s: string, i: nat, j: nat, kind: Kind, word: char -> bool)
    requires 0 < i <= j < |s| && Closes(s, j, kind, word) && j + Width(kind) <= |s|
    requires forall k :: i <= k < j ==> !Closes(s, k, kind, word) && Inner(kind, s[k])
    ensures Closing(s, i, kind, word) == Some(j)
    decreases j - i
  {
    if i < j {
      ClosesAt(s, i + 1, j, kind, word);
    }
  }

  /** Outside the two delimiters, `w` characters each, there are none. */
  predicate OnlyPair(s: string, k: nat, j: nat, w: nat) {
    forall i :: 0 <= i < |s| && !(k <= i < k + w) && !(j <= i < j + w) ==> s[i] != '*' && s[i] != '`'
  }

  lemma PairFound(s: string, k: nat, j: nat, kind: Kind, word: char -> bool)
    requires var w := Width(kind);
      k + w < j && j + w <= |s| && Opens(s, k, kind, word) && Closes(s, j, kind, word) && OnlyPair(s, k, j, w)
    requires kind == Code ==> '\n' !in s[k + 1..j]
    ensures NextPart(s, 0, kind, word) == Some((s[..k], s[k + Width(kind)..j], j + Width(kind)))
  {
    var w := Width(kind);
    NothingOpens(s, 0, k, kind, word);
    ClosesAt(s, k + w + 1, j, kind, word);
    assert Delimited(s, k, kind, word) == Some(j);
    assert s[0..k] == s[..k];
  }

  /** A single pair of delimiters is replaced by the tags of its rule. */
  lemma PairMarked(s: string, k: nat, j: nat, w: nat, rule: Rule, word: char -> bool)
    requires k + w < j && j + w <= |s| && OnlyPair(s, k, j, w)
    requires NextPart(s, 0, rule.kind, word) == Some((s[..k], s[k + w..j], j + w))
    ensures Emphasise(s, 0, rule, word) == s[..k] + (rule.open + (s[k + w..j] + (rule.close + s[j + w..])))
  {
    NothingBehind(s, j + w, rule, word);
    OneMarked(s, rule, word, s[..k], s[k + w..j], j + w, s[j + w..]);
  }

  lemma NothingBehind(s: string, i: nat, rule: Rule, word: char -> bool)
    requires i <= |s| && forall k :: i <= k < |s| ==> s[k] != '*' && s[k] != '`'
    ensures Emphasise(s, i, rule, word) == s[i..]
  {
    Unmatched(s, i, rule, word);
  }

  lemma OneMarked(s: string, rule: Rule, word: char -> bool, before: string, inner: string, behind: nat, after: string)
    requires NextPart(s, 0, rule.kind, word) == Some((before, inner, behind))
    requires behind <= |s| && Emphasise(s, behind, rule, word) == after
    ensures Emphasise(s, 0, rule, word) == before + (rule.open + (inner + (rule.close + after)))
  {
  }

  /** The three rules one after the other. */
  lemma ThreeRules(s: string, strong: string, em: string, code: string, word: char -> bool)
    requires Emphasise(s, 0, RuleOf(Strong), word) == strong
    requires Emphasise(strong, 0, RuleOf(Em), word) == em && Emphasise(em, 0, RuleOf(Code), word) == code
    ensures Emphasised(s, word) == code
  {
  }

  /** Text without delimiters around tags is left alone by the later rules. */
  lemma MarkedKept(
      before: string, open: string, inner: string, close: string, after: string, kind: Kind, word: char -> bool)
    requires Undelimited(before) && Undelimited(open) && Undelimited(inner) && Undelimited(close) && Undelimited(after)
    ensures
      var t := before + (open + (inner + (close + after)));
      Emphasise(t, 0, RuleOf(kind), word) == t
  {
    var t := before + (open + (inner + (close + after)));
    Unmatched(t, 0, RuleOf(kind), word);
    assert t[0..] == t;
  }

  /** What is left of the text around and between its delimiters has none. */
  lemma PartsUndelimited(s: string, k: nat, j: nat, w: nat)
    requires k + w < j && j + w <= |s| && OnlyPair(s, k, j, w)
    ensures Undelimited(s[..k]) && Undelimited(s[k + w..j]) && Undelimited(s[j + w..])
  {
  }

  /** Two stars on each side of some text are strong emphasis. */
  lemma StrongShown(s: string, k: nat, j: nat, word: char -> bool)
    requires k + 2 < j && j + 2 <= |s| && OnlyPair(s, k, j, 2)
    requires s[k] == s[k + 1] == s[j] == s[j + 1] == '*'
    ensures Emphasised(s, word) == s[..k] + ("<strong>" + (s[k + 2..j] + ("</strong>" + s[j + 2..])))
  {
    var before, inner, after := s[..k], s[k + 2..j], s[j + 2..];
    PairFound(s, k, j, Strong, word);
    PairMarked(s, k, j, 2, RuleOf(Strong), word);
    PartsUndelimited(s, k, j, 2);
    var t := before + (STRONG + (inner + (STRONG_END + after)));
    MarkedKept(before, STRONG, inner, STRONG_END, after, Em, word);
    MarkedKept(before, STRONG, inner, STRONG_END, after, Code, word);
    ThreeRules(s, t, t, t, word);
  }

  lemma NothingStrong(s: string, k: nat, j: nat, word: char -> bool)
    requires k + 1 < j < |s| && OnlyPair(s, k, j, 1)
    ensures Emphasise(s, 0, RuleOf(Strong), word) == s
  {
    assert s[0..] == s;
    Unmatched(s, 0, RuleOf(Strong), word);
  }

  lemma NothingEm(s: string, word: char -> bool)
    requires forall i :: 0 <= i < |s| ==> s[i] != '*'
    ensures Emphasise(s, 0, RuleOf(Em), word) == s
  {
    assert s[0..] == s;
    Unmatched(s, 0, RuleOf(Em), word);
  }

  /** One star on each side of some text that neither starts nor ends with white space is emphasis, between words. */
  lemma EmShown(s: string, k: nat, j: nat, word: char -> bool)
    requires k + 1 < j < |s| && OnlyPair(s, k, j, 1) && s[k] == s[j] == '*'
    requires !IsSpace(s[k + 1]) && !IsSpace(s[j - 1])
    requires (k > 0 ==> !word(s[k - 1])) && (j + 1 < |s| ==> !word(s[j + 1]))
    ensures Emphasised(s, word) == s[..k] + ("<em>" + (s[k + 1..j] + ("</em>" + s[j + 1..])))
  {
    var before, inner, after := s[..k], s[k + 1..j], s[j + 1..];
    NothingStrong(s, k, j, word);
    PairFound(s, k, j, Em, word);
    PairMarked(s, k, j, 1, RuleOf(Em), word);
    PartsUndelimited(s, k, j, 1);
    var t := before + (EM + (inner + (EM_END + after)));
    MarkedKept(before, EM, inner, EM_END, after, Code, word);
    ThreeRules(s, s, t, t, word);
  }

  /** A tick on each side of some text is code, if that text has no line break. */
  lemma CodeShown(s: string, k: nat, j: nat, word: char -> bool)
    requires k + 1 < j < |s| && OnlyPair(s, k, j, 1) && s[k] == s[j] == '`'
    requires '\n' !in s[k + 1..j]
    ensures Emphasised(s, word) == s[..k] + ("<code>" + (s[k + 1..j] + ("</code>" + s[j + 1..])))
  {
    NothingStrong(s, k, j, word);
    NothingEm(s, word);
    PairFound(s, k, j, Code, word);
    PairMarked(s, k, j, 1, RuleOf(Code), word);
    ThreeRules(s, s, s, s[..k] + (CODE + (s[k + 1..j] + (CODE_END + s[j + 1..]))), word);
  }

  // ---------------------------------------------------------------- and nowhere else

  lemma {:induction false} NothingDelimited(s: string, i: nat, kind: Kind, word: char -> bool)
    requires forall k :: i <= k < |s| ==> Delimited(s, k, kind, word) == None
    ensures NextMatch(s, i, kind, word) == None
    decreases |s| - i
  {
    if i < |s| {
      NothingDelimited(s, i + 1, kind, word);
    }
  }

  lemma RuleSkipped(s: string, kind: Kind, word: char -> bool)
    requires forall k :: 0 <= k < |s| ==> Delimited(s, k, kind, word) == None
    ensures Emphasise(s, 0, RuleOf(kind), word) == s
  {
    NothingDelimited(s, 0, kind, word);
    assert s[0..] == s;
  }

  lemma {:induction false} NothingCloses(s: string, i: nat, kind: Kind, word: char -> bool)
    requires 0 < i && forall k :: i <= k < |s| ==> !Closes(s, k, kind, word)
    ensures Closing(s, i, kind, word) == None
    decreases |s| - i
  {
    if i < |s| {
      NothingCloses(s, i + 1, kind, word);
    }
  }

  /** A line break ends the search for the second tick. */
  lemma {:induction false} LineBreakStops(s: string, i: nat, p: nat, word: char -> bool)
    requires 0 < i <= p < |s| && s[p] == '\n' && forall k :: i <= k < p ==> s[k] != '`'
    ensures Closing(s, i, Code, word) == None
    decreases p - i
  {
    if i < p {
      LineBreakStops(s, i + 1, p, word);
    }
  }

  lemma LaterRulesKeep(s: string, word: char -> bool)
    requires Emphasise(s, 0, RuleOf(Strong), word) == s
    requires Emphasise(s, 0, RuleOf(Em), word) == s && Emphasise(s, 0, RuleOf(Code), word) == s
    ensures Emphasised(s, word) == s
  {
  }

  lemma NothingCode(s: string, word: char -> bool)
    requires '`' !in s
    ensures Emphasise(s, 0, RuleOf(Code), word) == s
  {
    assert s[0..] == s;
    Unmatched(s, 0, RuleOf(Code), word);
  }

  /** Two stars are left alone when white space is next to one of them inside, or a word next to one outside. */
  lemma EmKept(s: string, k: nat, j: nat, word: char -> bool)
    requires k + 1 < j < |s| && OnlyPair(s, k, j, 1) && s[k] == s[j] == '*'
    requires IsSpace(s[k + 1]) || IsSpace(s[j - 1]) || (k > 0 && word(s[k - 1])) || (j + 1 < |s| && word(s[j + 1]))
    ensures Emphasised(s, word) == s
  {
    NothingStrong(s, k, j, word);
    forall i | 0 <= i < |s| ensures Delimited(s, i, Em, word) == None {
      if (i == k && Opens(s, k, Em, word)) || i == j {
        NothingCloses(s, i + 2, Em, word);
      }
    }
    RuleSkipped(s, Em, word);
    NothingCode(s, word);
    LaterRulesKeep(s, word);
  }

  /** Two ticks are left alone when a line break is between them. */
  lemma CodeKept(s: string, k: nat, j: nat, word: char -> bool)
    requires k + 1 < j < |s| && OnlyPair(s, k, j, 1) && s[k] == s[j] == '`'
    requires '\n' in s[k + 1..j]
    ensures Emphasised(s, word) == s
  {
    var p :| k < p < j && s[p] == '\n';
    NothingStrong(s, k, j, word);
    NothingEm(s, word);
    forall i | 0 <= i < |s| ensures Delimited(s, i, Code, word) == None {
      if i == k && s[k + 1] != '\n' {
        LineBreakStops(s, k + 2, p, word);
      } else if i == j {
        NothingCloses(s, j + 2, Code, word);
      }
    }
    RuleSkipped(s, Code, word);
    LaterRulesKeep(s, word);
  }

  /** A single star or tick delimits nothing. */
  lemma LoneKept(s: string, k: nat, word: char -> bool)
    requires k < |s| && forall i :: 0 <= i < |s| && i != k ==> s[i] != '*' && s[i] != '`'
    ensures Emphasised(s, word) == s
  {
    forall kind: Kind ensures Emphasise(s, 0, RuleOf(kind), word) == s {
      LoneSkipped(s, k, kind, word);
    }
    LaterRulesKeep(s, word);
  }

  lemma LoneSkipped(s: string, k: nat, kind: Kind, word: char -> bool)
    requires k < |s| && forall i :: 0 <= i < |s| && i != k ==> s[i] != '*' && s[i] != '`'
    ensures Emphasise(s, 0, RuleOf(kind), word) == s
  {
    forall i | 0 <= i < |s| ensures Delimited(s, i, kind, word) == None {
      if i == k && Opens(s, k, kind, word) {
        NothingCloses(s, k + Width(kind) + 1, kind, word);
      }
    }
    RuleSkipped(s, kind, word);
  }
}
