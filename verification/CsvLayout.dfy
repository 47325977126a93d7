/** The files the CSV reader accepts, section 2 of RFC 4180 with the reader's own liberties: their grammar,
    how they are printed, and how their cells, lines and records are read. */
module CsvLayout {
  import opened Wrappers
  import opened Text
  import opened Csv

  /** `Eof` is the end of a last record without a line ending. */
  datatype Ending = Lf | CrLf | Eof

  datatype Cell = Cell(value: string, quoted: bool)

  datatype Line = Line(cells: seq<Cell>, ending: Ending)

  // ---------- the grammar ----------

  predicate PlainChar(f: Format, c: char) {
    c != f.separator && c != f.quote && c != '\r' && c != '\n'
  }

  predicate AllPlain(f: Format, w: string) {
    forall i | 0 <= i < |w| :: PlainChar(f, w[i])
  }

  /** Any value may be quoted; one with special characters has to be. */
  predicate GoodCell(f: Format, cell: Cell) {
    cell.quoted || AllPlain(f, cell.value)
  }

  predicate GoodCells(f: Format, cells: seq<Cell>) {
    forall i | 0 <= i < |cells| :: GoodCell(f, cells[i])
  }

  predicate GoodLine(f: Format, line: Line) {
    line.cells != [] && GoodCells(f, line.cells)
  }

  /** The data records. A last one without line ending is not a lone empty unquoted field: that is nothing. */
  predicate GoodRecords(f: Format, lines: seq<Line>) {
    lines == []
    || (GoodLine(f, lines[0])
        && (lines[0].ending == Eof ==> |lines| == 1 && lines[0].cells != [Cell("", false)])
        && GoodRecords(f, lines[1..]))
  }

  predicate GoodFile(f: Format, lines: seq<Line>) {
    lines != [] && GoodLine(f, lines[0]) && (lines[0].ending == Eof ==> |lines| == 1) && GoodRecords(f, lines[1..])
  }

  // ---------- the printer ----------

  function Doubled(f: Format, w: string): string {
    if w == "" then ""
    else (if w[0] == f.quote then [f.quote, f.quote] else [w[0]]) + Doubled(f, w[1..])
  }

  function PrintCell(f: Format, cell: Cell): string {
    if cell.quoted then [f.quote] + (Doubled(f, cell.value) + [f.quote]) else cell.value
  }

  function PrintEnding(e: Ending): string {
    match e
    case Lf => "\n"
    case CrLf => "\r\n"
    case Eof => ""
  }

  /** All but the first cell of a line, and its ending. */
  function PrintRest(f: Format, cells: seq<Cell>, e: Ending): string {
    if cells == [] then PrintEnding(e)
    else [f.separator] + (PrintCell(f, cells[0]) + PrintRest(f, cells[1..], e))
  }

  function PrintLine(f: Format, line: Line): string
    requires line.cells != []
  {
    PrintCell(f, line.cells[0]) + PrintRest(f, line.cells[1..], line.ending)
  }

  function PrintRecords(f: Format, lines: seq<Line>): string
    requires GoodRecords(f, lines)
  {
    if lines == [] then "" else PrintLine(f, lines[0]) + PrintRecords(f, lines[1..])
  }

  function PrintFile(f: Format, lines: seq<Line>): string
    requires GoodFile(f, lines)
  {
    PrintLine(f, lines[0]) + PrintRecords(f, lines[1..])
  }

  // ---------- the contents ----------

  function Values(cells: seq<Cell>): (r: Row)
    ensures |r| == |cells| && forall i | 0 <= i < |r| :: r[i] == cells[i].value
  {
    seq(|cells|, i requires 0 <= i < |cells| => cells[i].value)
  }

  function Rows(lines: seq<Line>): (r: seq<Row>)
    ensures |r| == |lines| && forall i | 0 <= i < |r| :: r[i] == Values(lines[i].cells)
  {
    seq(|lines|, i requires 0 <= i < |lines| => Values(lines[i].cells))
  }

  predicate AllOfWidth(lines: seq<Line>, width: nat) {
    forall i | 0 <= i < |lines| :: |lines[i].cells| == width
  }

  // ---------- every file of the grammar is read as its contents ----------

  /** A cell may stop here. */
  predicate Stops(f: Format, s: string, p: nat) {
    EndOfRecord(s, p) || s[p] == f.separator
  }

  lemma {:induction false} PlainRead(f: Format, s: string, p: nat, w: string, acc: string)
    requires AllPlain(f, w) && At(s, p, w) && Stops(f, s, p + |w|)
    ensures Plain(f, s, p, acc) == Got(acc + w, p + |w|)
    decreases |w|
  {
    if w == "" {
      assert acc + w == acc;
    } else {
      AtChar(s, p, w, 0);
      AtSlice(s, p, w, 1, |w|);
      PlainRead(f, s, p + 1, w[1..], acc + [w[0]]);
      assert acc + [w[0]] + w[1..] == acc + w;
    }
  }

  lemma DoubledCons(f: Format, c: char, rest: string)
    ensures Doubled(f, [c] + rest) == (if c == f.quote then [f.quote, f.quote] else [c]) + Doubled(f, rest)
  {
    assert ([c] + rest)[1..] == rest;
  }

  lemma {:induction false} QuotedRead(f: Format, s: string, p: nat, w: string, acc: string)
    requires At(s, p, Doubled(f, w) + [f.quote])
    requires var e := p + |Doubled(f, w)| + 1; e >= |s| || s[e] != f.quote
    ensures Quoted(f, s, p, acc) == Got(acc + w, p + |Doubled(f, w)| + 1)
    decreases |w|
  {
    hide At, Doubled;
    if w == "" {
      QuoteEnds(f, s, p);
      assert acc + w == acc;
    } else {
      var tail := Doubled(f, w[1..]) + [f.quote];
      var first := if w[0] == f.quote then [f.quote, f.quote] else [w[0]];
      assert w == [w[0]] + w[1..];
      DoubledCons(f, w[0], w[1..]);
      assert Doubled(f, w) + [f.quote] == first + tail;
      AtAppend(s, p, first, tail);
      AtChar(s, p, first, 0);
      AtChar(s, p, first, |first| - 1);
      QuotedRead(f, s, p + |first|, w[1..], acc + [w[0]]);
      assert acc + [w[0]] + w[1..] == acc + w;
    }
  }

  lemma QuoteEnds(f: Format, s: string, p: nat)
    requires At(s, p, Doubled(f, "") + [f.quote])
    ensures p < |s| && s[p] == f.quote && |Doubled(f, "")| == 0
  {
    AtChar(s, p, [f.quote], 0);
  }

  lemma CellRead(f: Format, s: string, p: nat, cell: Cell)
    requires Usable(f) && GoodCell(f, cell) && At(s, p, PrintCell(f, cell))
    requires Stops(f, s, p + |PrintCell(f, cell)|)
    ensures Field(f, s, p) == Got(cell.value, p + |PrintCell(f, cell)|)
  {
    if cell.quoted {
      var d := Doubled(f, cell.value) + [f.quote];
      AtChar(s, p, [f.quote] + d, 0);
      AtAppend(s, p, [f.quote], d);
      QuotedRead(f, s, p + 1, cell.value, "");
      assert "" + cell.value == cell.value;
    } else {
      if cell.value != "" { AtChar(s, p, cell.value, 0); }
      PlainRead(f, s, p, cell.value, "");
      assert "" + cell.value == cell.value;
    }
  }

  lemma EndingRead(s: string, p: nat, e: Ending)
    requires At(s, p, PrintEnding(e)) && (e == Eof ==> p == |s|)
    ensures EndOfRecord(s, p) && Newline(s, p) == Got((), p + |PrintEnding(e)|)
  {
    if e != Eof { AtChar(s, p, PrintEnding(e), 0); }
    if e == CrLf { AtChar(s, p, PrintEnding(e), 1); }
  }

  lemma RestStops(f: Format, s: string, p: nat, cells: seq<Cell>, e: Ending)
    requires At(s, p, PrintRest(f, cells, e)) && (e == Eof ==> p + |PrintRest(f, cells, e)| == |s|)
    ensures Stops(f, s, p)
  {
    if cells == [] { EndingRead(s, p, e); } else { AtChar(s, p, PrintRest(f, cells, e), 0); }
  }

  lemma ValuesCons(cell: Cell, rest: seq<Cell>)
    ensures [cell.value] + Values(rest) == Values([cell] + rest)
  {
  }

  lemma {:induction false} RestRead(f: Format, s: string, p: nat, cells: seq<Cell>, e: Ending, acc: Row)
    requires Usable(f) && GoodCells(f, cells)
    requires At(s, p, PrintRest(f, cells, e)) && (e == Eof ==> p + |PrintRest(f, cells, e)| == |s|)
    ensures Fields(f, s, p, acc) == Got(acc + Values(cells), p + |PrintRest(f, cells, e)|)
    decreases |cells|
  {
    hide Field, PrintCell, Newline, GoodCell, At, Stops;
    if cells == [] {
      EndingRead(s, p, e);
      assert acc + Values(cells) == acc;
    } else {
      var next := p + 1 + |PrintCell(f, cells[0])|;
      CellAhead(f, s, p, cells, e);
      RestRead(f, s, next, cells[1..], e, acc + [cells[0].value]);
      ValuesCons(cells[0], cells[1..]);
      assert cells == [cells[0]] + cells[1..];
      assert acc + [cells[0].value] + Values(cells[1..]) == acc + Values(cells);
    }
  }

  lemma CellAhead(f: Format, s: string, p: nat, cells: seq<Cell>, e: Ending)
    requires Usable(f) && GoodCells(f, cells) && cells != []
    requires At(s, p, PrintRest(f, cells, e)) && (e == Eof ==> p + |PrintRest(f, cells, e)| == |s|)
    ensures !EndOfRecord(s, p) && s[p] == f.separator
    ensures var next := p + 1 + |PrintCell(f, cells[0])|;
      Field(f, s, p + 1) == Got(cells[0].value, next)
      && At(s, next, PrintRest(f, cells[1..], e))
      && p + |PrintRest(f, cells, e)| == next + |PrintRest(f, cells[1..], e)|
  {
    hide Field, PrintCell, GoodCell, At, PrintEnding, Stops;
    var cell, rest := PrintCell(f, cells[0]), PrintRest(f, cells[1..], e);
    AtAppend(s, p, [f.separator], cell + rest);
    AtChar(s, p, [f.separator], 0);
    AtAppend(s, p + 1, cell, rest);
    RestStops(f, s, p + 1 + |cell|, cells[1..], e);
    CellRead(f, s, p + 1, cells[0]);
  }

  lemma LineRead(f: Format, s: string, p: nat, line: Line)
    requires Usable(f) && GoodLine(f, line)
    requires At(s, p, PrintLine(f, line)) && (line.ending == Eof ==> p + |PrintLine(f, line)| == |s|)
    ensures Record(f, s, p) == Got(Values(line.cells), p + |PrintLine(f, line)|)
  {
    hide Field, PrintCell, PrintRest, Fields;
    var cell, rest := PrintCell(f, line.cells[0]), PrintRest(f, line.cells[1..], line.ending);
    AtAppend(s, p, cell, rest);
    RestStops(f, s, p + |cell|, line.cells[1..], line.ending);
    CellRead(f, s, p, line.cells[0]);
    RestRead(f, s, p + |cell|, line.cells[1..], line.ending, [line.cells[0].value]);
    assert [line.cells[0].value] + Values(line.cells[1..]) == Values(line.cells);
  }

  lemma LineIsSomething(f: Format, line: Line)
    requires GoodLine(f, line) && (line.ending == Eof ==> line.cells != [Cell("", false)])
    ensures PrintLine(f, line) != ""
  {
    if |line.cells| == 1 { assert line.cells == [line.cells[0]]; }
  }

  lemma RecordStep(f: Format, s: string, p: nat, lines: seq<Line>)
    requires Usable(f) && GoodRecords(f, lines) && lines != []
    requires At(s, p, PrintRecords(f, lines)) && p + |PrintRecords(f, lines)| == |s|
    ensures var next := p + |PrintLine(f, lines[0])|;
      p < |s| && Record(f, s, p) == Got(Values(lines[0].cells), next)
      && At(s, next, PrintRecords(f, lines[1..])) && next + |PrintRecords(f, lines[1..])| == |s|
  {
    hide Record, PrintLine, GoodCells, At;
    AtAppend(s, p, PrintLine(f, lines[0]), PrintRecords(f, lines[1..]));
    LineIsSomething(f, lines[0]);
    LineRead(f, s, p, lines[0]);
  }

  lemma RowsTail(acc: seq<Row>, lines: seq<Line>)
    requires lines != []
    ensures acc + [Values(lines[0].cells)] + Rows(lines[1..]) == acc + Rows(lines)
  {
    hide Values;
  }

  /** Data records of the right width are read as they are. */
  lemma {:induction false} RecordsRead(f: Format, s: string, p: nat, lines: seq<Line>, width: nat, acc: seq<Row>)
    requires Usable(f) && GoodRecords(f, lines) && AllOfWidth(lines, width)
    requires At(s, p, PrintRecords(f, lines)) && p + |PrintRecords(f, lines)| == |s|
    ensures Records(f, s, p, width, acc) == Ok(acc + Rows(lines))
    decreases |lines|
  {
    hide Record, PrintLine, GoodCells, PrintRecords, At, Rows, Values;
    if lines == [] {
      PrintNothing(f);
      assert Rows(lines) == [] && acc + [] == acc;
    } else {
      RecordStep(f, s, p, lines);
      RecordsRead(f, s, p + |PrintLine(f, lines[0])|, lines[1..], width, acc + [Values(lines[0].cells)]);
      RowsTail(acc, lines);
    }
  }

  /** The first one of another width is named. */
  lemma {:induction false} RecordsRefused(f: Format, s: string, p: nat, lines: seq<Line>, width: nat, acc: seq<Row>,
                                          k: nat)
    requires Usable(f) && GoodRecords(f, lines)
    requires k < |lines| && |lines[k].cells| != width && AllOfWidth(lines[..k], width)
    requires At(s, p, PrintRecords(f, lines)) && p + |PrintRecords(f, lines)| == |s|
    ensures Records(f, s, p, width, acc) == Err(InRecord(WrongNumberOfFields, |acc| + k + 1))
    decreases |lines|
  {
    hide Record, PrintLine, GoodCells, PrintRecords, At;
    RecordStep(f, s, p, lines);
    if k > 0 {
      assert lines[..k][0] == lines[0];
      assert lines[1..][..k - 1] == lines[..k][1..];
      RecordsRefused(f, s, p + |PrintLine(f, lines[0])|, lines[1..], width, acc + [Values(lines[0].cells)], k - 1);
    }
  }

  lemma LoadParts(f: Format, lines: seq<Line>)
    requires Usable(f) && GoodFile(f, lines)
    ensures var s := PrintFile(f, lines);
      var next := |PrintLine(f, lines[0])|;
      next <= |s| && Record(f, s, 0) == Got(Values(lines[0].cells), next)
      && At(s, next, PrintRecords(f, lines[1..])) && next + |PrintRecords(f, lines[1..])| == |s|
  {
    hide PrintLine, PrintRecords, GoodCells;
    var s := PrintFile(f, lines);
    assert s[0..|s|] == s;
    AtAppend(s, 0, PrintLine(f, lines[0]), PrintRecords(f, lines[1..]));
    if lines[0].ending == Eof { assert PrintRecords(f, lines[1..]) == "" by { PrintNothing(f); } }
    LineRead(f, s, 0, lines[0]);
  }

  lemma PrintNothing(f: Format)
    ensures PrintRecords(f, []) == ""
  {
  }
}
