/** Why the CSV reader refuses a file, and under which record number. */
module CsvRefused {
  import opened Csv
  import opened CsvAccepted
  import opened CsvLayout
  import opened Text
  import opened Wrappers

  /** What can be wrong with the cell that comes next: a quote in a plain value, a quoted value without an end, a
      character after the closing quote, a carriage return alone, or another number of cells than in the header. */
  datatype Fault =
    | StrayQuote(value: string, rest: string)
    | Unclosed(value: string)
    | AfterQuote(value: string, c: char, rest: string)
    | LoneReturn(cell: Cell, rest: string)
    | OtherWidth(cell: Cell, ending: Ending, rest: string)

  function PrintFault(f: Format, fault: Fault): string {
    match fault
    case StrayQuote(w, rest) => w + [f.quote] + rest
    case Unclosed(w) => [f.quote] + Doubled(f, w)
    case AfterQuote(w, c, rest) => PrintCell(f, Cell(w, true)) + [c] + rest
    case LoneReturn(cell, rest) => PrintCell(f, cell) + "\r" + rest
    case OtherWidth(cell, ending, rest) => PrintCell(f, cell) + PrintEnding(ending) + rest
  }

  /** `before` is the number of cells that come before it in the record, `width` that of the header. */
  predicate GoodFault(f: Format, fault: Fault, before: nat, width: nat) {
    match fault
    case StrayQuote(w, _) => w != "" && AllPlain(f, w)
    case Unclosed(_) => true
    case AfterQuote(_, c, _) => PlainChar(f, c)
    case LoneReturn(cell, rest) => GoodCell(f, cell) && (rest == "" || rest[0] != '\n')
    case OtherWidth(cell, ending, rest) =>
      GoodCell(f, cell) && before + 1 != width
          && (ending == Eof ==> rest == "" && (before > 0 || cell != Cell("", false)))
  }

  function ErrorOf(fault: Fault): Error {
    match fault
    case StrayQuote(_, _) => UnexpectedQuote
    case Unclosed(_) => UnexpectedEnd
    case AfterQuote(_, c, _) => ExpectedSeparator(c)
    case LoneReturn(_, _) => LineEnding
    case OtherWidth(_, _, _) => WrongNumberOfFields
  }

  /** Each cell with the separator after it. */
  function PrintEach(f: Format, cells: seq<Cell>): string {
    if cells == [] then "" else PrintCell(f, cells[0]) + ([f.separator] + PrintEach(f, cells[1..]))
  }

  predicate Ended(f: Format, lines: seq<Line>) {
    forall i | 0 <= i < |lines| :: GoodLine(f, lines[i]) && lines[i].ending != Eof
  }

  function PrintLines(f: Format, lines: seq<Line>): string
    requires Ended(f, lines)
  {
    if lines == [] then "" else PrintLine(f, lines[0]) + PrintLines(f, lines[1..])
  }

  // ---------- a record with a fault ----------

  /** A field and the rest of the record. */
  function More(f: Format, s: string, p: nat, acc: Row): Outcome<Row>
    requires p <= |s|
  {
    match Field(f, s, p)
    case Got(value, next) => Fields(f, s, next, acc + [value])
    case Bad(e) => Bad(e)
  }

  lemma RecordIsMore(f: Format, s: string, p: nat)
    requires p <= |s|
    ensures Record(f, s, p) == More(f, s, p, [])
  {
    hide Field, Fields;
    if Field(f, s, p).Got? { assert [] + [Field(f, s, p).value] == [Field(f, s, p).value]; }
  }

  lemma {:induction false} CellsPassed(f: Format, s: string, p: nat, cells: seq<Cell>, acc: Row)
    requires Usable(f) && GoodCells(f, cells) && At(s, p, PrintEach(f, cells))
    ensures p + |PrintEach(f, cells)| <= |s|
    ensures More(f, s, p, acc) == More(f, s, p + |PrintEach(f, cells)|, acc + Values(cells))
    decreases |cells|
  {
    hide Field, PrintCell, GoodCell, At, Values;
    AtFits(s, p, PrintEach(f, cells));
    if cells == [] {
      assert acc + Values(cells) == acc;
    } else {
      var cell, rest := PrintCell(f, cells[0]), PrintEach(f, cells[1..]);
      var next := p + |cell|;
      AtAppend(s, p, cell, [f.separator] + rest);
      AtAppend(s, next, [f.separator], rest);
      AtChar(s, next, [f.separator], 0);
      CellRead(f, s, p, cells[0]);
      CellsPassed(f, s, next + 1, cells[1..], acc + [cells[0].value]);
      ValuesCons(cells[0], cells[1..]);
      assert cells == [cells[0]] + cells[1..];
      assert acc + [cells[0].value] + Values(cells[1..]) == acc + Values(cells);
    }
  }

  lemma {:induction false} PlainMeetsQuote(f: Format, s: string, p: nat, w: string, acc: string)
    requires Usable(f) && AllPlain(f, w) && At(s, p, w + [f.quote])
    ensures p <= |s| && Plain(f, s, p, acc) == Bad(UnexpectedQuote)
    decreases |w|
  {
    AtChar(s, p, w + [f.quote], 0);
    if w != "" {
      AtSlice(s, p, w + [f.quote], 1, |w| + 1);
      assert (w + [f.quote])[1..|w| + 1] == w[1..] + [f.quote];
      PlainMeetsQuote(f, s, p + 1, w[1..], acc + [w[0]]);
    }
  }

  lemma {:induction false} NeverClosed(f: Format, s: string, p: nat, w: string, acc: string)
    requires At(s, p, Doubled(f, w)) && p + |Doubled(f, w)| == |s|
    ensures Quoted(f, s, p, acc) == Bad(UnexpectedEnd)
    decreases |w|
  {
    hide At, Doubled;
    if w == "" {
      NothingDoubled(f);
    } else {
      var first, rest := if w[0] == f.quote then [f.quote, f.quote] else [w[0]], Doubled(f, w[1..]);
      assert w == [w[0]] + w[1..];
      DoubledCons(f, w[0], w[1..]);
      AtAppend(s, p, first, rest);
      AtChar(s, p, first, 0);
      AtChar(s, p, first, |first| - 1);
      NeverClosed(f, s, p + |first|, w[1..], acc + [w[0]]);
    }
  }

  lemma NothingDoubled(f: Format)
    ensures Doubled(f, "") == ""
  {
  }

  lemma FaultMet(f: Format, s: string, p: nat, fault: Fault, acc: Row, width: nat)
    requires Usable(f) && GoodFault(f, fault, |acc|, width)
    requires At(s, p, PrintFault(f, fault)) && p + |PrintFault(f, fault)| == |s|
    ensures var r := More(f, s, p, acc);
      if fault.OtherWidth? then r.Got? && |r.value| != width else r == Bad(ErrorOf(fault))
  {
    hide At, PrintCell, GoodCell, Doubled, Field, Newline, PrintEnding, Stops, Plain, Quoted;
    match fault
    case StrayQuote(w, rest) =>
      AtAppend(s, p, w + [f.quote], rest);
      AtChar(s, p, w + [f.quote], 0);
      PlainMeetsQuote(f, s, p, w, "");
      PlainField(f, s, p);
    case Unclosed(w) =>
      AtAppend(s, p, [f.quote], Doubled(f, w));
      AtChar(s, p, [f.quote], 0);
      NeverClosed(f, s, p + 1, w, "");
      QuotedField(f, s, p);
    case AfterQuote(w, c, rest) =>
      var cell := PrintCell(f, Cell(w, true));
      AtThree(s, p, cell, [c], rest);
      AtChar(s, p + |cell|, [c], 0);
      QuotedCell(f, s, p, w);
    case LoneReturn(cell, rest) =>
      var q := p + |PrintCell(f, cell)|;
      AtThree(s, p, PrintCell(f, cell), "\r", rest);
      AtChar(s, q, "\r", 0);
      if rest != "" { AtChar(s, q + 1, rest, 0); }
      ReturnStops(f, s, q);
      CellRead(f, s, p, cell);
    case OtherWidth(cell, ending, rest) =>
      AtThree(s, p, PrintCell(f, cell), PrintEnding(ending), rest);
      var q := p + |PrintCell(f, cell)|;
      EndingLength(s, q, ending);
      EndingRead(s, q, ending);
      EndStops(f, s, q);
      CellRead(f, s, p, cell);
  }

  lemma EndingLength(s: string, q: nat, ending: Ending)
    ensures |PrintEnding(ending)| == 0 <==> ending == Eof
  {
  }

  lemma EndStops(f: Format, s: string, q: nat)
    requires EndOfRecord(s, q)
    ensures Stops(f, s, q)
  {
  }

  lemma ReturnStops(f: Format, s: string, q: nat)
    requires q < |s| && s[q] == '\r' && (q + 1 < |s| ==> s[q + 1] != '\n')
    ensures Stops(f, s, q) && Newline(s, q) == Bad(LineEnding)
  {
  }

  lemma PlainField(f: Format, s: string, p: nat)
    requires p < |s| && PlainChar(f, s[p])
    ensures Field(f, s, p) == Plain(f, s, p, "")
  {
  }

  lemma QuotedField(f: Format, s: string, p: nat)
    requires Usable(f) && p < |s| && s[p] == f.quote
    ensures Field(f, s, p) == Quoted(f, s, p + 1, "")
  {
  }

  lemma QuotedCell(f: Format, s: string, p: nat, w: string)
    requires Usable(f) && At(s, p, PrintCell(f, Cell(w, true)))
    requires var e := p + |PrintCell(f, Cell(w, true))|; e >= |s| || s[e] != f.quote
    ensures p <= |s| && Field(f, s, p) == Got(w, p + |PrintCell(f, Cell(w, true))|)
  {
    var d := Doubled(f, w) + [f.quote];
    AtChar(s, p, [f.quote] + d, 0);
    AtAppend(s, p, [f.quote], d);
    QuotedRead(f, s, p + 1, w, "");
    assert "" + w == w;
  }

  // ---------- the records before it ----------

  lemma LinePassed(f: Format, s: string, p: nat, line: Line)
    requires Usable(f) && GoodLine(f, line) && line.ending != Eof && At(s, p, PrintLine(f, line))
    ensures p < |s| && Record(f, s, p) == Got(Values(line.cells), p + |PrintLine(f, line)|)
  {
    hide Record, PrintLine;
    LineIsSomething(f, line);
    LineRead(f, s, p, line);
  }

  lemma {:induction false} LinesPassed(f: Format, s: string, p: nat, lines: seq<Line>, width: nat, acc: seq<Row>)
    requires Usable(f) && Ended(f, lines) && AllOfWidth(lines, width) && At(s, p, PrintLines(f, lines))
    ensures p + |PrintLines(f, lines)| <= |s|
    ensures Records(f, s, p, width, acc) == Records(f, s, p + |PrintLines(f, lines)|, width, acc + Rows(lines))
    decreases |lines|
  {
    hide Record, PrintLine, GoodCells, At, Rows, Values;
    AtFits(s, p, PrintLines(f, lines));
    if lines == [] {
      assert acc + Rows(lines) == acc;
    } else {
      AtAppend(s, p, PrintLine(f, lines[0]), PrintLines(f, lines[1..]));
      LinePassed(f, s, p, lines[0]);
      LinesPassed(f, s, p + |PrintLine(f, lines[0])|, lines[1..], width, acc + [Values(lines[0].cells)]);
      RowsTail(acc, lines);
    }
  }

  /** Records as they should be, and then one with a fault. */
  predicate Faulty(f: Format, lines: seq<Line>, cells: seq<Cell>, fault: Fault) {
    && Ended(f, lines) && (lines != [] ==> AllOfWidth(lines, |lines[0].cells|)) && GoodCells(f, cells)
    && GoodFault(f, fault, |cells|, if lines == [] then |cells| + 1 else |lines[0].cells|)
  }

  function PrintFaulty(f: Format, lines: seq<Line>, cells: seq<Cell>, fault: Fault): string
    requires Ended(f, lines)
  {
    PrintLines(f, lines) + PrintEach(f, cells) + PrintFault(f, fault)
  }

  /** Behind records that are as they should be, a record with a fault makes the load fail: with the error that
      goes with the fault, in the header, or in the record with its number. What follows is not looked at. */
  lemma FaultRefused(f: Format, lines: seq<Line>, cells: seq<Cell>, fault: Fault)
    requires Usable(f) && Faulty(f, lines, cells, fault)
    ensures Loaded(f, PrintFaulty(f, lines, cells, fault))
         == Err(if lines == [] then InHeader(ErrorOf(fault)) else InRecord(ErrorOf(fault), |lines|))
  {
    hide PrintFault, PrintEach, GoodCells, PrintLine, GoodCell, Record, More, Records, At;
    var s := PrintFaulty(f, lines, cells, fault);
    var p := |PrintLines(f, lines)|;
    var q := p + |PrintEach(f, cells)|;
    AtWhole(s);
    AtThree(s, 0, PrintLines(f, lines), PrintEach(f, cells), PrintFault(f, fault));
    CellsPassed(f, s, p, cells, []);
    assert [] + Values(cells) == Values(cells);
    FaultMet(f, s, q, fault, Values(cells), if lines == [] then |cells| + 1 else |lines[0].cells|);
    RecordIsMore(f, s, p);
    if lines != [] {
      FaultIsSomething(f, fault, |cells|, |lines[0].cells|, |PrintEach(f, cells)|, cells);
      HeaderPassed(f, s, lines);
      LastRecord(f, s, p, |lines[0].cells|, Rows(lines[1..]), fault);
    }
  }

  /** There is a record at all. */
  lemma FaultIsSomething(f: Format, fault: Fault, before: nat, width: nat, length: nat, cells: seq<Cell>)
    requires GoodFault(f, fault, before, width) && before == |cells| && length == |PrintEach(f, cells)|
    ensures length + |PrintFault(f, fault)| > 0
  {
    hide PrintCell;
    if fault.OtherWidth? && cells == [] && fault.ending == Eof { NotEmpty(f, fault.cell); }
  }

  lemma NotEmpty(f: Format, cell: Cell)
    requires cell != Cell("", false)
    ensures PrintCell(f, cell) != ""
  {
  }

  lemma HeaderPassed(f: Format, s: string, lines: seq<Line>)
    requires Usable(f) && Ended(f, lines) && lines != [] && AllOfWidth(lines, |lines[0].cells|)
    requires At(s, 0, PrintLines(f, lines))
    ensures |PrintLines(f, lines)| <= |s|
    ensures var header, p := Record(f, s, 0), |PrintLines(f, lines)|;
      header.Got? && |header.value| == |lines[0].cells|
      && Records(f, s, header.next, |header.value|, []) == Records(f, s, p, |header.value|, Rows(lines[1..]))
  {
    hide Record, PrintLine, GoodCells, At, Records, Values, Rows;
    assert AllOfWidth(lines[1..], |lines[0].cells|) && Ended(f, lines[1..]);
    AtAppend(s, 0, PrintLine(f, lines[0]), PrintLines(f, lines[1..]));
    LinePassed(f, s, 0, lines[0]);
    LinesPassed(f, s, |PrintLine(f, lines[0])|, lines[1..], |lines[0].cells|, []);
    assert [] + Rows(lines[1..]) == Rows(lines[1..]);
  }

  lemma LastRecord(f: Format, s: string, p: nat, width: nat, acc: seq<Row>, fault: Fault)
    requires p < |s|
    requires var r := Record(f, s, p);
      if fault.OtherWidth? then r.Got? && |r.value| != width else r == Bad(ErrorOf(fault))
    ensures Records(f, s, p, width, acc) == Err(InRecord(ErrorOf(fault), |acc| + 1))
  {
    hide Record;
  }

  // ---------- there is no other reason ----------

  lemma {:induction false} NoClosingQuote(f: Format, s: string, p: nat, acc: string) returns (w: string)
    requires p <= |s| && Quoted(f, s, p, acc).Bad?
    ensures ToEnd(s, p, Doubled(f, w))
    decreases |s| - p
  {
    hide Doubled;
    NothingDoubled(f);
    if p == |s| {
      w := "";
    } else {
      var step := if s[p] == f.quote then 2 else 1;
      var first := if s[p] == f.quote then [f.quote, f.quote] else [s[p]];
      var rest := NoClosingQuote(f, s, p + step, acc + [s[p]]);
      w := [s[p]] + rest;
      DoubledCons(f, s[p], rest);
      assert At(s, p, first);
      ToEndSplit(s, p, first, Doubled(f, rest));
    }
  }

  lemma {:induction false} QuoteInside(f: Format, s: string, p: nat, acc: string) returns (w: string)
    requires p <= |s| && Plain(f, s, p, acc).Bad?
    ensures AllPlain(f, w) && At(s, p, w + [f.quote])
    decreases |s| - p
  {
    if s[p] == f.quote {
      w := "";
      assert w + [f.quote] == [s[p]];
    } else {
      var rest := QuoteInside(f, s, p + 1, acc + [s[p]]);
      w := [s[p]] + rest;
      AtOne(s, p, rest + [f.quote]);
      assert [s[p]] + (rest + [f.quote]) == w + [f.quote];
    }
  }

  lemma Remainder(s: string, p: nat, w: string)
    requires At(s, p, w)
    ensures p + |w| <= |s| && ToEnd(s, p, w + s[p + |w|..])
  {
    assert s[p..] == w + s[p + |w|..];
    assert s[p..p + |w + s[p + |w|..]|] == s[p..];
  }

  lemma FieldFault(f: Format, s: string, p: nat, n: nat, width: nat) returns (fault: Fault)
    requires p <= |s| && Field(f, s, p).Bad?
    ensures !fault.OtherWidth? && GoodFault(f, fault, n, width) && ToEnd(s, p, PrintFault(f, fault))
  {
    hide At, Doubled;
    if s[p] == f.quote {
      var w := NoClosingQuote(f, s, p + 1, "");
      AtOne(s, p, Doubled(f, w));
      fault := Unclosed(w);
    } else {
      var w := QuoteInside(f, s, p, "");
      AtChar(s, p, w + [f.quote], 0);
      Remainder(s, p, w + [f.quote]);
      fault := StrayQuote(w, s[p + |w + [f.quote]|..]);
    }
  }

  lemma CellEnds(f: Format, s: string, p: nat) returns (cell: Cell)
    requires p <= |s| && Field(f, s, p).Got?
    ensures GoodCell(f, cell) && At(s, p, PrintCell(f, cell))
    ensures Field(f, s, p) == Got(cell.value, p + |PrintCell(f, cell)|)
    ensures var q := p + |PrintCell(f, cell)|; q <= |s| && (Stops(f, s, q) || (cell.quoted && s[q] != f.quote))
  {
    hide At, PrintCell;
    cell := CellFrom(f, s, p);
    AtFits(s, p, PrintCell(f, cell));
    FieldStops(f, s, p, cell);
  }

  lemma FieldStops(f: Format, s: string, p: nat, cell: Cell)
    requires p <= |s| && Field(f, s, p).Got? && At(s, p, PrintCell(f, cell)) && GoodCell(f, cell)
    requires Field(f, s, p).next == p + |PrintCell(f, cell)|
    ensures var q := Field(f, s, p).next; Stops(f, s, q) || (cell.quoted && s[q] != f.quote)
  {
    var q := Field(f, s, p).next;
    if EndOfRecord(s, p) {
      assert Stops(f, s, q);
    } else if s[p] == f.quote {
      QuotedStops(f, s, p + 1, "");
      if !cell.quoted { AtChar(s, p, cell.value, 0); }
    } else {
      PlainStops(f, s, p, "");
    }
  }

  lemma {:induction false} QuotedStops(f: Format, s: string, p: nat, acc: string)
    requires p <= |s| && Quoted(f, s, p, acc).Got?
    ensures var q := Quoted(f, s, p, acc).next; q >= |s| || s[q] != f.quote
    decreases |s| - p
  {
    if s[p] != f.quote {
      QuotedStops(f, s, p + 1, acc + [s[p]]);
    } else if p + 1 < |s| && s[p + 1] == f.quote {
      QuotedStops(f, s, p + 2, acc + [f.quote]);
    }
  }

  lemma {:induction false} PlainStops(f: Format, s: string, p: nat, acc: string)
    requires p <= |s| && Plain(f, s, p, acc).Got?
    ensures Stops(f, s, Plain(f, s, p, acc).next)
    decreases |s| - p
  {
    if !Stops(f, s, p) { PlainStops(f, s, p + 1, acc + [s[p]]); }
  }

  /** What is wrong with a record that cannot be read. */
  lemma {:induction false} FaultIn(f: Format, s: string, p: nat, acc: Row, width: nat)
      returns (cells: seq<Cell>, fault: Fault)
    requires p <= |s| && More(f, s, p, acc).Bad?
    ensures GoodCells(f, cells) && GoodFault(f, fault, |cells|, width) && !fault.OtherWidth?
    ensures ToEnd(s, p, PrintEach(f, cells) + PrintFault(f, fault))
    decreases |s| - p
  {
    hide Field, At, PrintCell, GoodCell, PrintFault, GoodFault, Newline;
    cells := [];
    if Field(f, s, p).Bad? {
      fault := FieldFault(f, s, p, 0, width);
      assert PrintEach(f, []) + PrintFault(f, fault) == PrintFault(f, fault);
    } else {
      var cell := CellEnds(f, s, p);
      var q := p + |PrintCell(f, cell)|;
      if !Stops(f, s, q) || EndOfRecord(s, q) {
        fault := FaultAfter(f, s, p, cell, width);
        assert PrintEach(f, []) + PrintFault(f, fault) == PrintFault(f, fault);
      } else {
        SeparatorAt(f, s, q);
        var rest;
        rest, fault := FaultIn(f, s, q + 1, acc + [cell.value], width);
        cells := [cell] + rest;
        AnyWidth(f, fault, |rest|, width, |cells|, width);
        ThenCell(f, s, p, cell, rest, PrintFault(f, fault));
      }
    }
  }

  /** Only the last fault depends on what came before. */
  lemma AnyWidth(f: Format, fault: Fault, n: nat, width: nat, m: nat, other: nat)
    requires GoodFault(f, fault, n, width) && !fault.OtherWidth?
    ensures GoodFault(f, fault, m, other)
  {
  }

  lemma SeparatorAt(f: Format, s: string, q: nat)
    requires Stops(f, s, q) && !EndOfRecord(s, q)
    ensures q < |s| && s[q] == f.separator
  {
  }

  lemma ThenCell(f: Format, s: string, p: nat, cell: Cell, rest: seq<Cell>, w: string)
    requires At(s, p, PrintCell(f, cell)) && ToEnd(s, p + |PrintCell(f, cell)| + 1, PrintEach(f, rest) + w)
    requires p + |PrintCell(f, cell)| < |s| && s[p + |PrintCell(f, cell)|] == f.separator
    ensures ToEnd(s, p, PrintEach(f, [cell] + rest) + w)
  {
    hide At, PrintCell;
    var a, b := PrintCell(f, cell), PrintEach(f, rest) + w;
    AtOne(s, p + |a|, b);
    ToEndSplit(s, p, a, [f.separator] + b);
    assert ([cell] + rest)[1..] == rest;
    assert a + ([f.separator] + PrintEach(f, rest)) + w == a + ([f.separator] + b);
  }

  /** Behind a cell that is no fault itself. */
  lemma FaultAfter(f: Format, s: string, p: nat, cell: Cell, width: nat) returns (fault: Fault)
    requires p <= |s| && GoodCell(f, cell) && At(s, p, PrintCell(f, cell))
    requires var q := p + |PrintCell(f, cell)|;
      q <= |s| && (Stops(f, s, q) || (cell.quoted && s[q] != f.quote))
      && if EndOfRecord(s, q) then Newline(s, q).Bad? else s[q] != f.separator
    ensures !fault.OtherWidth? && GoodFault(f, fault, 0, width) && ToEnd(s, p, PrintFault(f, fault))
  {
    hide At, PrintCell;
    var a := PrintCell(f, cell);
    var q := p + |a|;
    AtNext(s, p, a);
    Remainder(s, p, a + [s[q]]);
    if EndOfRecord(s, q) {
      fault := LoneReturn(cell, s[q + 1..]);
      assert [s[q]] == "\r";
    } else {
      fault := AfterQuote(cell.value, s[q], s[q + 1..]);
      assert cell == Cell(cell.value, true);
    }
  }

  lemma AtNext(s: string, p: nat, a: string)
    requires At(s, p, a) && p + |a| < |s|
    ensures At(s, p, a + [s[p + |a|]])
  {
    assert s[p..p + |a| + 1] == s[p..p + |a|] + [s[p + |a|]];
  }

  lemma {:induction false} LineSplit(f: Format, cells: seq<Cell>, e: Ending)
    requires cells != []
    ensures PrintLine(f, Line(cells, e))
         == PrintEach(f, cells[..|cells| - 1]) + (PrintCell(f, cells[|cells| - 1]) + PrintEnding(e))
    decreases |cells|
  {
    hide PrintCell, PrintEnding;
    var n := |cells| - 1;
    if n == 0 {
      assert PrintRest(f, cells[1..], e) == PrintEnding(e);
    } else {
      var rest := cells[1..];
      LineSplit(f, rest, e);
      assert rest[..n - 1] == cells[..n][1..] && rest[n - 1] == cells[n] && cells[..n][0] == cells[0];
      var last := PrintCell(f, cells[n]) + PrintEnding(e);
      assert PrintRest(f, rest, e) == [f.separator] + (PrintEach(f, rest[..n - 1]) + last);
    }
  }

  lemma WidthFault(f: Format, s: string, p: nat, line: Line, width: nat) returns (cells: seq<Cell>, fault: Fault)
    requires GoodLine(f, line) && At(s, p, PrintLine(f, line)) && |line.cells| != width
    requires line.ending == Eof ==> p + |PrintLine(f, line)| == |s| && line.cells != [Cell("", false)]
    ensures GoodCells(f, cells) && GoodFault(f, fault, |cells|, width)
    ensures ToEnd(s, p, PrintEach(f, cells) + PrintFault(f, fault))
  {
    hide At, PrintCell, GoodCell, PrintLine;
    var n := |line.cells| - 1;
    var w := PrintLine(f, line);
    cells := line.cells[..n];
    AtFits(s, p, w);
    fault := OtherWidth(line.cells[n], line.ending, s[p + |w|..]);
    LineSplit(f, line.cells, line.ending);
    Remainder(s, p, w);
    if n == 0 { assert line.cells == [line.cells[0]]; }
    var last := PrintCell(f, line.cells[n]) + PrintEnding(line.ending);
    assert PrintEach(f, cells) + (last + s[p + |w|..]) == w + s[p + |w|..];
  }

  lemma {:induction false} FaultAmong(f: Format, s: string, p: nat, width: nat, acc: seq<Row>)
      returns (lines: seq<Line>, cells: seq<Cell>, fault: Fault)
    requires p <= |s| && Records(f, s, p, width, acc).Err?
    ensures Ended(f, lines) && AllOfWidth(lines, width) && GoodCells(f, cells) && GoodFault(f, fault, |cells|, width)
    ensures ToEnd(s, p, PrintLines(f, lines) + (PrintEach(f, cells) + PrintFault(f, fault)))
    decreases |s| - p
  {
    hide Record, At, PrintLine, GoodCells, GoodFault, PrintEach, PrintFault, More;
    lines := [];
    if Record(f, s, p).Bad? {
      RecordIsMore(f, s, p);
      cells, fault := FaultIn(f, s, p, [], width);
      assert "" + (PrintEach(f, cells) + PrintFault(f, fault)) == PrintEach(f, cells) + PrintFault(f, fault);
    } else {
      var line := LineFrom(f, s, p);
      if |line.cells| != width {
        cells, fault := WidthFault(f, s, p, line, width);
        assert "" + (PrintEach(f, cells) + PrintFault(f, fault)) == PrintEach(f, cells) + PrintFault(f, fault);
      } else {
        var rest;
        rest, cells, fault := FaultAmong(f, s, p + |PrintLine(f, line)|, width, acc + [Values(line.cells)]);
        lines := [line] + rest;
        assert lines[1..] == rest;
        var w := PrintEach(f, cells) + PrintFault(f, fault);
        ToEndSplit(s, p, PrintLine(f, line), PrintLines(f, rest) + w);
        assert PrintLine(f, line) + (PrintLines(f, rest) + w) == PrintLines(f, lines) + w;
      }
    }
  }

  ghost predicate HasFault(f: Format, s: string) {
    exists lines, cells, fault :: Faulty(f, lines, cells, fault) && PrintFaulty(f, lines, cells, fault) == s
  }

  lemma FaultFound(f: Format, s: string)
    requires Loaded(f, s).Err?
    ensures HasFault(f, s)
  {
    hide Record, At, PrintLine, GoodCells, GoodFault, PrintEach, PrintFault, More, Records;
    if Record(f, s, 0).Bad? {
      RecordIsMore(f, s, 0);
      var cells, fault := FaultIn(f, s, 0, [], 0);
      AnyWidth(f, fault, |cells|, 0, |cells|, |cells| + 1);
      ToEndFromStart(s, PrintEach(f, cells) + PrintFault(f, fault));
      assert "" + PrintEach(f, cells) + PrintFault(f, fault) == PrintEach(f, cells) + PrintFault(f, fault);
      assert Faulty(f, [], cells, fault) && PrintFaulty(f, [], cells, fault) == s;
    } else {
      var header := LineFrom(f, s, 0);
      var p := |PrintLine(f, header)|;
      var rest, cells, fault := FaultAmong(f, s, p, |header.cells|, []);
      var lines, w := [header] + rest, PrintEach(f, cells) + PrintFault(f, fault);
      assert lines[1..] == rest;
      NotAtEnd(f, s, p, header);
      ToEndSplit(s, 0, PrintLine(f, header), PrintLines(f, rest) + w);
      ToEndFromStart(s, PrintLine(f, header) + (PrintLines(f, rest) + w));
      assert PrintFaulty(f, lines, cells, fault) == s;
      assert Faulty(f, lines, cells, fault);
    }
  }

  /** Records follow, so the header has a line ending. */
  lemma NotAtEnd(f: Format, s: string, p: nat, header: Line)
    requires p <= |s| && Records(f, s, p, |header.cells|, []).Err? && (header.ending == Eof ==> p == |s|)
    ensures header.ending != Eof
  {
    hide Record;
  }

  /** A file is refused if and only if it is written like that, up to some record with one of the five faults. */
  lemma RefusedIff(f: Format, s: string)
    requires Usable(f)
    ensures Loaded(f, s).Err? <==> HasFault(f, s)
  {
    hide Loaded, PrintFaulty, GoodFault, Ended, AllOfWidth, GoodCells;
    if Loaded(f, s).Err? { FaultFound(f, s); }
    if HasFault(f, s) {
      var lines, cells, fault :| Faulty(f, lines, cells, fault) && PrintFaulty(f, lines, cells, fault) == s;
      FaultRefused(f, lines, cells, fault);
    }
  }
}
