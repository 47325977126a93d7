/** What the CSV reader makes of the files of its grammar, and that it accepts no others. */
module CsvAccepted {
  import opened Wrappers
  import opened Text
  import opened Csv
  import opened CsvLayout

  /** Whatever is quoted, and whatever the line endings, a file with rows of one width gives exactly its header
      and rows; only a byte order mark is gone from the first header field. */
  lemma RoundTrip(f: Format, lines: seq<Line>)
    requires Usable(f) && GoodFile(f, lines) && AllOfWidth(lines, |lines[0].cells|)
    ensures Loaded(f, PrintFile(f, lines)) == Ok(Table(StripFirst(Values(lines[0].cells)), Rows(lines[1..])))
  {
    hide Record, Records, PrintLine, PrintRecords, PrintFile;
    LoadParts(f, lines);
    RecordsRead(f, PrintFile(f, lines), |PrintLine(f, lines[0])|, lines[1..], |lines[0].cells|, []);
    assert [] + Rows(lines[1..]) == Rows(lines[1..]);
  }

  /** A record of another width is refused under its number. */
  lemma WrongWidthRefused(f: Format, lines: seq<Line>, k: nat)
    requires Usable(f) && GoodFile(f, lines)
    requires 0 < k < |lines| && |lines[k].cells| != |lines[0].cells|
    requires AllOfWidth(lines[..k], |lines[0].cells|)
    ensures Loaded(f, PrintFile(f, lines)) == Err(InRecord(WrongNumberOfFields, k))
  {
    hide Record, Records, PrintLine, PrintRecords, PrintFile;
    LoadParts(f, lines);
    assert lines[1..][..k - 1] == lines[..k][1..];
    RecordsRefused(f, PrintFile(f, lines), |PrintLine(f, lines[0])|, lines[1..], |lines[0].cells|, [], k - 1);
  }

  // ---------- the byte order mark ----------

  predicate BomIsPlain(f: Format) {
    AllPlain(f, BOM)
  }

  /** A byte order mark before an unquoted first header field makes no difference. */
  lemma BomStripped(f: Format, lines: seq<Line>)
    requires Usable(f) && BomIsPlain(f) && GoodFile(f, lines) && AllOfWidth(lines, |lines[0].cells|)
    requires !lines[0].cells[0].quoted
    ensures Loaded(f, BOM + PrintFile(f, lines)) == Ok(Table(Values(lines[0].cells), Rows(lines[1..])))
  {
    hide Loaded, PrintRecords, GoodRecords, PrintRest;
    var cells := lines[0].cells;
    var marked := lines[0 := lines[0].(cells := cells[0 := Cell(BOM + cells[0].value, false)])];
    assert marked[1..] == lines[1..];
    assert marked[0].cells[1..] == cells[1..];
    assert GoodCell(f, cells[0]);
    assert PrintCell(f, marked[0].cells[0]) == BOM + PrintCell(f, cells[0]);
    RoundTrip(f, marked);
    assert PrintFile(f, marked) == BOM + PrintFile(f, lines);
    var got := Values(marked[0].cells);
    assert got[0][..3] == BOM && got[0][3..] == cells[0].value;
    assert StripFirst(got) == Values(cells);
  }

  /** Before a quoted one it is refused. */
  lemma BomBeforeQuoteRefused(f: Format, lines: seq<Line>)
    requires Usable(f) && BomIsPlain(f) && GoodFile(f, lines) && lines[0].cells[0].quoted
    ensures Loaded(f, BOM + PrintFile(f, lines)) == Err(InHeader(UnexpectedQuote))
  {
    hide PrintRecords, GoodRecords, PrintRest, Fields, Records;
    var s := BOM + PrintFile(f, lines);
    assert s[3] == f.quote;
    PlainStuck(f, s, 0, "");
  }

  lemma {:induction false} PlainStuck(f: Format, s: string, p: nat, acc: string)
    requires Usable(f) && BomIsPlain(f) && p <= 3 < |s| && s[..3] == BOM && s[3] == f.quote
    ensures Plain(f, s, p, acc) == Bad(UnexpectedQuote)
    ensures p == 0 ==> Field(f, s, p) == Plain(f, s, p, "")
    decreases 3 - p
  {
    if p < 3 {
      assert s[p] == s[..3][p] == BOM[p];
      PlainStuck(f, s, p + 1, acc + [s[p]]);
    }
  }

  // ---------- every file that is read belongs to the grammar ----------

  lemma AtOne(s: string, p: nat, w: string)
    requires At(s, p + 1, w) && p < |s|
    ensures At(s, p, [s[p]] + w)
  {
    assert At(s, p, [s[p]]);
    AtAppend(s, p, [s[p]], w);
  }

  lemma {:induction false} PlainFrom(f: Format, s: string, p: nat, acc: string) returns (w: string)
    requires p <= |s| && Plain(f, s, p, acc).Got?
    ensures Plain(f, s, p, acc) == Got(acc + w, p + |w|) && AllPlain(f, w) && At(s, p, w)
    decreases |s| - p
  {
    if Stops(f, s, p) {
      w := "";
      assert acc + w == acc;
    } else {
      var rest := PlainFrom(f, s, p + 1, acc + [s[p]]);
      w := [s[p]] + rest;
      AtOne(s, p, rest);
      assert acc + [s[p]] + rest == acc + w;
    }
  }

  lemma QuotedCons(f: Format, s: string, p: nat, rest: string)
    requires p < |s| && (s[p] == f.quote ==> p + 1 < |s| && s[p + 1] == f.quote)
    requires At(s, if s[p] == f.quote then p + 2 else p + 1, Doubled(f, rest) + [f.quote])
    ensures At(s, p, Doubled(f, [s[p]] + rest) + [f.quote])
    ensures |Doubled(f, [s[p]] + rest)| == |Doubled(f, rest)| + if s[p] == f.quote then 2 else 1
  {
    hide At, Doubled;
    var d := Doubled(f, rest) + [f.quote];
    DoubledCons(f, s[p], rest);
    if s[p] == f.quote {
      AtOne(s, p + 1, d);
      AtOne(s, p, [f.quote] + d);
      assert [f.quote] + ([f.quote] + d) == [f.quote, f.quote] + Doubled(f, rest) + [f.quote];
    } else {
      AtOne(s, p, d);
      assert [s[p]] + d == [s[p]] + Doubled(f, rest) + [f.quote];
    }
  }

  lemma QuoteAlone(f: Format, s: string, p: nat)
    requires p < |s| && s[p] == f.quote
    ensures At(s, p, Doubled(f, "") + [f.quote]) && |Doubled(f, "")| == 0
  {
    assert Doubled(f, "") + [f.quote] == [s[p]];
  }

  lemma {:induction false} QuotedFrom(f: Format, s: string, p: nat, acc: string) returns (w: string)
    requires p <= |s| && Quoted(f, s, p, acc).Got?
    ensures At(s, p, Doubled(f, w) + [f.quote])
    ensures Quoted(f, s, p, acc) == Got(acc + w, p + |Doubled(f, w)| + 1)
    decreases |s| - p
  {
    hide At, Doubled;
    if s[p] == f.quote && !(p + 1 < |s| && s[p + 1] == f.quote) {
      w := "";
      assert acc + w == acc;
      QuoteAlone(f, s, p);
    } else {
      var step := if s[p] == f.quote then 2 else 1;
      var rest := QuotedFrom(f, s, p + step, acc + [s[p]]);
      w := [s[p]] + rest;
      QuotedCons(f, s, p, rest);
      assert acc + [s[p]] + rest == acc + w;
    }
  }

  lemma CellFrom(f: Format, s: string, p: nat) returns (cell: Cell)
    requires p <= |s| && Field(f, s, p).Got?
    ensures GoodCell(f, cell) && At(s, p, PrintCell(f, cell))
    ensures Field(f, s, p) == Got(cell.value, p + |PrintCell(f, cell)|)
    ensures cell == Cell("", false) ==> Stops(f, s, p)
  {
    if EndOfRecord(s, p) {
      cell := Cell("", false);
    } else if s[p] == f.quote {
      var w := QuotedFrom(f, s, p + 1, "");
      assert "" + w == w;
      AtOne(s, p, Doubled(f, w) + [f.quote]);
      cell := Cell(w, true);
    } else {
      var w := PlainFrom(f, s, p, "");
      assert "" + w == w;
      cell := Cell(w, false);
    }
  }

  lemma NewlineFrom(s: string, p: nat) returns (e: Ending)
    requires p <= |s| && Newline(s, p).Got?
    ensures At(s, p, PrintEnding(e)) && Newline(s, p).next == p + |PrintEnding(e)| && (e == Eof <==> p == |s|)
  {
    e := if p == |s| then Eof else if s[p] == '\r' then CrLf else Lf;
  }

  lemma {:induction false} RestFrom(f: Format, s: string, p: nat, acc: Row) returns (cells: seq<Cell>, e: Ending)
    requires p <= |s| && Fields(f, s, p, acc).Got?
    ensures GoodCells(f, cells) && At(s, p, PrintRest(f, cells, e))
    ensures Fields(f, s, p, acc) == Got(acc + Values(cells), p + |PrintRest(f, cells, e)|)
    ensures e == Eof ==> p + |PrintRest(f, cells, e)| == |s|
    ensures e == Eof && p < |s| ==> cells != []
    decreases |s| - p
  {
    hide Field, PrintCell, Newline, PrintEnding, GoodCell, At, EndOfRecord, Values;
    if EndOfRecord(s, p) {
      cells := [];
      e := NewlineFrom(s, p);
      assert Values(cells) == [] && acc + [] == acc;
    } else {
      var cell := CellFrom(f, s, p + 1);
      var next := p + 1 + |PrintCell(f, cell)|;
      var rest;
      rest, e := RestFrom(f, s, next, acc + [cell.value]);
      cells := [cell] + rest;
      AtAppend(s, p + 1, PrintCell(f, cell), PrintRest(f, rest, e));
      AtOne(s, p, PrintCell(f, cell) + PrintRest(f, rest, e));
      ValuesCons(cell, rest);
      assert acc + [cell.value] + Values(rest) == acc + ([cell.value] + Values(rest));
      assert cells[0] == cell && cells[1..] == rest;
    }
  }

  lemma EmptyCell(f: Format)
    ensures PrintCell(f, Cell("", false)) == ""
  {
  }

  lemma LineFrom(f: Format, s: string, p: nat) returns (line: Line)
    requires p <= |s| && Record(f, s, p).Got?
    ensures GoodLine(f, line) && At(s, p, PrintLine(f, line))
    ensures Record(f, s, p) == Got(Values(line.cells), p + |PrintLine(f, line)|)
    ensures line.ending == Eof ==> p + |PrintLine(f, line)| == |s|
    ensures line.ending == Eof && p < |s| ==> line.cells != [Cell("", false)]
  {
    hide Field, PrintRest, Fields, GoodCell, At, PrintCell, EndOfRecord;
    var cell := CellFrom(f, s, p);
    var next := p + |PrintCell(f, cell)|;
    var rest, e := RestFrom(f, s, next, [cell.value]);
    line := Line([cell] + rest, e);
    assert line.cells[0] == cell && line.cells[1..] == rest;
    AtAppend(s, p, PrintCell(f, cell), PrintRest(f, rest, e));
    ValuesCons(cell, rest);
    if cell == Cell("", false) { EmptyCell(f); }
  }

  lemma {:induction false} RecordsFrom(f: Format, s: string, p: nat, width: nat, acc: seq<Row>)
      returns (lines: seq<Line>)
    requires p <= |s| && Records(f, s, p, width, acc).Ok?
    ensures GoodRecords(f, lines) && AllOfWidth(lines, width)
    ensures At(s, p, PrintRecords(f, lines)) && p + |PrintRecords(f, lines)| == |s|
    decreases |s| - p
  {
    hide Record, PrintLine, GoodCells;
    if p == |s| {
      lines := [];
    } else {
      var line := LineFrom(f, s, p);
      var next := p + |PrintLine(f, line)|;
      var rest := RecordsFrom(f, s, next, width, acc + [Values(line.cells)]);
      lines := [line] + rest;
      assert lines[1..] == rest;
      if line.ending == Eof { NothingLeft(f, s, next, rest); }
      AtAppend(s, p, PrintLine(f, line), PrintRecords(f, rest));
    }
  }

  lemma NothingLeft(f: Format, s: string, p: nat, lines: seq<Line>)
    requires p == |s| && GoodRecords(f, lines) && p + |PrintRecords(f, lines)| == |s|
    ensures lines == []
  {
    if lines != [] { LineIsSomething(f, lines[0]); }
  }

  /** The lines are a way of writing rows of one width as this text. */
  ghost predicate Writes(f: Format, lines: seq<Line>, s: string) {
    GoodFile(f, lines) && AllOfWidth(lines, |lines[0].cells|) && PrintFile(f, lines) == s
  }

  /** The grammar is exact: a text is read if and only if it is a way of writing rows of one width. */
  lemma AcceptedIff(f: Format, s: string)
    requires Usable(f)
    ensures Loaded(f, s).Ok? <==>
      exists lines :: Writes(f, lines, s)
  {
    hide GoodCells, PrintLine, PrintRecords, Record, Records;
    if Loaded(f, s).Ok? {
      var header := LineFrom(f, s, 0);
      var next := |PrintLine(f, header)|;
      var rest := RecordsFrom(f, s, next, |header.cells|, []);
      var lines := [header] + rest;
      assert lines[1..] == rest;
      if header.ending == Eof { NothingLeft(f, s, next, rest); }
      AtAppend(s, 0, PrintLine(f, header), PrintRecords(f, rest));
      assert s[0..|s|] == s;
      assert Writes(f, lines, s);
    }
    if lines :| Writes(f, lines, s) {
      RoundTrip(f, lines);
    }
  }

  /** Whatever was accepted, all rows are as wide as the header. */
  lemma RowsAsWideAsHeader(f: Format, s: string)
    requires Loaded(f, s).Ok?
    ensures Loaded(f, s).value.header != []
    ensures forall i | 0 <= i < |Loaded(f, s).value.data| :: |Loaded(f, s).value.data[i]| == |Loaded(f, s).value.header|
  {
    hide Record, Records;
    var header := Record(f, s, 0);
    RecordWidth(f, s, 0);
    RecordsWidth(f, s, header.next, |header.value|, []);
  }

  lemma RecordWidth(f: Format, s: string, p: nat)
    requires p <= |s| && Record(f, s, p).Got?
    ensures Record(f, s, p).value != []
  {
    hide Record;
    var line := LineFrom(f, s, p);
  }

  lemma {:induction false} RecordsWidth(f: Format, s: string, p: nat, width: nat, acc: seq<Row>)
    requires p <= |s| && Records(f, s, p, width, acc).Ok?
    requires forall i | 0 <= i < |acc| :: |acc[i]| == width
    ensures forall i | 0 <= i < |Records(f, s, p, width, acc).value| :: |Records(f, s, p, width, acc).value[i]| == width
    decreases |s| - p
  {
    hide Record;
    if p < |s| {
      var r := Record(f, s, p);
      RecordsWidth(f, s, r.next, width, acc + [r.value]);
    }
  }
}
