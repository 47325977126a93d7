/** The places that the configuration parser reports for texts that are written as rows. */
module ConfigRows {
  import opened Wrappers
  import opened Text
  import opened Config
  import opened ConfigLayout
  import opened ConfigPlaces
  import ConfigAccepted

  function CrRows(rows: seq<Row>): nat {
    if rows == [] then 0 else (if rows[0].ending == Cr then 1 else 0) + CrRows(rows[1..])
  }

  // ---------- the last character of a row ----------

  predicate NoCrLast(w: string) {
    w != "" ==> w[|w| - 1] != '\r'
  }

  lemma LastJoin(a: string, b: string)
    requires NoCrLast(a) && NoCrLast(b)
    ensures NoCrLast(a + b)
  {
  }

  lemma AllNoCr(w: string, keep: char -> bool)
    requires All(w, keep) && !keep('\r')
    ensures NoCrLast(w)
  {
  }

  lemma ShapeLast(v: Shape)
    requires GoodShape(v)
    ensures NoCrLast(PrintShape(v))
  {
    hide All, NoCrLast, GoodMulti;
    AllNoCr(v.trail, IsBlank);
    match v
    case Single(text, trail) =>
      AllNoCr(text, InSingleValue);
      LastJoin(text, trail);
    case Multi(text, trail) =>
      MarkLast("<?" + text);
      LastJoin(("<?" + text) + "?>", trail);
      assert "<?" + (text + "?>" + trail) == (("<?" + text) + "?>") + trail;
  }

  lemma MarkLast(w: string)
    ensures NoCrLast(w + "?>")
  {
  }

  lemma AssignmentLast(a: Assignment)
    requires GoodAssignment(a)
    ensures NoCrLast(PrintAssignment(a))
  {
    hide All, NoCrLast, PrintShape, GoodShape;
    var rest := a.right + PrintShape(a.value);
    ShapeLast(a.value);
    AllNoCr(a.right, IsBlank);
    LastJoin(a.right, PrintShape(a.value));
    EqualsLast();
    LastJoin("=", rest);
    AllNoCr(a.left, IsBlank);
    LastJoin(a.left, "=" + rest);
    AllNoCr(a.name, IsVarid);
    LastJoin(a.name, a.left + ("=" + rest));
  }

  lemma EqualsLast()
    ensures NoCrLast("=") && NoCrLast("#") && NoCrLast("")
  {
  }

  function CommentText(comment: Option<string>): string {
    if comment.Some? then "#" + comment.value else ""
  }

  /** A row ends behind a carriage return exactly if it has no other ending. */
  lemma RowLast(row: Row)
    requires GoodRow(row) && PrintRow(row) != ""
    ensures PrintRow(row)[|PrintRow(row)| - 1] == '\r' <==> row.ending == Cr
  {
    hide All, PrintAssignment, GoodAssignment;
    var front := row.indent + (PrintMiddle(row.assignment) + CommentText(row.comment));
    assert PrintRow(row) == front + PrintEnding(row.ending);
    if row.ending == Eof {
      FrontLast(row, front);
      assert front + "" == front;
    } else {
      var e := PrintEnding(row.ending);
      assert (front + e)[|front + e| - 1] == e[|e| - 1];
    }
  }

  lemma FrontLast(row: Row, front: string)
    requires GoodRow(row)
    requires front == row.indent + (PrintMiddle(row.assignment) + CommentText(row.comment))
    ensures NoCrLast(front)
  {
    hide All, NoCrLast, PrintAssignment, GoodAssignment;
    var comment := CommentText(row.comment);
    EqualsLast();
    if row.comment.Some? {
      AllNoCr(row.comment.value, OnLine);
      LastJoin("#", row.comment.value);
    }
    if row.assignment.Some? { AssignmentLast(row.assignment.value); }
    LastJoin(PrintMiddle(row.assignment), comment);
    AllNoCr(row.indent, IsBlank);
    LastJoin(row.indent, PrintMiddle(row.assignment) + comment);
  }

  // ---------- the rows of a text ----------

  lemma RowEndsInCr(s: string, w: Where, row: Row)
    requires GoodRow(row) && At(s, w.cur, PrintRow(row)) && w.cur < |s|
    requires Closed(s, w.cur + |PrintRow(row)|, row.ending)
    ensures EndsInCr(s, Line(s, w)) <==> row.ending == Cr
  {
    hide Line, At, GoodRow, PrintRow;
    RowRead(s, w, row);
    var n := |PrintRow(row)|;
    assert n > 0;
    AtChar(s, w.cur, PrintRow(row), n - 1);
    RowLast(row);
  }

  lemma {:induction false} RowsCounted(s: string, w: Where, rows: seq<Row>)
    requires GoodRows(rows) && At(s, w.cur, PrintRows(rows)) && w.cur + |PrintRows(rows)| == |s|
    ensures CrLines(s, w) == CrRows(rows)
    decreases |rows|
  {
    hide Line, At, GoodRow, PrintRow, EndsInCr;
    if rows != [] {
      var row, rest := PrintRow(rows[0]), PrintRows(rows[1..]);
      var next := w.cur + |row|;
      AtAppend(s, w.cur, row, rest);
      if rest != "" { AtChar(s, next, rest, 0); }
      assert Closed(s, next, rows[0].ending);
      if w.cur < |s| {
        RowRead(s, w, rows[0]);
        RowEndsInCr(s, w, rows[0]);
        RowsCounted(s, Line(s, w).where, rows[1..]);
      } else {
        EmptyRowEnding(rows[0]);
        RowsCounted(s, w, rows[1..]);
      }
    }
  }

  lemma EmptyRowEnding(row: Row)
    requires PrintRow(row) == ""
    ensures row.ending == Eof
  {
  }

  lemma {:induction false} NoCrRows(rows: seq<Row>)
    ensures CrRows(rows) == 0 <==> forall i | 0 <= i < |rows| :: rows[i].ending != Cr
  {
    if rows != [] {
      NoCrRows(rows[1..]);
      assert forall i | 1 <= i < |rows| :: rows[i] == rows[1..][i - 1];
    }
  }

  /** For a text that is written as rows: the line at the end is the number of line feeds and of rows that end
      in a carriage return alone; it is right, with the column, if and only if there is no such row. A carriage
      return inside a multi-line value does no harm. */
  lemma PlaceIsRightIffNoCrRow(rows: seq<Row>)
    requires GoodRows(rows)
    ensures var s := PrintRows(rows); var end := Parsed(s).where;
      end.cur == |s| && end.line == LineFeeds(s, |s|) + CrRows(rows)
      && (Located(s, end) <==> forall i | 0 <= i < |rows| :: rows[i].ending != Cr)
  {
    hide Parsed, Located, CrLines, CrRows;
    var s := PrintRows(rows);
    ConfigAccepted.RoundTrip(rows);
    PlaceIsRightIff(s);
    assert s[0..|s|] == s;
    RowsCounted(s, BEGIN, rows);
    NoCrRows(rows);
  }
}
