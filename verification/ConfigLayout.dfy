/** The texts the configuration parser accepts: their grammar, how they are printed, and how the rules of the
    parser go through the pieces of what has been printed. */
module ConfigLayout {
  import opened Wrappers
  import opened Text
  import opened Config

  datatype Ending = Lf | CrLf | Cr | Eof

  /** A value with the blanks after it. */
  datatype Shape = Single(text: string, trail: string) | Multi(text: string, trail: string)

  /** With the blanks on both sides of the equals sign. */
  datatype Assignment = Assignment(name: string, left: string, right: string, value: Shape)

  datatype Row = Row(indent: string, assignment: Option<Assignment>, comment: Option<string>, ending: Ending)

  // ---------- the grammar ----------

  predicate All(w: string, keep: char -> bool) {
    forall i | 0 <= i < |w| :: keep(w[i])
  }

  /** No line end, no number sign, no blank at either end, and no mark of a multi line value. */
  predicate GoodSingle(text: string) {
    All(text, InSingleValue)
    && (text != "" ==> !IsBlank(text[0]) && !IsBlank(text[|text| - 1]))
    && !IsMulti(text, 0)
  }

  predicate GoodMulti(text: string) {
    forall i | 0 <= i < |text| - 1 :: text[i] != '?' || text[i + 1] != '>'
  }

  predicate GoodShape(v: Shape) {
    All(v.trail, IsBlank)
    && match v
       case Single(text, trail) => GoodSingle(text) && (text == "" ==> trail == "")
       case Multi(text, _) => GoodMulti(text)
  }

  predicate GoodAssignment(a: Assignment) {
    a.name != "" && All(a.name, IsVarid) && All(a.left, IsBlank) && All(a.right, IsBlank) && GoodShape(a.value)
  }

  predicate GoodRow(row: Row) {
    All(row.indent, IsBlank)
    && (row.assignment.Some? ==> GoodAssignment(row.assignment.value))
    && (row.comment.Some? ==> All(row.comment.value, OnLine))
  }

  /** Only the last row may end with the input; a lone carriage return is not followed by a line feed. */
  predicate GoodRows(rows: seq<Row>) {
    rows == []
    || (GoodRow(rows[0]) && GoodRows(rows[1..])
        && (rows[0].ending == Eof ==> |rows| == 1)
        && (rows[0].ending == Cr ==> PrintRows(rows[1..]) == "" || PrintRows(rows[1..])[0] != '\n'))
  }

  // ---------- the printer ----------

  function PrintShape(v: Shape): string {
    match v
    case Single(text, trail) => text + trail
    case Multi(text, trail) => "<?" + (text + "?>" + trail)
  }

  function PrintAssignment(a: Assignment): string {
    a.name + (a.left + ("=" + (a.right + PrintShape(a.value))))
  }

  function PrintEnding(e: Ending): string {
    match e
    case Lf => "\n"
    case CrLf => "\r\n"
    case Cr => "\r"
    case Eof => ""
  }

  function PrintTail(comment: Option<string>, e: Ending): string {
    if comment.Some? then "#" + comment.value + PrintEnding(e) else PrintEnding(e)
  }

  function PrintMiddle(a: Option<Assignment>): string {
    if a.Some? then PrintAssignment(a.value) else ""
  }

  function PrintRow(row: Row): string {
    row.indent + (PrintMiddle(row.assignment) + PrintTail(row.comment, row.ending))
  }

  function PrintRows(rows: seq<Row>): string {
    if rows == [] then "" else PrintRow(rows[0]) + PrintRows(rows[1..])
  }

  // ---------- the contents ----------

  function RowEntry(row: Row): Option<Entry> {
    if row.assignment.Some? then Some(Entry(row.assignment.value.name, row.assignment.value.value.text)) else None
  }

  function Entries(rows: seq<Row>): seq<Entry> {
    if rows == [] then [] else Inserted([], RowEntry(rows[0])) + Entries(rows[1..])
  }

  lemma InsertedEntries(acc: seq<Entry>, rows: seq<Row>)
    requires rows != []
    ensures Inserted(acc, RowEntry(rows[0])) + Entries(rows[1..]) == acc + Entries(rows)
  {
    hide RowEntry, Entries;
    var first, rest := Inserted([], RowEntry(rows[0])), Entries(rows[1..]);
    assert Entries(rows) == first + rest by { EntriesTail(rows); }
    assert Inserted(acc, RowEntry(rows[0])) == acc + first;
  }

  lemma EntriesTail(rows: seq<Row>)
    requires rows != []
    ensures Entries(rows) == Inserted([], RowEntry(rows[0])) + Entries(rows[1..])
  {
    hide RowEntry, Inserted;
  }

  // ---------- every text of the grammar is accepted ----------

  lemma {:induction false} SpanRead(s: string, p: nat, w: string, keep: char -> bool)
    requires At(s, p, w) && All(w, keep) && (p + |w| < |s| ==> !keep(s[p + |w|]))
    ensures Span(s, p, keep) == p + |w|
    decreases |w|
  {
    if w != "" {
      AtChar(s, p, w, 0);
      AtSlice(s, p, w, 1, |w|);
      SpanRead(s, p + 1, w[1..], keep);
    }
  }

  lemma {:induction false} ClosingRead(s: string, w: Where, text: string)
    requires At(s, w.cur, text + "?>") && GoodMulti(text)
    ensures Closing(s, w).Ok? && Closing(s, w).value.cur == w.cur + |text|
    decreases |text|
  {
    var all := text + "?>";
    AtChar(s, w.cur, all, 0);
    AtChar(s, w.cur, all, 1);
    if text != "" {
      assert all[1..] == text[1..] + "?>";
      AtSlice(s, w.cur, all, 1, |all|);
      ClosingRead(s, if s[w.cur] == '\n' then Where(w.cur + 1, w.line + 1, 1) else To(w, w.cur + 1), text[1..]);
    }
  }

  lemma {:induction false} TrimmedRead(text: string, trail: string)
    requires All(trail, IsBlank) && (text != "" ==> !IsBlank(text[|text| - 1]) && !IsNewline(text[|text| - 1]))
    ensures Trimmed(text + trail) == text
    decreases |trail|
  {
    if trail == "" {
      assert text + trail == text;
    } else {
      assert (text + trail)[..|text + trail| - 1] == text + trail[..|trail| - 1];
      TrimmedRead(text, trail[..|trail| - 1]);
    }
  }

  /** Here a value may end. */
  predicate Ends(s: string, p: nat) {
    p == |s| || (p < |s| && (s[p] == '#' || IsNewline(s[p])))
  }

  /** The rule went through and stopped at `p`. */
  ghost predicate Through(t: Turn, entry: Option<Entry>, p: nat) {
    t.fault == None && t.entry == entry && t.where.cur == p
  }

  lemma SingleChars(text: string, trail: string)
    requires GoodShape(Single(text, trail))
    ensures All(text + trail, InSingleValue)
  {
  }

  lemma SingleTrimmed(text: string, trail: string)
    requires GoodShape(Single(text, trail))
    ensures Trimmed(text + trail) == text
  {
    hide Trimmed;
    assert text != "" ==> InSingleValue(text[|text| - 1]);
    TrimmedRead(text, trail);
  }

  /** A single line value is not taken for a multi line one. */
  lemma SingleIsNotMulti(s: string, p: nat, text: string, trail: string)
    requires GoodShape(Single(text, trail)) && At(s, p, text + trail) && Ends(s, p + |text + trail|)
    ensures !IsMulti(s, p)
  {
    hide At, All;
    var all := text + trail;
    if all != "" { AtChar(s, p, all, 0); }
    if |all| > 1 { AtChar(s, p, all, 1); }
    if trail != "" { FirstOf(trail, IsBlank); }
  }

  lemma SingleRead(s: string, w: Where, name: string, text: string, trail: string)
    requires GoodShape(Single(text, trail)) && At(s, w.cur, text + trail) && w.cur < |s|
    requires Ends(s, w.cur + |text + trail|)
    ensures Through(Value(s, w, name), Some(Entry(name, text)), w.cur + |text + trail|)
  {
    hide Closing, Span, Trimmed, At, All, GoodShape, IsMulti;
    var all := text + trail;
    SingleIsNotMulti(s, w.cur, text, trail);
    SingleChars(text, trail);
    AtText(s, w.cur, all);
    SpanRead(s, w.cur, all, InSingleValue);
    SingleTrimmed(text, trail);
  }

  lemma AtMarked(s: string, p: nat, a: string, b: string, c: string, d: string)
    requires At(s, p, a + (b + c + d))
    ensures At(s, p, a) && At(s, p + |a|, b + c) && At(s, p + |a| + |b + c|, d)
  {
    hide At;
    AtAppend(s, p, a, b + c + d);
    AtAppend(s, p + |a|, b + c, d);
  }

  lemma MultiParts(s: string, p: nat, text: string, trail: string)
    requires At(s, p, PrintShape(Multi(text, trail)))
    ensures At(s, p, "<?") && At(s, p + 2, text + "?>") && At(s, p + |text| + 4, trail)
    ensures |PrintShape(Multi(text, trail))| == |text| + 4 + |trail|
  {
    hide At;
    AtMarked(s, p, "<?", text, "?>", trail);
  }

  lemma IsMultiWhenMarked(s: string, p: nat)
    requires At(s, p, "<?")
    ensures IsMulti(s, p)
  {
    hide At;
    AtChar(s, p, "<?", 0);
    AtChar(s, p, "<?", 1);
  }

  lemma MultiTrail(text: string, trail: string)
    requires GoodShape(Multi(text, trail))
    ensures GoodMulti(text) && All(trail, IsBlank)
  {
    hide GoodMulti, All;
  }

  lemma MultiRead(s: string, w: Where, name: string, text: string, trail: string)
    requires GoodShape(Multi(text, trail)) && At(s, w.cur, PrintShape(Multi(text, trail)))
    requires var q := w.cur + |PrintShape(Multi(text, trail))|; q < |s| ==> !IsBlank(s[q])
    ensures w.cur < |s|
    ensures Through(Value(s, w, name), Some(Entry(name, text)), w.cur + |PrintShape(Multi(text, trail))|)
  {
    hide Closing, GoodMulti, Span, All, At, GoodShape, PrintShape, IsMulti;
    var p := w.cur + 2;
    MultiParts(s, w.cur, text, trail);
    MultiTrail(text, trail);
    IsMultiWhenMarked(s, w.cur);
    MarkInside(s, w.cur);
    ClosingRead(s, To(w, p), text);
    TextBefore(s, p, text);
    SpanRead(s, p + |text| + 2, trail, IsBlank);
  }

  lemma MarkInside(s: string, p: nat)
    requires IsMulti(s, p)
    ensures p + 1 < |s|
  {
  }

  lemma TextBefore(s: string, p: nat, text: string)
    requires At(s, p, text + "?>")
    ensures p + |text| + 2 <= |s| && s[p..p + |text|] == text
  {
    hide At;
    AtAppend(s, p, text, "?>");
    AtText(s, p, text);
    AtText(s, p, text + "?>");
  }

  lemma AssignmentRead(s: string, w: Where, a: Assignment)
    requires GoodAssignment(a) && At(s, w.cur, PrintAssignment(a)) && Ends(s, w.cur + |PrintAssignment(a)|)
    ensures w.cur < |s| && IsVarid(s[w.cur])
    ensures Through(Assign(s, w), Some(Entry(a.name, a.value.text)), w.cur + |PrintAssignment(a)|)
  {
    hide Value, PrintShape, Span, All, GoodShape, At, PrintAssignment, Ends, Through, Assign;
    var p1 := w.cur + |a.name|;
    var p2 := p1 + |a.left|;
    var p3 := p2 + 1 + |a.right|;
    AssignmentParts(s, w.cur, a);
    AtChar(s, w.cur, a.name, 0);
    FirstOf(a.name, IsVarid);
    BlanksRead(s, p1, a.left);
    SpanRead(s, w.cur, a.name, IsVarid);
    assert s[w.cur..p1] == a.name by { AtText(s, w.cur, a.name); }
    ShapeStarts(s, p3, a.value);
    SpanRead(s, p2 + 1, a.right, IsBlank);
    AssignSteps(s, w, p1, p2, p3);
    EntryRead(s, Where(p3, w.line, w.col + (p3 - w.cur)), a.name, a.value);
  }

  /** The pieces of an assignment. */
  lemma AssignmentParts(s: string, p: nat, a: Assignment)
    requires At(s, p, PrintAssignment(a))
    ensures var p1 := p + |a.name|; var p2 := p1 + |a.left|; var p3 := p2 + 1 + |a.right|;
      At(s, p, a.name) && At(s, p1, a.left) && At(s, p2 + 1, a.right) && At(s, p3, PrintShape(a.value))
      && p2 < |s| && s[p2] == '=' && p + |PrintAssignment(a)| == p3 + |PrintShape(a.value)|
  {
    hide At, PrintShape;
    AtFive(s, p, a.name, a.left, "=", a.right, PrintShape(a.value));
    AtChar(s, p + |a.name| + |a.left|, "=", 0);
  }

  lemma AtFive(s: string, p: nat, a: string, b: string, c: string, d: string, e: string)
    requires At(s, p, a + (b + (c + (d + e))))
    ensures At(s, p, a) && At(s, p + |a|, b) && At(s, p + |a| + |b|, c)
    ensures At(s, p + |a| + |b| + |c|, d) && At(s, p + |a| + |b| + |c| + |d|, e)
  {
    hide At;
    AtAppend(s, p, a, b + (c + (d + e)));
    AtAppend(s, p + |a|, b, c + (d + e));
    AtAppend(s, p + |a| + |b|, c, d + e);
    AtAppend(s, p + |a| + |b| + |c|, d, e);
  }

  /** The rule for an assignment, once it is known how far its parts go. */
  lemma AssignSteps(s: string, w: Where, p1: nat, p2: nat, p3: nat)
    requires w.cur < p1 <= p2 < p3 <= |s| && s[p2] == '='
    requires Span(s, w.cur, IsVarid) == p1 && Span(s, p1, IsBlank) == p2 && Span(s, p2 + 1, IsBlank) == p3
    ensures var name, w3 := s[w.cur..p1], Where(p3, w.line, w.col + (p3 - w.cur));
      Assign(s, w) == if p3 == |s| then Turn(w3, Some(Entry(name, "")), None) else Value(s, w3, name)
  {
    hide Value, Span;
    assert SkipWs(s, To(w, p1)) == To(w, p2);
    assert SkipWs(s, To(To(w, p2), p2 + 1)) == To(w, p3);
  }

  /** What the rule finds behind the equals sign: the value, or nothing at the end of the input. */
  lemma EntryRead(s: string, w3: Where, name: string, v: Shape)
    requires GoodShape(v) && At(s, w3.cur, PrintShape(v)) && Ends(s, w3.cur + |PrintShape(v)|) && w3.cur <= |s|
    ensures Through(if w3.cur == |s| then Turn(w3, Some(Entry(name, "")), None) else Value(s, w3, name),
                    Some(Entry(name, v.text)), w3.cur + |PrintShape(v)|)
  {
    hide Value, PrintShape, GoodShape, At, Ends, Through;
    if w3.cur < |s| {
      ShapeRead(s, w3, name, v);
    } else {
      ShapeStarts(s, w3.cur, v);
      ThroughHere(w3, name);
    }
  }

  lemma ThroughHere(w: Where, name: string)
    ensures Through(Turn(w, Some(Entry(name, "")), None), Some(Entry(name, "")), w.cur)
  {
  }

  lemma AtText(s: string, p: nat, w: string)
    requires At(s, p, w)
    ensures p + |w| <= |s| && s[p..p + |w|] == w
  {
  }

  lemma FirstOf(w: string, keep: char -> bool)
    requires w != "" && All(w, keep)
    ensures keep(w[0])
  {
  }

  /** Blanks before an equals sign are skipped, and stop a name. */
  lemma BlanksRead(s: string, p: nat, left: string)
    requires At(s, p, left) && All(left, IsBlank) && p + |left| < |s| && s[p + |left|] == '='
    ensures Span(s, p, IsBlank) == p + |left| && !IsVarid(s[p])
  {
    SpanRead(s, p, left, IsBlank);
    if left != "" { AtChar(s, p, left, 0); }
  }

  /** A value does not start with a blank, and is empty at the end of the input. */
  lemma ShapeStarts(s: string, p: nat, v: Shape)
    requires GoodShape(v) && At(s, p, PrintShape(v)) && Ends(s, p + |PrintShape(v)|)
    ensures p <= |s| && (p < |s| ==> !IsBlank(s[p]))
    ensures p == |s| ==> PrintShape(v) == "" && v.text == ""
  {
    if PrintShape(v) != "" { AtChar(s, p, PrintShape(v), 0); }
  }

  lemma ShapeRead(s: string, w: Where, name: string, v: Shape)
    requires GoodShape(v) && At(s, w.cur, PrintShape(v)) && w.cur < |s| && Ends(s, w.cur + |PrintShape(v)|)
    ensures Through(Value(s, w, name), Some(Entry(name, v.text)), w.cur + |PrintShape(v)|)
  {
    hide Value, GoodSingle, GoodMulti, At, All, Through;
    match v
    case Single(text, trail) => SingleRead(s, w, name, text, trail);
    case Multi(text, trail) => MultiRead(s, w, name, text, trail);
  }

  /** The end of a row goes with what is behind it. */
  predicate Closed(s: string, p: nat, e: Ending) {
    (e == Eof ==> p == |s|) && (e == Cr && p < |s| ==> s[p] != '\n')
  }

  lemma EndingRead(s: string, w: Where, e: Ending)
    requires At(s, w.cur, PrintEnding(e)) && Closed(s, w.cur + |PrintEnding(e)|, e)
    ensures Ends(s, w.cur) && (e == Eof <==> w.cur == |s|)
    ensures w.cur < |s| ==> IsNewline(s[w.cur]) && AfterNewline(s, w).cur == w.cur + |PrintEnding(e)|
  {
    if e != Eof { AtChar(s, w.cur, PrintEnding(e), 0); }
    if e == CrLf { AtChar(s, w.cur, PrintEnding(e), 1); }
  }

  lemma TailRead(s: string, w: Where, comment: Option<string>, e: Ending)
    requires comment.Some? ==> All(comment.value, OnLine)
    requires At(s, w.cur, PrintTail(comment, e)) && Closed(s, w.cur + |PrintTail(comment, e)|, e)
    ensures Ends(s, w.cur)
    ensures w.cur == |s| ==> PrintTail(comment, e) == ""
    ensures w.cur < |s| ==> Through(Tail(s, w), None, w.cur + |PrintTail(comment, e)|)
  {
    hide AfterNewline, Span, All, At, PrintEnding, Closed, Ends;
    if comment.Some? {
      CommentTailRead(s, w, comment.value, e);
    } else {
      EndingRead(s, w, e);
      PlainTail(s, w, e);
    }
  }

  lemma PlainTail(s: string, w: Where, e: Ending)
    requires Ends(s, w.cur) && (e == Eof <==> w.cur == |s|)
    requires w.cur < |s| ==> IsNewline(s[w.cur]) && AfterNewline(s, w).cur == w.cur + |PrintEnding(e)|
    ensures w.cur == |s| ==> PrintTail(None, e) == ""
    ensures w.cur < |s| ==> Through(Tail(s, w), None, w.cur + |PrintTail(None, e)|)
  {
    hide AfterNewline, Span;
  }

  lemma CommentTailRead(s: string, w: Where, c: string, e: Ending)
    requires All(c, OnLine)
    requires At(s, w.cur, PrintTail(Some(c), e)) && Closed(s, w.cur + |PrintTail(Some(c), e)|, e)
    ensures Ends(s, w.cur) && w.cur < |s|
    ensures Through(Tail(s, w), None, w.cur + |PrintTail(Some(c), e)|)
  {
    hide AfterNewline, Span, All, At, PrintEnding, Closed, Tail;
    var end := w.cur + 1 + |c|;
    AtThree(s, w.cur, "#", c, PrintEnding(e));
    AtChar(s, w.cur, "#", 0);
    EndingRead(s, To(w, end), e);
    EndingLength(e);
    CommentRead(s, w.cur, c);
    CommentSteps(s, w, end);
  }

  lemma EndingLength(e: Ending)
    ensures e == Eof ==> |PrintEnding(e)| == 0
  {
  }

  /** The rule for the tail of a row, once it is known how far its comment goes. */
  lemma CommentSteps(s: string, w: Where, end: nat)
    requires w.cur < end <= |s| && s[w.cur] == '#' && Span(s, w.cur, OnLine) == end
    requires end < |s| ==> IsNewline(s[end])
    ensures Tail(s, w) == Turn(if end == |s| then To(w, end) else AfterNewline(s, To(w, end)), None, None)
  {
    hide AfterNewline, Span;
  }

  lemma CommentRead(s: string, p: nat, c: string)
    requires p < |s| && s[p] == '#' && At(s, p + 1, c) && All(c, OnLine)
    requires var q := p + 1 + |c|; q == |s| || (q < |s| && IsNewline(s[q]))
    ensures Span(s, p, OnLine) == p + 1 + |c|
  {
    SpanRead(s, p + 1, c, OnLine);
  }

  lemma RowRead(s: string, w: Where, row: Row)
    requires GoodRow(row) && At(s, w.cur, PrintRow(row)) && w.cur < |s|
    requires Closed(s, w.cur + |PrintRow(row)|, row.ending)
    ensures Through(Line(s, w), RowEntry(row), w.cur + |PrintRow(row)|)
  {
    hide Assign, Tail, Span, All, At, GoodAssignment, PrintAssignment, PrintTail;
    var middle, tail := PrintMiddle(row.assignment), PrintTail(row.comment, row.ending);
    var p := w.cur + |row.indent|;
    var q := p + |middle|;
    AtAppend(s, w.cur, row.indent, middle + tail);
    AtAppend(s, p, middle, tail);
    var w1 := To(w, p);
    var w2 := w1;
    if row.assignment.Some? {
      TailRead(s, To(w, q), row.comment, row.ending);
      AssignmentRead(s, w1, row.assignment.value);
      w2 := Assign(s, w1).where;
    }
    TailRead(s, w2, row.comment, row.ending);
    SpanRead(s, w.cur, row.indent, IsBlank);
  }

  lemma {:induction false} RowsRead(s: string, w: Where, rows: seq<Row>, acc: seq<Entry>)
    requires GoodRows(rows) && At(s, w.cur, PrintRows(rows)) && w.cur + |PrintRows(rows)| == |s|
    ensures Lines(s, w, acc).fault == None && Lines(s, w, acc).entries == acc + Entries(rows)
    decreases |rows|
  {
    hide Line, At, GoodRow, PrintRow;
    if rows == [] {
      assert acc + Entries(rows) == acc;
    } else {
      var row, rest := PrintRow(rows[0]), PrintRows(rows[1..]);
      var next := w.cur + |row|;
      AtAppend(s, w.cur, row, rest);
      InsertedEntries(acc, rows);
      if rest != "" { AtChar(s, next, rest, 0); }
      assert Closed(s, next, rows[0].ending);
      if w.cur < |s| {
        RowRead(s, w, rows[0]);
        RowsRead(s, Line(s, w).where, rows[1..], Inserted(acc, RowEntry(rows[0])));
      } else {
        EmptyRow(rows[0]);
        RowsRead(s, w, rows[1..], acc);
        assert Entries(rows) == Entries(rows[1..]);
      }
    }
  }

  lemma EmptyRow(row: Row)
    requires GoodRow(row) && PrintRow(row) == ""
    ensures RowEntry(row) == None
  {
  }
}
