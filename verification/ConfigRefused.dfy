/** Why the configuration parser refuses a text, where, and what it has inserted by then. */
module ConfigRefused {
  import opened Config
  import opened ConfigAccepted
  import opened ConfigLayout
  import opened Text
  import opened Wrappers

  /** What can be wrong with a row: no equals sign behind the name, a multi line value without an end, or
      something between the row's content and its end. */
  datatype Wrong =
    | NoEquals(indent: string, name: string, left: string, rest: string)
    | Unclosed(indent: string, name: string, left: string, right: string, text: string)
    | Garbage(indent: string, assignment: Option<Assignment>, rest: string)

  function PrintWrong(x: Wrong): string {
    match x
    case NoEquals(indent, name, left, rest) => indent + (name + (left + rest))
    case Unclosed(indent, name, left, right, text) => indent + (name + (left + ("=" + (right + ("<?" + text)))))
    case Garbage(indent, a, rest) => indent + (PrintMiddle(a) + rest)
  }

  predicate GoodWrong(x: Wrong) {
    All(x.indent, IsBlank)
    && match x
       case NoEquals(_, name, left, rest) =>
         name != "" && All(name, IsVarid) && All(left, IsBlank)
         && (rest != "" ==> rest[0] != '=' && !IsBlank(rest[0]) && (left == "" ==> !IsVarid(rest[0])))
       case Unclosed(_, name, left, right, text) =>
         name != "" && All(name, IsVarid) && All(left, IsBlank) && All(right, IsBlank) && GoodMulti(text)
       case Garbage(_, a, rest) =>
         rest != "" && !IsBlank(rest[0]) && rest[0] != '#' && !IsNewline(rest[0])
         && if a.Some? then GoodAssignment(a.value) && a.value.value.Multi? else !IsVarid(rest[0])
  }

  function FaultOf(x: Wrong): Fault
    requires x.Garbage? ==> x.rest != ""
  {
    match x
    case NoEquals(_, _, _, rest) => if rest == "" then UnexpectedEnd else ExpectedEquals(rest[0])
    case Unclosed(_, _, _, _, _) => UnexpectedEnd
    case Garbage(_, _, rest) => ExpectedEndOfLine(rest[0])
  }

  /** How far into the row the parser stops. A question mark at the very end might have begun the closing mark. */
  function StopsAt(x: Wrong): nat {
    match x
    case NoEquals(indent, name, left, _) => |indent| + |name| + |left|
    case Unclosed(_, _, _, _, text) =>
      |PrintWrong(x)| - if text != "" && text[|text| - 1] == '?' then 1 else 0
    case Garbage(indent, a, _) => |indent| + |PrintMiddle(a)|
  }

  /** An assignment has been inserted before what follows it is looked at. */
  function EntryOf(x: Wrong): Option<Entry> {
    match x
    case Garbage(_, Some(a), _) => Some(Entry(a.name, a.value.text))
    case _ => None
  }

  // ---------- a row with a fault ----------

  ghost predicate StopsThere(t: Turn, x: Wrong, p: nat)
    requires x.Garbage? ==> x.rest != ""
  {
    t.fault == Some(FaultOf(x)) && t.entry == EntryOf(x) && t.where.cur == p + StopsAt(x)
  }

  /** The blanks are skipped, and what stands there starts an assignment, or does not. */
  lemma LineBegins(s: string, w: Where, indent: string)
    requires At(s, w.cur, indent) && All(indent, IsBlank) && w.cur + |indent| < |s| && !IsBlank(s[w.cur + |indent|])
    ensures var w1 := To(w, w.cur + |indent|);
      var a := if IsVarid(s[w1.cur]) then Assign(s, w1) else Turn(w1, None, None);
      Line(s, w) == if a.fault != None || a.where.cur == |s| then a else Tail(s, a.where).(entry := a.entry)
  {
    hide Assign, Tail, Span;
    SpanRead(s, w.cur, indent, IsBlank);
  }

  lemma NameBegins(name: string)
    requires name != "" && All(name, IsVarid)
    ensures IsVarid(name[0]) && !IsBlank(name[0])
  {
  }

  lemma NamedSplit(s: string, p: nat, indent: string, name: string, left: string, rest: string)
    requires ToEnd(s, p, indent + (name + (left + rest)))
    ensures At(s, p, indent) && At(s, p + |indent|, name) && At(s, p + |indent| + |name|, left)
    ensures ToEnd(s, p + |indent| + |name| + |left|, rest)
  {
    hide At, ToEnd;
    ToEndSplit(s, p, indent, name + (left + rest));
    ToEndSplit(s, p + |indent|, name, left + rest);
    ToEndSplit(s, p + |indent| + |name|, left, rest);
  }

  lemma NoEqualsMet(s: string, w: Where, x: Wrong)
    requires x.NoEquals? && GoodWrong(x) && ToEnd(s, w.cur, PrintWrong(x))
    ensures w.cur < |s| && StopsThere(Line(s, w), x, w.cur)
  {
    hide At, All, Span, ToEnd, Line;
    var p0 := w.cur + |x.indent|;
    var p2 := p0 + |x.name| + |x.left|;
    NamedSplit(s, w.cur, x.indent, x.name, x.left, x.rest);
    EndAt(s, p2, x.rest);
    if x.rest != "" { ToEndFirst(s, p2, x.rest); }
    NameSpans(s, p0, x.name, x.left);
    NameLine(s, w, x.indent, p0 + |x.name|, p2);
  }

  /** How far a name and the blanks behind it go. */
  lemma NameSpans(s: string, p: nat, name: string, left: string)
    requires name != "" && All(name, IsVarid) && All(left, IsBlank) && At(s, p, name) && At(s, p + |name|, left)
    requires var q := p + |name| + |left|; q < |s| ==> !IsBlank(s[q]) && (left == "" ==> !IsVarid(s[q]))
    ensures p < |s| && IsVarid(s[p]) && !IsBlank(s[p])
    ensures Span(s, p, IsVarid) == p + |name| && Span(s, p + |name|, IsBlank) == p + |name| + |left|
  {
    hide At, All, Span;
    NameBegins(name);
    AtChar(s, p, name, 0);
    if left != "" {
      AtChar(s, p + |name|, left, 0);
      FirstOf(left, IsBlank);
    }
    SpanRead(s, p, name, IsVarid);
    SpanRead(s, p + |name|, left, IsBlank);
  }

  lemma NameLine(s: string, w: Where, indent: string, p1: nat, p2: nat)
    requires At(s, w.cur, indent) && All(indent, IsBlank)
    requires var p0 := w.cur + |indent|;
      p0 < p1 <= p2 <= |s| && IsVarid(s[p0]) && !IsBlank(s[p0])
      && Span(s, p0, IsVarid) == p1 && Span(s, p1, IsBlank) == p2 && (p2 < |s| ==> s[p2] != '=')
    ensures var p0 := w.cur + |indent|;
      Line(s, w) == Turn(To(To(w, p0), p2), None, Some(if p2 == |s| then UnexpectedEnd else ExpectedEquals(s[p2])))
  {
    hide At, All, Span, Line, Assign;
    LineBegins(s, w, indent);
    AssignStops(s, To(w, w.cur + |indent|), p1, p2);
  }

  lemma EndAt(s: string, p: nat, w: string)
    requires ToEnd(s, p, w)
    ensures p + |w| == |s|
  {
  }

  lemma AssignStops(s: string, w: Where, p1: nat, p2: nat)
    requires w.cur < p1 <= p2 <= |s| && Span(s, w.cur, IsVarid) == p1 && Span(s, p1, IsBlank) == p2
    requires p2 < |s| ==> s[p2] != '='
    ensures Assign(s, w) == Turn(To(w, p2), None, Some(if p2 == |s| then UnexpectedEnd else ExpectedEquals(s[p2])))
  {
    hide Span;
    assert SkipWs(s, To(w, p1)) == To(w, p2);
  }

  lemma {:induction false} NeverCloses(s: string, w: Where, text: string)
    requires ToEnd(s, w.cur, text) && GoodMulti(text)
    ensures w.cur <= |s| && Closing(s, w).Err?
    ensures Closing(s, w).error.cur == |s| - if text != "" && text[|text| - 1] == '?' then 1 else 0
    decreases |text|
  {
    if text != "" {
      AtChar(s, w.cur, text, 0);
      if |text| > 1 { AtChar(s, w.cur, text, 1); }
      AtSlice(s, w.cur, text, 1, |text|);
      if text != "?" {
        NeverCloses(s, if s[w.cur] == '\n' then Where(w.cur + 1, w.line + 1, 1) else To(w, w.cur + 1), text[1..]);
      }
    }
  }

  lemma ValueSplit(s: string, p: nat, right: string, text: string)
    requires ToEnd(s, p, "=" + (right + ("<?" + text)))
    ensures At(s, p, "=") && At(s, p + 1, right) && At(s, p + 1 + |right|, "<?") && ToEnd(s, p + 1 + |right| + 2, text)
    ensures ToEnd(s, p + 1 + |right|, "<?" + text)
  {
    hide At, ToEnd;
    ToEndSplit(s, p, "=", right + ("<?" + text));
    ToEndSplit(s, p + 1, right, "<?" + text);
    ToEndSplit(s, p + 1 + |right|, "<?", text);
  }

  lemma UnclosedParts(s: string, p: nat, x: Wrong)
    requires x.Unclosed? && ToEnd(s, p, PrintWrong(x))
    ensures var p1 := p + |x.indent| + |x.name|;
      var p2 := p1 + |x.left|;
      var p3 := p2 + 1 + |x.right|;
      At(s, p, x.indent) && At(s, p + |x.indent|, x.name) && At(s, p1, x.left) && At(s, p2, "=")
      && At(s, p2 + 1, x.right) && At(s, p3, "<?") && ToEnd(s, p3 + 2, x.text) && ToEnd(s, p3, "<?" + x.text)
      && p + |PrintWrong(x)| == |s|
  {
    hide At, ToEnd;
    EndAt(s, p, PrintWrong(x));
    NamedSplit(s, p, x.indent, x.name, x.left, "=" + (x.right + ("<?" + x.text)));
    ValueSplit(s, p + |x.indent| + |x.name| + |x.left|, x.right, x.text);
  }

  lemma UnclosedMet(s: string, w: Where, x: Wrong)
    requires x.Unclosed? && GoodWrong(x) && ToEnd(s, w.cur, PrintWrong(x))
    ensures w.cur < |s| && StopsThere(Line(s, w), x, w.cur)
  {
    hide At, All, Span, ToEnd, Line, Value, GoodMulti, PrintWrong, Assign;
    var p0 := w.cur + |x.indent|;
    var p1 := p0 + |x.name|;
    var p2 := p1 + |x.left|;
    var p3 := p2 + 1 + |x.right|;
    UnclosedParts(s, w.cur, x);
    NameBegins(x.name);
    AtChar(s, p0, x.name, 0);
    AtChar(s, p2, "=", 0);
    ToEndFirst(s, p3, "<?" + x.text);
    LineBegins(s, w, x.indent);
    BlanksRead(s, p1, x.left);
    SpanRead(s, p0, x.name, IsVarid);
    SpanRead(s, p2 + 1, x.right, IsBlank);
    AssignSteps(s, To(w, p0), p1, p2, p3);
    ValueFails(s, Where(p3, w.line, w.col + (p3 - w.cur)), s[p0..p1], x.text);
  }

  lemma ValueFails(s: string, w: Where, name: string, text: string)
    requires At(s, w.cur, "<?") && ToEnd(s, w.cur + 2, text) && GoodMulti(text)
    ensures w.cur < |s|
    ensures var t := Value(s, w, name);
      t.fault == Some(UnexpectedEnd) && t.entry == None
      && t.where.cur == |s| - if text != "" && text[|text| - 1] == '?' then 1 else 0
  {
    hide At, ToEnd, Closing, GoodMulti, Span, IsMulti;
    IsMultiWhenMarked(s, w.cur);
    MarkInside(s, w.cur);
    NeverCloses(s, To(w, w.cur + 2), text);
  }

  lemma AssignmentPassed(s: string, w: Where, a: Assignment)
    requires GoodAssignment(a) && a.value.Multi? && At(s, w.cur, PrintAssignment(a))
    requires var q := w.cur + |PrintAssignment(a)|; q < |s| ==> !IsBlank(s[q])
    ensures w.cur < |s| && IsVarid(s[w.cur])
    ensures Through(Assign(s, w), Some(Entry(a.name, a.value.text)), w.cur + |PrintAssignment(a)|)
  {
    hide Value, PrintShape, Span, All, GoodShape, At, PrintAssignment, Through, Assign;
    var p1 := w.cur + |a.name|;
    var p2 := p1 + |a.left|;
    var p3 := p2 + 1 + |a.right|;
    AssignmentParts(s, w.cur, a);
    AtChar(s, w.cur, a.name, 0);
    FirstOf(a.name, IsVarid);
    BlanksRead(s, p1, a.left);
    SpanRead(s, w.cur, a.name, IsVarid);
    assert s[w.cur..p1] == a.name by { AtText(s, w.cur, a.name); }
    MultiBegins(s, p3, a.value);
    SpanRead(s, p2 + 1, a.right, IsBlank);
    AssignSteps(s, w, p1, p2, p3);
    MultiRead(s, Where(p3, w.line, w.col + (p3 - w.cur)), a.name, a.value.text, a.value.trail);
  }

  lemma MultiBegins(s: string, p: nat, v: Shape)
    requires v.Multi? && At(s, p, PrintShape(v))
    ensures p < |s| && s[p] == '<'
  {
    AtChar(s, p, PrintShape(v), 0);
  }

  lemma GarbageMet(s: string, w: Where, x: Wrong)
    requires x.Garbage? && GoodWrong(x) && ToEnd(s, w.cur, PrintWrong(x))
    ensures w.cur < |s| && StopsThere(Line(s, w), x, w.cur)
  {
    hide At, All, Assign, Tail, ToEnd, Line, GoodAssignment, PrintAssignment;
    var p0 := w.cur + |x.indent|;
    var middle := PrintMiddle(x.assignment);
    var p1 := p0 + |middle|;
    ToEndSplit(s, w.cur, x.indent, middle + x.rest);
    ToEndSplit(s, p0, middle, x.rest);
    ToEndFirst(s, p1, x.rest);
    EndAt(s, p1, x.rest);
    if x.assignment.Some? {
      AssignmentPassed(s, To(w, p0), x.assignment.value);
      TailFails(s, Assign(s, To(w, p0)).where);
    } else {
      TailFails(s, To(w, p0));
    }
    LineBegins(s, w, x.indent);
  }

  lemma TailFails(s: string, w: Where)
    requires w.cur < |s| && s[w.cur] != '#' && !IsNewline(s[w.cur])
    ensures Tail(s, w) == Turn(w, None, Some(ExpectedEndOfLine(s[w.cur])))
  {
  }

  // ---------- the rows before it ----------

  /** All rows have a line end, and none that goes on behind it. */
  predicate Ended(rows: seq<Row>, rest: string) {
    rows == []
    || (GoodRow(rows[0]) && rows[0].ending != Eof && Ended(rows[1..], rest)
        && (rows[0].ending == Cr ==> PrintRows(rows[1..]) + rest == "" || (PrintRows(rows[1..]) + rest)[0] != '\n'))
  }

  lemma {:induction false} RowsPassed(s: string, w: Where, rows: seq<Row>, rest: string, acc: seq<Entry>)
      returns (next: Where)
    requires Ended(rows, rest) && ToEnd(s, w.cur, PrintRows(rows) + rest)
    ensures next.cur == w.cur + |PrintRows(rows)| <= |s|
    ensures Lines(s, w, acc) == Lines(s, next, acc + Entries(rows))
    decreases |rows|
  {
    hide Line, At, GoodRow, PrintRow, Entries, ToEnd;
    EndAt(s, w.cur, PrintRows(rows) + rest);
    if rows == [] {
      next := w;
      assert acc + Entries(rows) == acc by { NoEntries(); }
    } else {
      var row, more := PrintRow(rows[0]), PrintRows(rows[1..]) + rest;
      assert PrintRows(rows) + rest == row + more;
      ToEndSplit(s, w.cur, row, more);
      RowIsSomething(rows[0]);
      if more != "" { ToEndFirst(s, w.cur + |row|, more); }
      EndAt(s, w.cur + |row|, more);
      RowRead(s, w, rows[0]);
      InsertedEntries(acc, rows);
      next := RowsPassed(s, Line(s, w).where, rows[1..], rest, Inserted(acc, RowEntry(rows[0])));
    }
  }

  lemma NoEntries()
    ensures Entries([]) == []
  {
  }

  lemma RowIsSomething(row: Row)
    requires row.ending != Eof
    ensures PrintRow(row) != ""
  {
    hide PrintAssignment;
  }

  predicate Faulty(rows: seq<Row>, x: Wrong) {
    GoodWrong(x) && Ended(rows, PrintWrong(x))
  }

  function PrintFaulty(rows: seq<Row>, x: Wrong): string {
    PrintRows(rows) + PrintWrong(x)
  }

  /** Behind rows that are as they should be, a row with a fault ends the parse: the fault is the one that goes
      with what is wrong, the place the one where it is wrong, and exactly the assignments before it have been
      inserted. */
  lemma FaultRefused(rows: seq<Row>, x: Wrong)
    requires Faulty(rows, x)
    ensures var o := Parsed(PrintFaulty(rows, x));
      o.fault == Some(FaultOf(x)) && o.where.cur == |PrintRows(rows)| + StopsAt(x)
      && o.entries == Inserted(Entries(rows), EntryOf(x))
  {
    hide Line, At, Entries, PrintRows, PrintWrong, Ended, StopsAt, EntryOf, ToEnd;
    var s := PrintFaulty(rows, x);
    ToEndFromStart(s, s);
    var next := RowsPassed(s, BEGIN, rows, PrintWrong(x), []);
    assert [] + Entries(rows) == Entries(rows);
    ToEndSplit(s, 0, PrintRows(rows), PrintWrong(x));
    match x
    case NoEquals(_, _, _, _) => NoEqualsMet(s, next, x);
    case Unclosed(_, _, _, _, _) => UnclosedMet(s, next, x);
    case Garbage(_, _, _) => GarbageMet(s, next, x);
  }

  // ---------- there is no other reason ----------

  lemma RestAt(s: string, p: nat)
    requires p <= |s|
    ensures ToEnd(s, p, s[p..])
  {
  }

  lemma {:induction false} NoClosingMark(s: string, w: Where)
    requires w.cur <= |s| && Closing(s, w).Err?
    ensures GoodMulti(s[w.cur..])
    decreases |s| - w.cur
  {
    if w.cur < |s| && !(s[w.cur] == '?' && w.cur + 1 == |s|) {
      NoClosingMark(s, if s[w.cur] == '\n' then Where(w.cur + 1, w.line + 1, 1) else To(w, w.cur + 1));
      var text, rest := s[w.cur..], s[w.cur + 1..];
      forall i | 0 <= i < |text| - 1 ensures text[i] != '?' || text[i + 1] != '>' {
        if i > 0 { assert text[i] == rest[i - 1] && text[i + 1] == rest[i]; }
      }
    }
  }

  lemma SpanStops(s: string, p: nat, keep: char -> bool) returns (w: string)
    requires p <= |s|
    ensures At(s, p, w) && All(w, keep) && Span(s, p, keep) == p + |w|
    ensures p + |w| <= |s| && (p + |w| < |s| ==> !keep(s[p + |w|]))
    ensures p < |s| && keep(s[p]) ==> w != ""
  {
    w := SpanFrom(s, p, keep);
  }

  /** A value fails only because its closing mark is missing. */
  lemma ValueFault(s: string, w: Where, name: string)
    requires w.cur < |s| && Value(s, w, name).fault != None
    ensures IsMulti(s, w.cur) && w.cur + 2 <= |s| && At(s, w.cur, "<?") && GoodMulti(s[w.cur + 2..])
  {
    hide Closing, GoodMulti, Span;
    NoClosingMark(s, To(w, w.cur + 2));
    assert s[w.cur..w.cur + 2] == "<?";
  }

  lemma NameFault(s: string, w: Where, indent: string) returns (x: Wrong)
    requires All(indent, IsBlank) && At(s, w.cur, indent)
    requires var p := w.cur + |indent|; p < |s| && IsVarid(s[p]) && Assign(s, To(w, p)).fault != None
    ensures GoodWrong(x) && ToEnd(s, w.cur, PrintWrong(x))
  {
    hide Assign, All, At, Span, ToEnd, GoodWrong, PrintWrong;
    var p0 := w.cur + |indent|;
    var name := SpanStops(s, p0, IsVarid);
    var left := SpanStops(s, p0 + |name|, IsBlank);
    var p2 := p0 + |name| + |left|;
    if p2 == |s| || s[p2] != '=' {
      x := EqualsMissing(s, w.cur, indent, name, left);
    } else {
      x := MarkMissing(s, w, indent, name, left);
    }
  }

  lemma NamedJoin(s: string, p: nat, indent: string, name: string, left: string, rest: string)
    requires At(s, p, indent) && At(s, p + |indent|, name) && At(s, p + |indent| + |name|, left)
    requires ToEnd(s, p + |indent| + |name| + |left|, rest)
    ensures ToEnd(s, p, indent + (name + (left + rest)))
  {
    hide At, ToEnd;
    ToEndSplit(s, p + |indent| + |name|, left, rest);
    ToEndSplit(s, p + |indent|, name, left + rest);
    ToEndSplit(s, p, indent, name + (left + rest));
  }

  lemma EqualsMissing(s: string, p: nat, indent: string, name: string, left: string) returns (x: Wrong)
    requires All(indent, IsBlank) && name != "" && All(name, IsVarid) && All(left, IsBlank)
    requires At(s, p, indent) && At(s, p + |indent|, name) && At(s, p + |indent| + |name|, left)
    requires var q := p + |indent| + |name| + |left|;
      q <= |s| && (q < |s| ==> s[q] != '=' && !IsBlank(s[q]) && (left == "" ==> !IsVarid(s[q])))
    ensures GoodWrong(x) && ToEnd(s, p, PrintWrong(x))
  {
    hide All, At, ToEnd;
    var q := p + |indent| + |name| + |left|;
    x := NoEquals(indent, name, left, s[q..]);
    RestAt(s, q);
    NamedJoin(s, p, indent, name, left, s[q..]);
  }

  lemma MarkMissing(s: string, w: Where, indent: string, name: string, left: string) returns (x: Wrong)
    requires All(indent, IsBlank) && name != "" && All(name, IsVarid) && All(left, IsBlank)
    requires var p0 := w.cur + |indent|;
      var p1 := p0 + |name|;
      var p2 := p1 + |left|;
      At(s, w.cur, indent) && At(s, p0, name) && At(s, p1, left) && p2 < |s| && s[p2] == '='
      && Span(s, p0, IsVarid) == p1 && Span(s, p1, IsBlank) == p2 && Assign(s, To(w, p0)).fault != None
    ensures GoodWrong(x) && ToEnd(s, w.cur, PrintWrong(x))
  {
    hide Assign, Value, All, At, Span, ToEnd, GoodMulti, IsMulti;
    var p0 := w.cur + |indent|;
    var p2 := p0 + |name| + |left|;
    var right := SpanStops(s, p2 + 1, IsBlank);
    var p3 := p2 + 1 + |right|;
    AssignSteps(s, To(w, p0), p0 + |name|, p2, p3);
    ValueFault(s, Where(p3, w.line, w.col + (p3 - w.cur)), s[p0..p0 + |name|]);
    var value := "<?" + s[p3 + 2..];
    x := Unclosed(indent, name, left, right, s[p3 + 2..]);
    RestAt(s, p3 + 2);
    ToEndSplit(s, p3, "<?", s[p3 + 2..]);
    ToEndSplit(s, p2 + 1, right, value);
    Equals(s, p2);
    ToEndSplit(s, p2, "=", right + value);
    NamedJoin(s, w.cur, indent, name, left, "=" + (right + value));
  }

  lemma TailFault(s: string, w: Where)
    requires w.cur < |s| && Tail(s, w).fault != None
    ensures s[w.cur] != '#' && !IsNewline(s[w.cur])
  {
  }

  /** A value of one line goes on up to a number sign or the end of the line. */
  lemma SingleEnds(s: string, w: Where, name: string)
    requires w.cur < |s| && !IsMulti(s, w.cur)
    ensures Ends(s, Value(s, w, name).where.cur)
  {
  }

  lemma MultiEnds(s: string, w: Where, name: string)
    requires w.cur < |s| && IsMulti(s, w.cur) && Value(s, w, name).fault == None
    ensures var q := Value(s, w, name).where.cur; q < |s| ==> !IsBlank(s[q])
  {
    hide Closing;
  }

  lemma NotEnds(s: string, q: nat)
    requires q < |s| && s[q] != '#' && !IsNewline(s[q])
    ensures !Ends(s, q)
  {
  }

  lemma EqualsThere(s: string, w: Where)
    requires w.cur < |s| && IsVarid(s[w.cur]) && Assign(s, w).fault == None
    ensures var p2 := Span(s, Span(s, w.cur, IsVarid), IsBlank); p2 < |s| && s[p2] == '='
  {
    hide Value, Span;
    assert SkipWs(s, To(w, Span(s, w.cur, IsVarid))).cur == Span(s, Span(s, w.cur, IsVarid), IsBlank);
  }

  lemma AssignedThenGarbage(s: string, w: Where) returns (a: Assignment)
    requires w.cur < |s| && IsVarid(s[w.cur]) && Assign(s, w).fault == None
    requires var q := Assign(s, w).where.cur; q < |s| && s[q] != '#' && !IsNewline(s[q])
    ensures GoodAssignment(a) && a.value.Multi? && At(s, w.cur, PrintAssignment(a))
    ensures Assign(s, w).where.cur == w.cur + |PrintAssignment(a)| && !IsBlank(s[Assign(s, w).where.cur])
  {
    hide Value, All, At, Span, GoodMulti, IsMulti, GoodShape, PrintShape, PrintAssignment, Ends, Assign;
    NotEnds(s, Assign(s, w).where.cur);
    EqualsThere(s, w);
    var name := SpanStops(s, w.cur, IsVarid);
    var p1 := w.cur + |name|;
    var left := SpanStops(s, p1, IsBlank);
    var p2 := p1 + |left|;
    var right := SpanStops(s, p2 + 1, IsBlank);
    var p3 := p2 + 1 + |right|;
    AssignSteps(s, w, p1, p2, p3);
    var w3 := Where(p3, w.line, w.col + (p3 - w.cur));
    if !IsMulti(s, p3) { SingleEnds(s, w3, s[w.cur..p1]); }
    var v := MultiFrom(s, w3, s[w.cur..p1]);
    MultiEnds(s, w3, s[w.cur..p1]);
    a := Assignment(name, left, right, v);
    AssignmentAt(s, w.cur, a);
  }

  lemma WrongFrom(s: string, w: Where) returns (x: Wrong)
    requires w.cur < |s| && Line(s, w).fault != None
    ensures GoodWrong(x) && ToEnd(s, w.cur, PrintWrong(x))
  {
    hide Assign, Tail, All, At, Span, ToEnd, GoodAssignment, PrintAssignment;
    var indent := SpanStops(s, w.cur, IsBlank);
    var p0 := w.cur + |indent|;
    var w1 := To(w, p0);
    if IsVarid(s[p0]) && Assign(s, w1).fault != None {
      x := NameFault(s, w, indent);
    } else {
      var a: Option<Assignment>, q := None, p0;
      if IsVarid(s[p0]) {
        TailFault(s, Assign(s, w1).where);
        var found := AssignedThenGarbage(s, w1);
        a, q := Some(found), Assign(s, w1).where.cur;
      } else {
        TailFault(s, w1);
        EmptyAt(s, p0);
      }
      x := Garbage(indent, a, s[q..]);
      RestAt(s, q);
      ToEndSplit(s, p0, PrintMiddle(a), s[q..]);
      ToEndSplit(s, w.cur, indent, PrintMiddle(a) + s[q..]);
    }
  }

  lemma {:induction false} FaultFrom(s: string, w: Where, acc: seq<Entry>) returns (rows: seq<Row>, x: Wrong)
    requires w.cur <= |s| && Lines(s, w, acc).fault != None
    ensures Faulty(rows, x) && ToEnd(s, w.cur, PrintFaulty(rows, x))
    decreases |s| - w.cur
  {
    hide Line, At, ToEnd, GoodRow, PrintRow, GoodWrong, PrintWrong, Closed;
    if Line(s, w).fault != None {
      x := WrongFrom(s, w);
      rows := [];
      assert "" + PrintWrong(x) == PrintWrong(x);
    } else {
      var row := RowFrom(s, w);
      var next := Line(s, w).where;
      var rest;
      rest, x := FaultFrom(s, next, Inserted(acc, RowEntry(row)));
      rows := [row] + rest;
      assert rows[1..] == rest;
      var more := PrintRows(rest) + PrintWrong(x);
      ToEndSplit(s, w.cur, PrintRow(row), more);
      assert PrintRow(row) + more == PrintFaulty(rows, x);
      GoesOn(s, next.cur, row.ending, more, acc, w);
    }
  }

  /** The row is not the last one. */
  lemma GoesOn(s: string, p: nat, e: Ending, more: string, acc: seq<Entry>, w: Where)
    requires Closed(s, p, e) && ToEnd(s, p, more) && w.cur < |s| && Lines(s, w, acc).fault != None
    requires Line(s, w).fault == None && Line(s, w).where.cur == p
    ensures e != Eof && (e == Cr ==> more == "" || more[0] != '\n')
  {
    hide Line;
    if more != "" { ToEndFirst(s, p, more); }
  }

  ghost predicate HasFault(s: string) {
    exists rows, x :: Faulty(rows, x) && PrintFaulty(rows, x) == s
  }

  /** A text is refused if and only if it is written like that: rows as they should be, and then one with one of
      the three faults. */
  lemma RefusedIff(s: string)
    ensures Parsed(s).fault != None <==> HasFault(s)
  {
    hide Lines, Faulty, PrintFaulty, ToEnd;
    if Parsed(s).fault != None {
      var rows, x := FaultFrom(s, BEGIN, []);
      ToEndFromStart(s, PrintFaulty(rows, x));
    }
    if HasFault(s) {
      var rows, x :| Faulty(rows, x) && PrintFaulty(rows, x) == s;
      GoodFaulty(rows, x);
      FaultRefused(rows, x);
    }
  }

  lemma GoodFaulty(rows: seq<Row>, x: Wrong)
    requires Faulty(rows, x)
    ensures x.Garbage? ==> x.rest != ""
  {
  }
}
