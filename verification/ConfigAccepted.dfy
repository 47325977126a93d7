/** What the configuration parser makes of the texts of its grammar, and that it accepts no others. */
module ConfigAccepted {
  import opened Wrappers
  import opened Text
  import opened Config
  import opened ConfigLayout
  import ConfigPlaces

  /** For rows with any assignments, comments and blanks, the inserter is called with exactly the assigned names
      and values, in order. */
  lemma RoundTrip(rows: seq<Row>)
    requires GoodRows(rows)
    ensures Parsed(PrintRows(rows)).fault == None
    ensures Parsed(PrintRows(rows)).entries == Entries(rows)
  {
    var s := PrintRows(rows);
    assert s[0..|s|] == s;
    RowsRead(s, BEGIN, rows, []);
    assert [] + Entries(rows) == Entries(rows);
  }

  // ---------- every text that is accepted belongs to the grammar ----------

  /** What a span passed over. */
  lemma SpanFrom(s: string, p: nat, keep: char -> bool) returns (w: string)
    requires p <= |s|
    ensures At(s, p, w) && All(w, keep) && Span(s, p, keep) == p + |w|
    ensures w == s[p..Span(s, p, keep)]
  {
    w := s[p..Span(s, p, keep)];
    ConfigPlaces.SpanKeeps(s, p, keep);
  }

  lemma {:induction false} ClosingFrom(s: string, w: Where)
    requires w.cur <= |s| && Closing(s, w).Ok?
    ensures var e := Closing(s, w).value.cur; GoodMulti(s[w.cur..e]) && s[e] == '?' && s[e + 1] == '>'
    decreases |s| - w.cur
  {
    if !(s[w.cur] == '?' && s[w.cur + 1] == '>') {
      var next := if s[w.cur] == '\n' then Where(w.cur + 1, w.line + 1, 1) else To(w, w.cur + 1);
      ClosingFrom(s, next);
      var text := s[w.cur..Closing(s, w).value.cur];
      var rest := s[next.cur..Closing(s, w).value.cur];
      forall i | 0 <= i < |text| - 1 ensures text[i] != '?' || text[i + 1] != '>' {
        if i > 0 { assert text[i] == rest[i - 1] && text[i + 1] == rest[i]; }
      }
    }
  }

  lemma {:induction false} TrimmedFrom(s: string) returns (trail: string)
    requires All(s, InSingleValue)
    ensures s == Trimmed(s) + trail && All(trail, IsBlank)
    ensures var t := Trimmed(s); t != "" ==> !IsBlank(t[|t| - 1])
    decreases |s|
  {
    if s != "" && IsBlank(s[|s| - 1]) {
      var rest := TrimmedFrom(s[..|s| - 1]);
      trail := rest + [s[|s| - 1]];
      assert s == s[..|s| - 1] + [s[|s| - 1]];
    } else {
      trail := "";
    }
  }

  lemma SingleFrom(s: string, w: Where, name: string) returns (v: Shape)
    requires w.cur < |s| && !IsBlank(s[w.cur]) && !IsMulti(s, w.cur)
    ensures v.Single? && GoodShape(v) && At(s, w.cur, PrintShape(v))
    ensures Through(Value(s, w, name), Some(Entry(name, v.text)), w.cur + |PrintShape(v)|)
  {
    hide Trimmed;
    var raw := SpanFrom(s, w.cur, InSingleValue);
    var trail := TrimmedFrom(raw);
    var text := Trimmed(raw);
    v := Single(text, trail);
    RawChars(s, w.cur, raw);
    if text == "" {
      assert raw == trail;
      assert raw == "";
    }
  }

  lemma RawChars(s: string, p: nat, w: string)
    requires At(s, p, w)
    ensures forall i | 0 <= i < |w| :: w[i] == s[p + i]
  {
    forall i | 0 <= i < |w| ensures w[i] == s[p + i] { AtChar(s, p, w, i); }
  }

  lemma Piece(s: string, p: nat, w: string)
    requires p + |w| <= |s| && s[p..p + |w|] == w
    ensures At(s, p, w)
  {
  }

  lemma MultiFrom(s: string, w: Where, name: string) returns (v: Shape)
    requires w.cur < |s| && IsMulti(s, w.cur) && Value(s, w, name).fault == None
    ensures v.Multi? && GoodShape(v) && At(s, w.cur, PrintShape(v))
    ensures Through(Value(s, w, name), Some(Entry(name, v.text)), w.cur + |PrintShape(v)|)
  {
    hide Span, All, GoodMulti, Closing, At;
    var from := To(w, w.cur + 2);
    ClosingFrom(s, from);
    var e := Closing(s, from).value.cur;
    var text := s[from.cur..e];
    var trail := SpanFrom(s, e + 2, IsBlank);
    v := Multi(text, trail);
    Piece(s, w.cur, "<?");
    Piece(s, from.cur, text);
    Piece(s, e, "?>");
    AtAppend(s, from.cur, text, "?>");
    AtAppend(s, from.cur, text + "?>", trail);
    AtAppend(s, w.cur, "<?", text + "?>" + trail);
  }

  lemma ShapeFrom(s: string, w: Where, name: string) returns (v: Shape)
    requires w.cur < |s| && !IsBlank(s[w.cur]) && Value(s, w, name).fault == None
    ensures GoodShape(v) && At(s, w.cur, PrintShape(v))
    ensures Through(Value(s, w, name), Some(Entry(name, v.text)), w.cur + |PrintShape(v)|)
  {
    hide Value;
    if IsMulti(s, w.cur) { v := MultiFrom(s, w, name); } else { v := SingleFrom(s, w, name); }
  }

  lemma AssignmentFrom(s: string, w: Where) returns (a: Assignment)
    requires w.cur < |s| && IsVarid(s[w.cur]) && Assign(s, w).fault == None
    ensures GoodAssignment(a) && At(s, w.cur, PrintAssignment(a))
    ensures Through(Assign(s, w), Some(Entry(a.name, a.value.text)), w.cur + |PrintAssignment(a)|)
  {
    hide Value, PrintShape, All, GoodShape, At, PrintAssignment, Span;
    var name := SpanFrom(s, w.cur, IsVarid);
    var p1 := w.cur + |name|;
    var left := SpanFrom(s, p1, IsBlank);
    var p2 := p1 + |left|;
    var right := SpanFrom(s, p2 + 1, IsBlank);
    var p3 := p2 + 1 + |right|;
    var w3 := SkipWs(s, To(SkipWs(s, To(w, p1)), p2 + 1));
    assert w3.cur == p3;
    var v := Single("", "");
    if p3 < |s| {
      v := ShapeFrom(s, w3, name);
    } else {
      NothingPrinted(s);
    }
    a := Assignment(name, left, right, v);
    AssignmentAt(s, w.cur, a);
  }

  lemma AssignmentAt(s: string, p: nat, a: Assignment)
    requires At(s, p, a.name) && At(s, p + |a.name|, a.left)
    requires var q := p + |a.name| + |a.left|;
      q < |s| && s[q] == '=' && At(s, q + 1, a.right) && At(s, q + 1 + |a.right|, PrintShape(a.value))
    ensures At(s, p, PrintAssignment(a))
    ensures |PrintAssignment(a)| == |a.name| + |a.left| + 1 + |a.right| + |PrintShape(a.value)|
  {
    hide PrintShape, At;
    var v, q := PrintShape(a.value), p + |a.name| + |a.left|;
    Equals(s, q);
    AtAppend(s, q + 1, a.right, v);
    AtAppend(s, q, "=", a.right + v);
    AtAppend(s, p + |a.name|, a.left, "=" + (a.right + v));
    AtAppend(s, p, a.name, a.left + ("=" + (a.right + v)));
  }

  lemma Equals(s: string, p: nat)
    requires p < |s| && s[p] == '='
    ensures At(s, p, "=")
  {
  }

  lemma NothingPrinted(s: string)
    ensures GoodShape(Single("", "")) && PrintShape(Single("", "")) == "" && At(s, |s|, "")
  {
  }

  lemma EndingFrom(s: string, w: Where) returns (e: Ending)
    requires w.cur == |s| || (w.cur < |s| && IsNewline(s[w.cur]))
    ensures At(s, w.cur, PrintEnding(e)) && Closed(s, w.cur + |PrintEnding(e)|, e)
    ensures w.cur < |s| ==> AfterNewline(s, w).cur == w.cur + |PrintEnding(e)|
  {
    if w.cur == |s| {
      e := Eof;
    } else if s[w.cur] == '\n' {
      e := Lf;
    } else {
      e := if w.cur + 1 < |s| && s[w.cur + 1] == '\n' then CrLf else Cr;
    }
  }

  /** The rest of a row: nothing at the end of the input, or what the rule went through. */
  lemma TailFrom(s: string, w: Where) returns (comment: Option<string>, e: Ending)
    requires w.cur <= |s| && (w.cur < |s| ==> Tail(s, w).fault == None)
    ensures comment.Some? ==> All(comment.value, OnLine)
    ensures At(s, w.cur, PrintTail(comment, e)) && Closed(s, w.cur + |PrintTail(comment, e)|, e)
    ensures w.cur < |s| ==> Tail(s, w).where.cur == w.cur + |PrintTail(comment, e)|
    ensures w.cur == |s| ==> PrintTail(comment, e) == ""
  {
    hide Span, All, AfterNewline, At, Tail, Closed, PrintEnding;
    if w.cur < |s| && s[w.cur] == '#' {
      var c;
      c, e := CommentFrom(s, w);
      comment := Some(c);
    } else {
      comment := None;
      if w.cur < |s| { TailStops(s, w); }
      e := EndingFrom(s, w);
      EndsOnlyThere(s, w.cur, e);
    }
  }

  lemma CommentFrom(s: string, w: Where) returns (c: string, e: Ending)
    requires w.cur < |s| && s[w.cur] == '#' && Tail(s, w).fault == None
    ensures All(c, OnLine)
    ensures At(s, w.cur, PrintTail(Some(c), e)) && Closed(s, w.cur + |PrintTail(Some(c), e)|, e)
    ensures Tail(s, w).where.cur == w.cur + |PrintTail(Some(c), e)|
  {
    hide Span, All, AfterNewline, At, Tail, Closed, PrintEnding, PrintTail;
    TailStops(s, w);
    var text := SpanFrom(s, w.cur, OnLine);
    var p := w.cur + |text|;
    c := text[1..];
    HashFirst(s, w.cur, text);
    e := EndingFrom(s, To(w, p));
    EndsOnlyThere(s, p, e);
    AtAppend(s, w.cur, text, PrintEnding(e));
    CommentSteps(s, w, p);
    CommentPrinted(text, e);
  }

  lemma CommentPrinted(text: string, e: Ending)
    requires text != "" && text == "#" + text[1..]
    ensures PrintTail(Some(text[1..]), e) == text + PrintEnding(e)
  {
    hide PrintEnding;
  }

  /** Without a fault, a line end follows the comment, or what is in its place. */
  lemma TailStops(s: string, w: Where)
    requires w.cur < |s| && Tail(s, w).fault == None
    ensures s[w.cur] == '#' ==> var p := Span(s, w.cur, OnLine); p < |s| ==> IsNewline(s[p])
    ensures s[w.cur] != '#' ==> IsNewline(s[w.cur]) && Tail(s, w) == Turn(AfterNewline(s, w), None, None)
  {
    hide Span, AfterNewline;
  }

  lemma EndsOnlyThere(s: string, p: nat, e: Ending)
    requires At(s, p, PrintEnding(e)) && p <= |s| && Closed(s, p + |PrintEnding(e)|, e)
    ensures p == |s| ==> PrintEnding(e) == ""
  {
  }

  lemma HashFirst(s: string, p: nat, text: string)
    requires p < |s| && s[p] == '#' && At(s, p, text) && All(text, OnLine) && Span(s, p, OnLine) == p + |text|
    ensures text != "" && text == "#" + text[1..] && All(text[1..], OnLine)
  {
    AtChar(s, p, text, 0);
  }

  lemma RowFrom(s: string, w: Where) returns (row: Row)
    requires w.cur < |s| && Line(s, w).fault == None
    ensures GoodRow(row) && At(s, w.cur, PrintRow(row)) && Closed(s, w.cur + |PrintRow(row)|, row.ending)
    ensures Through(Line(s, w), RowEntry(row), w.cur + |PrintRow(row)|)
  {
    hide Assign, Tail, Span, All, At, GoodAssignment, PrintAssignment, PrintTail;
    var indent := SpanFrom(s, w.cur, IsBlank);
    var w1 := To(w, w.cur + |indent|);
    var a: Option<Assignment>, w2 := None, w1;
    if w1.cur < |s| && IsVarid(s[w1.cur]) {
      var found := AssignmentFrom(s, w1);
      a, w2 := Some(found), Assign(s, w1).where;
    } else {
      EmptyAt(s, w1.cur);
    }
    var comment, e := TailFrom(s, w2);
    row := Row(indent, a, comment, e);
    AtAppend(s, w1.cur, PrintMiddle(a), PrintTail(comment, e));
    AtAppend(s, w.cur, indent, PrintMiddle(a) + PrintTail(comment, e));
  }

  lemma EmptyAt(s: string, p: nat)
    requires p <= |s|
    ensures At(s, p, "")
  {
  }

  lemma {:induction false} RowsFrom(s: string, w: Where, acc: seq<Entry>) returns (rows: seq<Row>)
    requires w.cur <= |s| && Lines(s, w, acc).fault == None
    ensures GoodRows(rows) && At(s, w.cur, PrintRows(rows)) && w.cur + |PrintRows(rows)| == |s|
    ensures w.cur == |s| ==> rows == []
    decreases |s| - w.cur
  {
    hide Line, At, GoodRow, PrintRow;
    if w.cur == |s| {
      rows := [];
      EmptyAt(s, w.cur);
    } else {
      var row := RowFrom(s, w);
      var next := Line(s, w).where;
      var rest := RowsFrom(s, next, Inserted(acc, RowEntry(row)));
      rows := [row] + rest;
      assert rows[1..] == rest;
      AtAppend(s, w.cur, PrintRow(row), PrintRows(rest));
      if PrintRows(rest) != "" { AtChar(s, next.cur, PrintRows(rest), 0); }
    }
  }

  /** The text is written as the grammar says. */
  ghost predicate Writes(rows: seq<Row>, s: string) {
    GoodRows(rows) && PrintRows(rows) == s
  }

  /** Wherever the counting of lines starts, a text is accepted if and only if it is written as the grammar
      says. */
  lemma AcceptedIff(s: string, w: Where, before: seq<Entry>)
    requires w.cur == 0
    ensures Lines(s, w, before).fault == None <==> exists rows :: Writes(rows, s)
  {
    hide Line, GoodRow, PrintRow;
    if Lines(s, w, before).fault == None {
      var rows := RowsFrom(s, w, before);
      assert s[0..|s|] == s;
      assert Writes(rows, s);
    }
    if rows :| Writes(rows, s) {
      assert s[0..|s|] == s;
      RowsRead(s, w, rows, before);
    }
  }
}
