/** Where the configuration parser says that it is, and exactly when that is right. */
module ConfigPlaces {
  import opened Wrappers
  import opened Config

  /** The line feeds before a position. */
  function LineFeeds(s: string, p: nat): nat
    requires p <= |s|
  {
    if p == 0 then 0 else LineFeeds(s, p - 1) + if s[p - 1] == '\n' then 1 else 0
  }

  /** The column of a position: from one after a line feed, from zero on the first line. */
  function Column(s: string, p: nat): nat
    requires p <= |s|
  {
    if p == 0 then 0 else if s[p - 1] == '\n' then 1 else Column(s, p - 1) + 1
  }

  /** The line is ahead of the line feeds by `n`; if it is not ahead, the column is right too. */
  ghost predicate AheadBy(s: string, w: Where, n: nat) {
    w.cur <= |s| && w.line == LineFeeds(s, w.cur) + n && (n == 0 ==> w.col == Column(s, w.cur))
  }

  /** Line and column are those of the position. */
  ghost predicate Located(s: string, w: Where) {
    w.cur <= |s| && w.line == LineFeeds(s, w.cur) && w.col == Column(s, w.cur)
  }

  // ---------- row ends that are no line feeds ----------

  /** A line without fault that ended in a carriage return alone. */
  predicate EndsInCr(s: string, t: Turn)
    requires t.where.cur <= |s|
  {
    t.fault == None && t.where.cur > 0 && s[t.where.cur - 1] == '\r'
  }

  /** How many of the lines that are read from here end in a carriage return alone. */
  function CrLines(s: string, w: Where): nat
    requires w.cur <= |s|
    decreases |s| - w.cur
  {
    if w.cur == |s| then 0
    else
      var t := Line(s, w);
      if t.fault != None then 0 else (if EndsInCr(s, t) then 1 else 0) + CrLines(s, t.where)
  }

  // ---------- the rules keep the place ----------

  lemma {:induction false} Along(s: string, w: Where, p: nat, n: nat)
    requires AheadBy(s, w, n) && w.cur <= p <= |s| && forall i | w.cur <= i < p :: s[i] != '\n'
    ensures AheadBy(s, To(w, p), n)
    decreases p
  {
    if p > w.cur { Along(s, w, p - 1, n); }
  }

  lemma {:induction false} SpanKeeps(s: string, p: nat, keep: char -> bool)
    requires p <= |s|
    ensures forall i | p <= i < Span(s, p, keep) :: keep(s[i])
    decreases |s| - p
  {
    if p < |s| && keep(s[p]) { SpanKeeps(s, p + 1, keep); }
  }

  lemma SpanPlaced(s: string, w: Where, keep: char -> bool, n: nat)
    requires AheadBy(s, w, n) && !keep('\n')
    ensures AheadBy(s, To(w, Span(s, w.cur, keep)), n)
  {
    hide AheadBy;
    assert w.cur <= |s| by { Inside(s, w, n); }
    SpanKeeps(s, w.cur, keep);
    Along(s, w, Span(s, w.cur, keep), n);
  }

  lemma Inside(s: string, w: Where, n: nat)
    requires AheadBy(s, w, n)
    ensures w.cur <= |s|
  {
  }

  lemma {:induction false} ClosingPlaced(s: string, w: Where, n: nat)
    requires AheadBy(s, w, n)
    ensures match Closing(s, w)
            case Ok(end) => AheadBy(s, end, n) && s[end.cur] == '?' && s[end.cur + 1] == '>'
            case Err(at) => AheadBy(s, at, n) && at.cur + 1 >= |s|
    decreases |s| - w.cur
  {
    if w.cur < |s| {
      ClosingPlaced(s, if s[w.cur] == '\n' then Where(w.cur + 1, w.line + 1, 1) else To(w, w.cur + 1), n);
    }
  }

  /** The fault and the text at its place belong together. */
  ghost predicate Fits(s: string, fault: Fault, p: nat) {
    match fault
    case UnexpectedEnd => p + 1 >= |s|
    case ExpectedEquals(c) => p < |s| && s[p] == c && c != '='
    case ExpectedEndOfLine(c) => p < |s| && s[p] == c && !IsNewline(c)
  }

  ghost predicate Placed(s: string, t: Turn, n: nat) {
    AheadBy(s, t.where, n) && (t.fault.Some? ==> Fits(s, t.fault.value, t.where.cur))
  }

  lemma ValuePlaced(s: string, w: Where, name: string, n: nat)
    requires AheadBy(s, w, n) && w.cur < |s|
    ensures Placed(s, Value(s, w, name), n)
  {
    hide Closing, LineFeeds, Column, Span, Trimmed;
    if IsMulti(s, w.cur) {
      Along(s, w, w.cur + 2, n);
      var from := To(w, w.cur + 2);
      ClosingPlaced(s, from, n);
      if Closing(s, from).Ok? {
        var end := Closing(s, from).value;
        Along(s, end, end.cur + 2, n);
        SpanPlaced(s, To(end, end.cur + 2), IsBlank, n);
      }
    } else {
      SpanPlaced(s, w, InSingleValue, n);
    }
  }

  lemma AssignPlaced(s: string, w: Where, n: nat)
    requires AheadBy(s, w, n) && w.cur < |s|
    ensures Placed(s, Assign(s, w), n)
  {
    hide Value, LineFeeds, Column, Span, AheadBy;
    var w1 := To(w, Span(s, w.cur, IsVarid));
    var w2 := SkipWs(s, w1);
    SpanPlaced(s, w, IsVarid, n);
    SpanPlaced(s, w1, IsBlank, n);
    if w2.cur < |s| && s[w2.cur] == '=' {
      var w3 := SkipWs(s, To(w2, w2.cur + 1));
      Along(s, w2, w2.cur + 1, n);
      SpanPlaced(s, To(w2, w2.cur + 1), IsBlank, n);
      if w3.cur < |s| { ValuePlaced(s, w3, s[w.cur..w1.cur], n); }
    }
  }

  /** A carriage return alone puts the line one more ahead; a line feed, with one before it or not, does not. */
  lemma NewlinePlaced(s: string, w: Where, n: nat)
    requires AheadBy(s, w, n) && w.cur < |s| && IsNewline(s[w.cur])
    ensures var next := AfterNewline(s, w);
      AheadBy(s, next, if s[next.cur - 1] == '\r' then n + 1 else n)
  {
  }

  /** The lead after a line. */
  function LeadAfter(s: string, t: Turn, n: nat): nat
    requires t.where.cur <= |s|
  {
    if EndsInCr(s, t) then n + 1 else n
  }

  lemma TailPlaced(s: string, w: Where, n: nat)
    requires AheadBy(s, w, n) && w.cur < |s|
    ensures Placed(s, Tail(s, w), LeadAfter(s, Tail(s, w), n))
  {
    hide LineFeeds, Column, Span, AheadBy, AfterNewline;
    var w1 := if s[w.cur] == '#' then To(w, Span(s, w.cur, OnLine)) else w;
    SpanPlaced(s, w, OnLine, n);
    SpanKeeps(s, w.cur, OnLine);
    if w1.cur < |s| && IsNewline(s[w1.cur]) { NewlinePlaced(s, w1, n); }
  }

  predicate NotAfterCr(s: string, p: nat) {
    0 < p <= |s| && s[p - 1] != '\r'
  }

  lemma SpanNotAfterCr(s: string, p: nat, keep: char -> bool)
    requires p <= |s| && !keep('\r')
    ensures NotAfterCr(s, p) || Span(s, p, keep) > p ==> NotAfterCr(s, Span(s, p, keep))
  {
    SpanKeeps(s, p, keep);
  }

  lemma {:induction false} ClosingMarks(s: string, w: Where)
    requires w.cur <= |s|
    ensures var c := Closing(s, w); c.Ok? ==> s[c.value.cur + 1] == '>'
    decreases |s| - w.cur
  {
    if w.cur < |s| {
      ClosingMarks(s, if s[w.cur] == '\n' then Where(w.cur + 1, w.line + 1, 1) else To(w, w.cur + 1));
    }
  }

  /** An assignment does not end behind a carriage return. */
  lemma AssignNotAfterCr(s: string, w: Where)
    requires w.cur < |s| && IsVarid(s[w.cur])
    ensures Assign(s, w).fault == None ==> NotAfterCr(s, Assign(s, w).where.cur)
  {
    hide Value, Span;
    var w2 := SkipWs(s, To(w, Span(s, w.cur, IsVarid)));
    if w2.cur < |s| && s[w2.cur] == '=' {
      var w3 := SkipWs(s, To(w2, w2.cur + 1));
      SpanNotAfterCr(s, w2.cur + 1, IsBlank);
      if w3.cur < |s| { ValueNotAfterCr(s, w3, s[w.cur..Span(s, w.cur, IsVarid)]); }
    }
  }

  lemma ValueNotAfterCr(s: string, w: Where, name: string)
    requires w.cur < |s| && NotAfterCr(s, w.cur)
    ensures Value(s, w, name).fault == None ==> NotAfterCr(s, Value(s, w, name).where.cur)
  {
    hide Closing, Span;
    ClosingMarks(s, To(w, if IsMulti(s, w.cur) then w.cur + 2 else w.cur));
    if IsMulti(s, w.cur) && Closing(s, To(w, w.cur + 2)).Ok? {
      SpanNotAfterCr(s, Closing(s, To(w, w.cur + 2)).value.cur + 2, IsBlank);
    } else {
      SpanNotAfterCr(s, w.cur, InSingleValue);
    }
  }

  lemma LinePlaced(s: string, w: Where, n: nat)
    requires AheadBy(s, w, n) && w.cur < |s|
    ensures Placed(s, Line(s, w), LeadAfter(s, Line(s, w), n))
  {
    hide Assign, Tail, AheadBy, Span, Fits;
    var w1 := SkipWs(s, w);
    SpanPlaced(s, w, IsBlank, n);
    SpanNotAfterCr(s, w.cur, IsBlank);
    if w1.cur < |s| {
      var a := if IsVarid(s[w1.cur]) then Assign(s, w1) else Turn(w1, None, None);
      if IsVarid(s[w1.cur]) {
        AssignPlaced(s, w1, n);
        AssignNotAfterCr(s, w1);
      }
      if a.fault == None && a.where.cur < |s| { TailPlaced(s, a.where, n); }
    }
  }

  /** The place a parse ends with: at a fault where the text does not fit, or at the end of the text. */
  ghost predicate EndsWell(s: string, o: Outcome) {
    o.where.cur <= |s| && if o.fault.Some? then Fits(s, o.fault.value, o.where.cur) else o.where.cur == |s|
  }

  lemma {:induction false} LinesPlaced(s: string, w: Where, entries: seq<Entry>, n: nat)
    requires AheadBy(s, w, n)
    ensures AheadBy(s, Lines(s, w, entries).where, n + CrLines(s, w)) && EndsWell(s, Lines(s, w, entries))
    decreases |s| - w.cur
  {
    hide Line, LineFeeds, Column, Fits;
    if w.cur < |s| {
      LinePlaced(s, w, n);
      var t := Line(s, w);
      if t.fault == None { LinesPlaced(s, t.where, Inserted(entries, t.entry), LeadAfter(s, t, n)); }
    }
  }

  /** Whatever the input: the line that is reported, at the end or with a fault, is the number of line feeds
      before the place plus the number of lines that ended in a carriage return alone. So line and column are
      those of the place if and only if no line did, and a lead is never lost again. */
  lemma PlaceIsRightIff(s: string)
    ensures EndsWell(s, Parsed(s))
    ensures Parsed(s).where.line == LineFeeds(s, Parsed(s).where.cur) + CrLines(s, BEGIN)
    ensures Located(s, Parsed(s).where) <==> CrLines(s, BEGIN) == 0
  {
    hide Lines, CrLines, Fits;
    assert AheadBy(s, BEGIN, 0);
    LinesPlaced(s, BEGIN, [], 0);
  }

  // ---------- texts without lone carriage returns ----------

  predicate NoLoneCr(s: string) {
    forall i | 0 <= i < |s| && s[i] == '\r' :: i + 1 < |s| && s[i + 1] == '\n'
  }

  lemma {:induction false} NoCrLines(s: string, w: Where)
    requires NoLoneCr(s) && w.cur <= |s|
    ensures CrLines(s, w) == 0
    decreases |s| - w.cur
  {
    hide Line;
    if w.cur < |s| {
      var t := Line(s, w);
      if t.fault == None {
        CrLineIsLone(s, w);
        NoCrLines(s, t.where);
      }
    }
  }

  /** A line that ends in a carriage return is not followed by a line feed. */
  lemma CrLineIsLone(s: string, w: Where)
    requires w.cur < |s|
    ensures var t := Line(s, w); EndsInCr(s, t) ==> t.where.cur == |s| || s[t.where.cur] != '\n'
  {
    hide Assign, Span;
    var w1 := SkipWs(s, w);
    SpanNotAfterCr(s, w.cur, IsBlank);
    if w1.cur < |s| {
      var a := if IsVarid(s[w1.cur]) then Assign(s, w1) else Turn(w1, None, None);
      if IsVarid(s[w1.cur]) { AssignNotAfterCr(s, w1); }
      if a.fault == None && a.where.cur < |s| { SpanNotAfterCr(s, a.where.cur, OnLine); }
    }
  }

  /** With no lone carriage return anywhere, every place is right. */
  lemma PlacesAreRight(s: string)
    requires NoLoneCr(s)
    ensures Located(s, Parsed(s).where) && EndsWell(s, Parsed(s))
  {
    hide Parsed, EndsWell, Located;
    PlaceIsRightIff(s);
    NoCrLines(s, BEGIN);
  }
}
