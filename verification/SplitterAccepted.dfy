/** Exactly which texts the splitter accepts, and what it passes on of them. */
module SplitterAccepted {
  import opened JsonText
  import opened Splitter
  import opened SplitterJson
  import opened SplitterStreams

  // ---------- the texts ----------

  lemma BlankIsSpace(c: char)
    ensures IsSpace(c) <==> Blank(c)
  {
  }

  /** What stands in a stream: single characters between the objects, and the texts of objects. */
  datatype Piece = Gap(c: char) | Object(text: string)

  /** The beginning of a text that goes from an opening brace to the one that closes it. */
  ghost predicate Begun(s: string) {
    exists w :: Whole(w) && s < w
  }

  /** A stream, an array that has not ended yet, or one that has. `begun` is what has come of the next object. */
  datatype Shape =
    | Stream(pieces: seq<Piece>, begun: string)
    | Unfinished(lead: string, pieces: seq<Piece>, begun: string)
    | Finished(lead: string, pieces: seq<Piece>, rest: string)

  function PrintPiece(p: Piece): string {
    match p case Gap(c) => [c] case Object(w) => w
  }

  function PrintPieces(ps: seq<Piece>): string {
    if ps == [] then "" else PrintPiece(ps[0]) + PrintPieces(ps[1..])
  }

  function PrintShape(s: Shape): string {
    match s
    case Stream(ps, begun) => PrintPieces(ps) + begun
    case Unfinished(lead, ps, begun) => lead + "[" + PrintPieces(ps) + begun
    case Finished(lead, ps, rest) => lead + "[" + PrintPieces(ps) + "]" + rest
  }

  /** Whole objects with white space between them, and commas in an array. */
  ghost predicate GoodPieces(ps: seq<Piece>, commas: bool) {
    forall i | 0 <= i < |ps| ::
      match ps[i] case Gap(c) => Blank(c) || (commas && c == ',') case Object(w) => Whole(w)
  }

  predicate AllBlank(s: string) {
    forall i | 0 <= i < |s| :: Blank(s[i])
  }

  ghost predicate GoodShape(s: Shape) {
    match s
    case Stream(ps, begun) => GoodPieces(ps, false) && Begun(begun)
    case Unfinished(lead, ps, begun) => AllBlank(lead) && GoodPieces(ps, true) && Begun(begun)
    case Finished(lead, ps, _) => AllBlank(lead) && GoodPieces(ps, true)
  }

  function Objects(ps: seq<Piece>): seq<string> {
    if ps == [] then []
    else (match ps[0] case Gap(_) => [] case Object(w) => [w]) + Objects(ps[1..])
  }

  // ---------- beginnings of objects ----------

  ghost predicate Opening(s: string) {
    s != "" && s[0] == '{' && Growing(s)
  }

  lemma GrowingPrefix(s: string, i: nat)
    requires Growing(s) && i <= |s|
    ensures Growing(s[..i])
  {
    hide DepthAfter;
    forall k | 0 < k <= i ensures DepthAfter(s[..i][..k]) > 0 {
      assert s[..i][..k] == s[..k];
    }
  }

  /** With the string closed, one brace after the other closes the object. */
  lemma {:induction false} BracesClose(s: string, d: nat) returns (w: string)
    requires Opening(s) && ModeAt(s, |s|) == Outside && DepthAfter(s) == d + 1
    ensures Whole(w) && s < w
    decreases d
  {
    hide ModeAt, DepthAfter, Growing, Whole;
    if d == 0 {
      ClosedWhole(s);
      w := s + ['}'];
    } else {
      OneMore(s, '}');
      GrowsBy(s, '}');
      w := BracesClose(s + ['}'], d - 1);
    }
  }

  lemma StringCloses(s: string) returns (w: string)
    requires Opening(s) && ModeAt(s, |s|) == Inside
    ensures Whole(w) && s < w
  {
    hide ModeAt, DepthAfter, Growing, Whole;
    OneMore(s, '"');
    Positive(s);
    GrowsBy(s, '"');
    w := BracesClose(s + ['"'], DepthAfter(s) - 1);
  }

  lemma Positive(s: string)
    requires s != "" && Growing(s)
    ensures DepthAfter(s) > 0
  {
    hide DepthAfter;
    assert s[..|s|] == s;
  }

  lemma OpeningCloses(s: string) returns (w: string)
    requires Opening(s)
    ensures Whole(w) && s < w
  {
    hide ModeAt, DepthAfter, Growing, Whole;
    Positive(s);
    match ModeAt(s, |s|)
    case Outside => w := BracesClose(s, DepthAfter(s) - 1);
    case Inside => w := StringCloses(s);
    case Escaping =>
      OneMore(s, 'n');
      GrowsBy(s, 'n');
      w := StringCloses(s + ['n']);
  }

  lemma BegunIff(s: string)
    ensures Begun(s) <==> s == "" || Opening(s)
  {
    hide ModeAt, DepthAfter, Growing;
    NothingGrows();
    if s == "" {
      assert Opening("{");
      var w := OpeningCloses("{");
      assert s < w;
    } else if Opening(s) {
      var w := OpeningCloses(s);
    }
    if Begun(s) && s != "" {
      var w :| Whole(w) && s < w;
      GrowingPrefix(w[..|w| - 1], |s|);
      assert w[..|w| - 1][..|s|] == s;
    }
  }

  // ---------- an object on its own ----------

  /** In the middle of the object of which `s` has been read. */
  ghost function Midway(st: State, s: string): State
    requires DepthAfter(s) >= 0
  {
    var mode := ModeAt(s, |s|);
    st.(seenFirst := true, depth := DepthAfter(s), buffer := s, inString := mode != Outside,
        escapeNext := mode == Escaping)
  }

  lemma {:induction false} OpeningRead(st: State, s: string)
    requires BetweenObjects(st) && Opening(s)
    ensures DepthAfter(s) > 0 && Feed(st, s) == Midway(st, s)
    decreases |s|
  {
    hide Feed, DepthAfter, ModeAt, Growing;
    Positive(s);
    OpenBrace();
    var front, c := s[..|s| - 1], s[|s| - 1];
    if |s| == 1 {
      assert s == "{";
      FeedOne(st, '{');
    } else {
      GrowingPrefix(s, |s| - 1);
      Positive(front);
      OpeningRead(st, front);
      assert s == front + [c];
      FeedAppend(st, front, [c]);
      FeedOne(Midway(st, front), c);
      OneMore(front, c);
    }
  }

  lemma WholeEnds(w: string)
    requires Whole(w)
    ensures |w| >= 2 && w == w[..|w| - 1] + ['}'] && Opening(w[..|w| - 1])
    ensures DepthAfter(w[..|w| - 1]) == 1 && ModeAt(w[..|w| - 1], |w| - 1) == Outside
  {
    hide DepthAfter, ModeAt, Growing;
    OneMore(w[..|w| - 1], '}');
    assert w == w[..|w| - 1] + ['}'];
  }

  lemma WholeRead(st: State, w: string)
    requires BetweenObjects(st) && Whole(w)
    ensures Feed(st, w) == st.(seenFirst := true, out := st.out + [w])
  {
    hide Feed, DepthAfter, ModeAt, Growing, Whole;
    WholeEnds(w);
    var s := w[..|w| - 1];
    OpeningRead(st, s);
    FeedAppend(st, s, ['}']);
    FeedOne(Midway(st, s), '}');
  }

  // ---------- whatever has such a shape is accepted ----------

  ghost function AfterPieces(st: State, ps: seq<Piece>): State {
    st.(seenFirst := st.seenFirst || Objects(ps) != [], out := st.out + Objects(ps))
  }

  lemma {:induction false} PiecesRead(st: State, ps: seq<Piece>)
    requires BetweenObjects(st) && GoodPieces(ps, st.isArray && st.seenFirst)
    ensures Feed(st, PrintPieces(ps)) == AfterPieces(st, ps)
    decreases |ps|
  {
    hide Feed, Whole, AfterPieces, GoodPieces;
    if ps == [] {
      FeedNothing(st);
      NoneRead(st);
    } else {
      FirstPiece(st, ps);
      match ps[0]
      case Gap(c) =>
        GapRead(st, c, PrintPieces(ps[1..]));
        PiecesRead(st, ps[1..]);
      case Object(w) =>
        WholeRead(st, w);
        FeedAppend(st, w, PrintPieces(ps[1..]));
        PiecesRead(st.(seenFirst := true, out := st.out + [w]), ps[1..]);
    }
  }

  lemma NoneRead(st: State)
    ensures AfterPieces(st, []) == st
  {
    assert st.out + [] == st.out;
  }

  lemma FirstPiece(st: State, ps: seq<Piece>)
    requires ps != [] && GoodPieces(ps, st.isArray && st.seenFirst)
    ensures match ps[0]
            case Gap(c) =>
              (Blank(c) || (st.isArray && st.seenFirst && c == ','))
              && GoodPieces(ps[1..], st.isArray && st.seenFirst) && AfterPieces(st, ps) == AfterPieces(st, ps[1..])
            case Object(w) =>
              Whole(w) && GoodPieces(ps[1..], st.isArray)
              && AfterPieces(st, ps) == AfterPieces(st.(seenFirst := true, out := st.out + [w]), ps[1..])
  {
    hide Whole;
    assert GoodPieces(ps[1..], st.isArray && st.seenFirst);
    match ps[0]
    case Gap(c) =>
      assert [] + Objects(ps[1..]) == Objects(ps[1..]);
    case Object(w) =>
      PiecesWider(ps[1..]);
      assert st.out + [w] + Objects(ps[1..]) == st.out + ([w] + Objects(ps[1..]));
  }

  lemma PiecesWider(ps: seq<Piece>)
    ensures GoodPieces(ps, false) ==> GoodPieces(ps, true)
  {
  }

  lemma GapRead(st: State, c: char, rest: string)
    requires BetweenObjects(st) && (Blank(c) || (st.isArray && st.seenFirst && c == ','))
    ensures Feed(st, [c] + rest) == Feed(st, rest)
  {
    hide Feed;
    BlankIsSpace(c);
    FeedOne(st, c);
    FeedAppend(st, [c], rest);
  }

  lemma {:induction false} LeadRead(lead: string, rest: string)
    requires AllBlank(lead)
    ensures Feed(FRESH, lead + "[" + rest) == Feed(IN_ARRAY, rest)
    decreases |lead|
  {
    hide Feed;
    if lead == "" {
      FeedOne(FRESH, '[');
      FeedAppend(FRESH, "[", rest);
      assert lead + "[" + rest == "[" + rest;
    } else {
      GapRead(FRESH, lead[0], lead[1..] + "[" + rest);
      LeadRead(lead[1..], rest);
      assert lead + "[" + rest == [lead[0]] + (lead[1..] + "[" + rest);
    }
  }

  lemma BegunRead(st: State, s: string)
    requires BetweenObjects(st) && Begun(s)
    ensures var r := Feed(st, s); !r.failed && !r.done && r.out == st.out && (r.depth > 0 <==> s != "")
  {
    hide Feed, Growing, DepthAfter, ModeAt;
    BegunIff(s);
    if s == "" { FeedNothing(st); } else { OpeningRead(st, s); }
  }

  ghost predicate ReadAs(st: State, s: Shape) {
    && !st.failed && st.out == Objects(s.pieces)
    && (st.done <==> s.Finished?)
    && (st.depth > 0 <==> !s.Finished? && s.begun != "")
  }

  /** What is passed on is each whole object, in order. Nothing fails; an object is open exactly when one is begun. */
  lemma ShapeRead(s: Shape, chunks: seq<string>)
    requires GoodShape(s) && Joined(chunks) == PrintShape(s)
    ensures ReadAs(FeedAll(FRESH, chunks), s)
  {
    hide Feed, FeedAll, PrintPieces, Objects, GoodPieces, Begun, AllBlank;
    ChunksDoNotMatter(FRESH, chunks);
    var ps := s.pieces;
    match s
    case Stream(_, begun) =>
      PiecesRead(FRESH, ps);
      FeedAppend(FRESH, PrintPieces(ps), begun);
      BegunRead(FRESH.(seenFirst := Objects(ps) != [], out := [] + Objects(ps)), begun);
    case Unfinished(lead, _, begun) =>
      assert PrintShape(s) == lead + "[" + (PrintPieces(ps) + begun);
      LeadRead(lead, PrintPieces(ps) + begun);
      PiecesRead(IN_ARRAY, ps);
      FeedAppend(IN_ARRAY, PrintPieces(ps), begun);
      BegunRead(IN_ARRAY.(out := [] + Objects(ps)), begun);
    case Finished(lead, _, rest) =>
      assert PrintShape(s) == lead + "[" + (PrintPieces(ps) + ("]" + rest));
      LeadRead(lead, PrintPieces(ps) + ("]" + rest));
      PiecesRead(IN_ARRAY, ps);
      FeedAppend(IN_ARRAY, PrintPieces(ps), "]" + rest);
      ArrayEnded(IN_ARRAY.(out := [] + Objects(ps)), rest);
  }

  // ---------- whatever is accepted has such a shape ----------

  /** Either no brace closes the first one, or a whole object comes first. */
  lemma FirstObject(s: string) returns (k: nat)
    requires s != "" && s[0] == '{'
    ensures k <= |s| && if k == 0 then Opening(s) else Whole(s[..k])
  {
    hide DepthAfter, ModeAt;
    OpenBrace();
    if Growing(s) { return 0; }
    k := 1;
    assert s[..1] == "{";
    while DepthAfter(s[..k]) > 0
      invariant 0 < k <= |s|
      invariant forall i | 0 < i < k :: DepthAfter(s[..i]) > 0
      decreases |s| - k
    {
      if k == |s| { assert false; }
      k := k + 1;
    }
    ClosesHere(s, k);
  }

  lemma ClosesHere(s: string, k: nat)
    requires s != "" && s[0] == '{' && 0 < k <= |s| && DepthAfter(s[..k]) <= 0
    requires forall i | 0 < i < k :: DepthAfter(s[..i]) > 0
    ensures Whole(s[..k])
  {
    hide DepthAfter, ModeAt;
    OpenBrace();
    assert s[..1] == "{";
    var front, c := s[..k - 1], s[k - 1];
    assert s[..k] == front + [c];
    OneMore(front, c);
    forall i | 0 < i <= |front| ensures DepthAfter(front[..i]) > 0 {
      assert front[..i] == s[..i];
    }
    assert s[..k][..k - 1] == front;
  }

  ghost predicate Remains(tail: string, inArray: bool) {
    Begun(tail) || (inArray && tail != "" && tail[0] == ']')
  }

  lemma {:induction false} PiecesFound(st: State, data: string) returns (ps: seq<Piece>, tail: string)
    requires BetweenObjects(st) && !Feed(st, data).failed
    requires st.seenFirst || (!st.isArray && data != "" && data[0] == '{')
    ensures GoodPieces(ps, st.isArray) && Remains(tail, st.isArray) && data == PrintPieces(ps) + tail
    decreases |data|
  {
    hide Feed, Whole, Begun;
    BegunIff(data);
    if data == "" {
      return [], "";
    }
    var c, rest := data[0], data[1..];
    assert data == [c] + rest;
    FeedAppend(st, [c], rest);
    FeedOne(st, c);
    BlankIsSpace(c);
    if c == '{' {
      var k := FirstObject(data);
      if k == 0 { return [], data; }
      var w, more := data[..k], data[k..];
      assert data == w + more;
      WholeEnds(w);
      WholeRead(st, w);
      FeedAppend(st, w, more);
      ps, tail := PiecesFound(st.(seenFirst := true, out := st.out + [w]), more);
      ps := InFront(Object(w), ps, tail, st.isArray);
    } else if Blank(c) || (st.isArray && c == ',') {
      ps, tail := PiecesFound(st, rest);
      ps := InFront(Gap(c), ps, tail, st.isArray);
    } else if st.isArray && c == ']' {
      return [], data;
    } else {
      StopsAtEnd(Step(st, c), rest);
      assert false;
    }
  }

  lemma InFront(p: Piece, ps: seq<Piece>, tail: string, commas: bool) returns (all: seq<Piece>)
    requires GoodPieces(ps, commas) && GoodPieces([p], commas)
    ensures GoodPieces(all, commas) && PrintPieces(all) + tail == PrintPiece(p) + (PrintPieces(ps) + tail)
  {
    hide Whole;
    all := [p] + ps;
    assert all[1..] == ps && [p][0] == p;
    assert forall i | 0 < i < |all| :: all[i] == ps[i - 1];
  }

  /** The shape of an accepted text. */
  lemma {:induction false} ShapeFound(data: string) returns (s: Shape)
    requires !Feed(FRESH, data).failed
    ensures GoodShape(s) && PrintShape(s) == data
    decreases |data|
  {
    hide Feed, PrintPieces, GoodPieces, Begun;
    BegunIff("");
    if data == "" {
      NoPieces();
      return Stream([], "");
    }
    var c, rest := data[0], data[1..];
    assert data == [c] + rest;
    FeedAppend(FRESH, [c], rest);
    FeedOne(FRESH, c);
    BlankIsSpace(c);
    if Blank(c) {
      s := ShapeFound(rest);
      s := BlankInFront(c, s);
    } else if c == '{' {
      var ps, tail := PiecesFound(FRESH, data);
      return Stream(ps, tail);
    } else if c == '[' {
      var ps, tail := PiecesFound(IN_ARRAY, rest);
      assert data == "" + "[" + PrintPieces(ps) + tail;
      if Begun(tail) { return Unfinished("", ps, tail); }
      assert tail == "]" + tail[1..];
      return Finished("", ps, tail[1..]);
    } else {
      StopsAtEnd(Step(FRESH, c), rest);
      assert false;
    }
  }

  lemma NoPieces()
    ensures GoodPieces([], false) && PrintPieces([]) + "" == ""
  {
  }

  lemma BlankInFront(c: char, s: Shape) returns (t: Shape)
    requires Blank(c) && GoodShape(s)
    ensures GoodShape(t) && PrintShape(t) == [c] + PrintShape(s)
  {
    hide Begun, GoodPieces, PrintPieces;
    match s
    case Stream(ps, begun) =>
      BlankIsPiece(c);
      var all := InFront(Gap(c), ps, begun, false);
      t := Stream(all, begun);
    case Unfinished(lead, ps, begun) =>
      t := Unfinished([c] + lead, ps, begun);
      assert PrintShape(t) == [c] + PrintShape(s);
    case Finished(lead, ps, rest) =>
      t := Finished([c] + lead, ps, rest);
      assert PrintShape(t) == [c] + PrintShape(s);
  }

  lemma BlankIsPiece(c: char)
    requires Blank(c)
    ensures GoodPieces([Gap(c)], false)
  {
  }

  ghost predicate HasShape(data: string) {
    exists s :: GoodShape(s) && PrintShape(s) == data
  }

  /** A text, fed in any pieces, is not refused if and only if it is the beginning of a stream of whole objects
      with white space between them, or of an array of such with white space and commas, after the end of which
      anything may come. */
  lemma AcceptedIff(data: string, chunks: seq<string>)
    requires Joined(chunks) == data
    ensures !FeedAll(FRESH, chunks).failed <==> HasShape(data)
  {
    hide Feed, FeedAll, GoodShape, PrintShape;
    ChunksDoNotMatter(FRESH, chunks);
    if !Feed(FRESH, data).failed {
      var s := ShapeFound(data);
    }
    if HasShape(data) {
      var s :| GoodShape(s) && PrintShape(s) == data;
      ShapeRead(s, chunks);
    }
  }

  /** A load goes on if and only if the text ends between objects, too. */
  lemma LoadedIff(data: string, chunks: seq<string>)
    requires Joined(chunks) == data
    ensures var st := FeedAll(FRESH, chunks);
      !st.failed && st.depth == 0
      <==> exists s :: GoodShape(s) && PrintShape(s) == data && (s.Finished? || s.begun == "")
  {
    hide Feed, FeedAll, GoodShape, PrintShape;
    ChunksDoNotMatter(FRESH, chunks);
    if !Feed(FRESH, data).failed {
      var s := ShapeFound(data);
      ShapeRead(s, chunks);
    }
    if s :| GoodShape(s) && PrintShape(s) == data && (s.Finished? || s.begun == "") {
      ShapeRead(s, chunks);
    }
  }
}
