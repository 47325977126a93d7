/** Which cuts of a stream of objects the splitter notices, and what it has passed on by then. */
module SplitterCuts {
  import opened Text
  import opened Splitter
  import opened SplitterJson
  import opened SplitterStreams

  // ---------- what happens to the sink ----------

  lemma {:induction false} SinkGrows(st: State, data: string)
    ensures st.out <= Feed(st, data).out
    decreases |data|
  {
    hide Feed;
    if data == "" {
      FeedNothing(st);
    } else {
      FeedFirst(st, data);
      SinkGrows(Step(st, data[0]), data[1..]);
    }
  }

  lemma FeedFirst(st: State, data: string)
    requires data != ""
    ensures Feed(st, data) == Feed(Step(st, data[0]), data[1..])
  {
    hide Step;
  }

  /** An open object is closed only by passing it on. */
  lemma {:induction false} OpenUntilPassedOn(st: State, data: string)
    requires st.depth > 0
    ensures Feed(st, data).depth > 0 || |Feed(st, data).out| > |st.out|
    decreases |data|
  {
    hide Feed;
    if data == "" {
      FeedNothing(st);
    } else {
      var next := Step(st, data[0]);
      FeedFirst(st, data);
      SinkGrows(next, data[1..]);
      if next.depth > 0 { OpenUntilPassedOn(next, data[1..]); }
    }
  }

  /** The first text that is passed on is no longer than what has been read for it. */
  lemma {:induction false} FirstPassedOn(st: State, data: string)
    ensures var out := Feed(st, data).out; |out| > |st.out| ==> |out[|st.out|]| <= |st.buffer| + |data|
    decreases |data|
  {
    hide Feed;
    if data == "" {
      FeedNothing(st);
    } else {
      var next := Step(st, data[0]);
      FeedFirst(st, data);
      SinkGrows(next, data[1..]);
      if |next.out| == |st.out| { FirstPassedOn(next, data[1..]); }
    }
  }

  // ---------- a cut in an object, and a cut around one ----------

  /** Strictly inside the text of an object the object is open, and nothing has been passed on for it. */
  lemma CutInObject(st: State, pad: string, members: seq<Member>, cut: nat)
    requires BetweenObjects(st) && GoodValue(Obj(pad, members)) && 0 < cut < |PrintValue(Obj(pad, members))|
    ensures var mid := Feed(st, PrintValue(Obj(pad, members))[..cut]);
      mid.depth > 0 && mid.out == st.out && !mid.failed
  {
    hide Feed, PrintValue, GoodValue;
    var w := PrintValue(Obj(pad, members));
    var mid, last := Feed(st, w[..cut]), Feed(st, w);
    ObjectPassedOn(st, pad, members);
    assert w[..cut] + w[cut..] == w;
    FeedAppend(st, w[..cut], w[cut..]);
    SinkGrows(st, w[..cut]);
    SinkGrows(mid, w[cut..]);
    StopsAtEnd(mid, w[cut..]);
    FirstPassedOn(st, w[..cut]);
    assert w[0] == '{' by { OpensWithBrace(pad, members); }
    FeedFirst(st, w[..cut]);
    OpenUntilPassedOn(Step(st, '{'), w[..cut][1..]);
  }

  lemma OpensWithBrace(pad: string, members: seq<Member>)
    ensures var w := PrintValue(Obj(pad, members)); w != "" && w[0] == '{'
  {
  }

  lemma CutInGap(st: State, w: string, cut: nat)
    requires BetweenObjects(st) && White(w) && cut <= |w|
    ensures Feed(st, w[..cut]) == st
  {
    GapIgnored(st, w[..cut]);
  }

  /** The state after a cut of `e`, between objects before. */
  ghost predicate CutItem(st: State, mid: State, e: Item, cut: nat) {
    var start, end := |e.before|, |e.before| + |PrintValue(e.value)|;
    && !mid.failed
    && (mid.depth > 0 <==> start < cut < end)
    && mid.out == if end <= cut then st.out + [PrintValue(e.value)] else st.out
  }

  lemma ItemCut(st: State, e: Item, cut: nat)
    requires BetweenObjects(st) && GoodItem(e) && e.value.Obj? && cut <= |PrintItem(e)|
    ensures CutItem(st, Feed(st, PrintItem(e)[..cut]), e, cut)
  {
    hide Feed, PrintValue, GoodValue, White;
    var w := PrintValue(e.value);
    var end := |e.before| + |w|;
    assert w != "" by { OpensWithBrace(e.value.pad, e.value.members); }
    if cut <= |e.before| {
      assert PrintItem(e)[..cut] == e.before[..cut];
      CutInGap(st, e.before, cut);
    } else {
      GapIgnored(st, e.before);
      if cut < end {
        assert PrintItem(e)[..cut] == e.before + w[..cut - |e.before|];
        FeedAppend(st, e.before, w[..cut - |e.before|]);
        CutInObject(st, e.value.pad, e.value.members, cut - |e.before|);
      } else {
        var after := e.after[..cut - end];
        var sent := st.(seenFirst := true, out := st.out + [w]);
        assert PrintItem(e)[..cut] == (e.before + w) + after;
        FeedAppend(st, e.before + w, after);
        FeedAppend(st, e.before, w);
        ObjectPassedOn(st, e.value.pad, e.value.members);
        CutInGap(sent, e.after, cut - end);
      }
    }
  }

  // ---------- cuts of several objects ----------

  /** Objects with something between each two of them: a comma in an array, nothing in a stream. */
  function PrintAll(between: string, items: seq<Item>): string {
    if items == [] then ""
    else PrintItem(items[0]) + if |items| == 1 then "" else between + PrintAll(between, items[1..])
  }

  /** Where the text of the k-th object starts. */
  function ObjectAt(between: string, items: seq<Item>, k: nat): nat
    requires k < |items|
  {
    if k == 0 then |items[0].before|
    else |PrintItem(items[0])| + |between| + ObjectAt(between, items[1..], k - 1)
  }

  /** Where it ends. */
  function ObjectEnd(between: string, items: seq<Item>, k: nat): nat
    requires k < |items|
  {
    ObjectAt(between, items, k) + |PrintValue(items[k].value)|
  }

  lemma {:induction false} ObjectStands(between: string, items: seq<Item>, k: nat)
    requires k < |items|
    ensures At(PrintAll(between, items), ObjectAt(between, items, k), PrintValue(items[k].value))
    decreases k
  {
    hide PrintValue;
    var all, first := PrintAll(between, items), PrintItem(items[0]);
    if k == 0 {
      var w, rest := PrintValue(items[0].value), all[|first|..];
      assert all == items[0].before + w + (items[0].after + rest);
      AtFramed(items[0].before, w, items[0].after + rest);
    } else {
      var rest, p := PrintAll(between, items[1..]), |first| + |between|;
      ObjectStands(between, items[1..], k - 1);
      assert all == first + between + rest + "";
      AtFramed(first + between, rest, "");
      var q, w := ObjectAt(between, items[1..], k - 1), PrintValue(items[k].value);
      AtSlice(all, p, rest, q, q + |w|);
    }
  }

  /** The cut at `cut` lies strictly inside the text of an object. */
  ghost predicate InsideObject(between: string, items: seq<Item>, cut: int) {
    exists k | 0 <= k < |items| :: ObjectAt(between, items, k) < cut < ObjectEnd(between, items, k)
  }

  /** The state after a cut: an object is open exactly if the cut is inside one, and exactly the objects that
      end before it have been passed on. */
  ghost predicate Cut(st: State, sent: seq<string>, between: string, items: seq<Item>, cut: int) {
    && !st.failed
    && (st.depth > 0 <==> InsideObject(between, items, cut))
    && sent <= st.out <= sent + Texts(items)
    && forall k | 0 <= k < |items| :: |sent| + k < |st.out| <==> ObjectEnd(between, items, k) <= cut
  }

  lemma {:induction false} CutAll(st: State, between: string, items: seq<Item>, cut: nat)
    requires BetweenObjects(st) && AllObjects(items) && cut <= |PrintAll(between, items)|
    requires between == "" || (between == "," && st.seenFirst && st.isArray)
    ensures Cut(Feed(st, PrintAll(between, items)[..cut]), st.out, between, items, cut)
    decreases |items|
  {
    hide Feed, PrintItem, GoodItem, Texts, PrintValue, Cut;
    if items == [] {
      FeedNothing(st);
      CutNothing(st, between);
    } else {
      var all, first, rest := PrintAll(between, items), PrintItem(items[0]), PrintAll(between, items[1..]);
      if cut <= |first| {
        assert all[..cut] == first[..cut];
        ItemCut(st, items[0], cut);
        CutInFirst(st, Feed(st, all[..cut]), between, items, cut);
      } else {
        var next := st.(seenFirst := true, out := st.out + [PrintValue(items[0].value)]);
        var i := cut - |first| - |between|;
        ItemPassedOn(st, items[0]);
        assert all == first + (between + rest);
        assert all[..cut] == first + (between + rest[..i]);
        FeedAppend(st, first, between + rest[..i]);
        if between == "," { CommaIgnored(next, rest[..i]); } else { assert between + rest[..i] == rest[..i]; }
        CutAll(next, between, items[1..], i);
        CutLater(st, next, Feed(st, all[..cut]), between, items, cut);
      }
    }
  }

  lemma CutNothing(st: State, between: string)
    requires BetweenObjects(st)
    ensures Cut(st, st.out, between, [], 0)
  {
  }

  lemma CutInFirst(st: State, mid: State, between: string, items: seq<Item>, cut: nat)
    requires items != [] && AllObjects(items) && CutItem(st, mid, items[0], cut) && cut <= |PrintItem(items[0])|
    ensures Cut(mid, st.out, between, items, cut)
  {
    hide PrintValue, GoodItem;
    forall k | 0 < k < |items| ensures cut <= ObjectAt(between, items, k) < ObjectEnd(between, items, k) {
      OpensWithBrace(items[k].value.pad, items[k].value.members);
    }
    assert ObjectAt(between, items, 0) == |items[0].before|;
    assert ObjectEnd(between, items, 0) == |items[0].before| + |PrintValue(items[0].value)|;
    assert Texts(items)[0] == PrintValue(items[0].value);
  }

  lemma CutLater(st: State, next: State, mid: State, between: string, items: seq<Item>, cut: nat)
    requires items != [] && next.out == st.out + [PrintValue(items[0].value)] && cut > |PrintItem(items[0])|
    requires Cut(mid, next.out, between, items[1..], cut - |PrintItem(items[0])| - |between|)
    ensures Cut(mid, st.out, between, items, cut)
  {
    hide PrintValue;
    var i := cut - |PrintItem(items[0])| - |between|;
    var rest := items[1..];
    forall k | 0 < k < |items|
      ensures ObjectAt(between, items, k) - cut == ObjectAt(between, rest, k - 1) - i
      ensures ObjectEnd(between, items, k) - cut == ObjectEnd(between, rest, k - 1) - i
    {
    }
    assert st.out + Texts(items) == next.out + Texts(rest);
    assert ObjectEnd(between, items, 0) <= |PrintItem(items[0])|;
    forall k | 0 <= k < |rest| && ObjectAt(between, rest, k) < i < ObjectEnd(between, rest, k)
      ensures ObjectAt(between, items, k + 1) < cut < ObjectEnd(between, items, k + 1)
    {
    }
  }

  // ---------- streams and arrays ----------

  lemma {:induction false} StreamIsAll(items: seq<Item>)
    ensures PrintStream(items) == PrintAll("", items)
  {
    hide PrintItem;
    if items != [] { StreamIsAll(items[1..]); }
  }

  lemma {:induction false} ItemsAreAll(items: seq<Item>)
    requires items != []
    ensures PrintItems(items) == PrintAll(",", items)
  {
    hide PrintItem;
    if |items| > 1 { ItemsAreAll(items[1..]); }
  }

  /** A stream of objects that is cut anywhere, fed in any pieces, is reported as incomplete if and only if the
      cut is strictly inside the text of an object; the objects that end before it have been passed on. */
  lemma StreamCutIff(items: seq<Item>, cut: nat, chunks: seq<string>)
    requires AllObjects(items) && cut <= |PrintStream(items)| && Joined(chunks) == PrintStream(items)[..cut]
    ensures Cut(FeedAll(FRESH, chunks), [], "", items, cut)
  {
    hide Feed, AllObjects, Cut;
    ChunksDoNotMatter(FRESH, chunks);
    StreamIsAll(items);
    CutAll(FRESH, "", items, cut);
  }

  /** A position in the text of an array, counted from its bracket. */
  function InArray(lead: string, p: nat): int {
    p - |lead| - 1
  }

  /** The objects do stand where they are said to start. */
  lemma ArrayObjectStands(lead: string, pad: string, items: seq<Item>, rest: string, k: nat)
    requires k < |items|
    ensures var p := |lead| + 1 + ObjectAt(",", items, k);
      At(lead + PrintValue(Arr(pad, items)) + rest, p, PrintValue(items[k].value))
      && InArray(lead, p) == ObjectAt(",", items, k)
  {
    hide PrintValue, At;
    var body, p, w := PrintItems(items), ObjectAt(",", items, k), PrintValue(items[k].value);
    PrintArray(pad, items);
    ItemsAreAll(items);
    ObjectStands(",", items, k);
    var text := lead + PrintValue(Arr(pad, items)) + rest;
    assert text == lead + "[" + body + ("]" + rest);
    AtFramed(lead + "[", body, "]" + rest);
    AtEnd(body, p, w);
    AtSlice(text, |lead| + 1, body, p, p + |w|);
  }

  lemma AtEnd(s: string, p: nat, w: string)
    requires At(s, p, w)
    ensures p + |w| <= |s| && s[p..p + |w|] == w
  {
  }

  /** The same for an array, with white space before it and anything after it. */
  lemma ArrayCutIff(lead: string, pad: string, items: seq<Item>, rest: string, cut: nat, chunks: seq<string>)
    requires White(lead) && White(pad) && AllObjects(items)
    requires var text := lead + PrintValue(Arr(pad, items)) + rest; cut <= |text| && Joined(chunks) == text[..cut]
    ensures Cut(FeedAll(FRESH, chunks), [], ",", items, InArray(lead, cut))
  {
    hide Feed, AllObjects, Cut, White, PrintValue, Body;
    var text, body := lead + PrintValue(Arr(pad, items)) + rest, Body(pad, items);
    ChunksDoNotMatter(FRESH, chunks);
    PrintArray(pad, items);
    var i := cut - |lead| - 1;
    if i <= 0 {
      CutBeforeBody(lead, text, cut);
      NotBegun(Feed(FRESH, text[..cut]), items, i);
    } else if i <= |body| {
      assert text[..cut] == lead + ("[" + body[..i]);
      ArrayBegun(lead, body[..i]);
      BodyCut(pad, items, i);
    } else {
      var tail := text[|lead| + 1 + |body|..cut];
      assert text[..cut] == lead + ("[" + (body + tail)) && tail[0] == ']';
      ArrayBegun(lead, body + tail);
      BodyPassedOn(pad, items, tail);
      assert tail == "]" + tail[1..];
      ArrayEnded(IN_ARRAY.(out := Texts(items)), tail[1..]);
      AllSent(IN_ARRAY.(out := Texts(items), done := true), pad, items, i);
    }
  }

  lemma CutBeforeBody(lead: string, text: string, cut: nat)
    requires White(lead) && |lead| < |text| && text[..|lead|] == lead && text[|lead|] == '[' && cut <= |lead| + 1
    ensures Feed(FRESH, text[..cut]) == if cut <= |lead| then FRESH else IN_ARRAY
  {
    hide Feed;
    if cut <= |lead| {
      assert text[..cut] == lead[..cut];
      CutInGap(FRESH, lead, cut);
    } else {
      assert text[..cut] == lead + ("[" + "");
      ArrayBegun(lead, "");
      FeedNothing(IN_ARRAY);
    }
  }

  lemma NotBegun(st: State, items: seq<Item>, i: int)
    requires !st.failed && st.depth == 0 && st.out == [] && i <= 0 && AllObjects(items)
    ensures Cut(st, [], ",", items, i)
  {
    hide PrintValue, GoodItem;
    forall k | 0 <= k < |items| ensures ObjectEnd(",", items, k) > 0 {
      OpensWithBrace(items[k].value.pad, items[k].value.members);
    }
  }

  lemma BodyCut(pad: string, items: seq<Item>, i: nat)
    requires White(pad) && AllObjects(items) && i <= |Body(pad, items)|
    ensures Cut(Feed(IN_ARRAY, Body(pad, items)[..i]), [], ",", items, i)
  {
    hide Feed, AllObjects, Cut;
    if items == [] {
      CutInGap(IN_ARRAY, pad, i);
      NoneToCut(IN_ARRAY, i);
    } else {
      ItemsAreAll(items);
      CutAll(IN_ARRAY, ",", items, i);
    }
  }

  lemma NoneToCut(st: State, i: nat)
    requires BetweenObjects(st) && st.out == []
    ensures Cut(st, [], ",", [], i)
  {
  }

  lemma AllSent(st: State, pad: string, items: seq<Item>, i: int)
    requires !st.failed && st.depth == 0 && st.out == Texts(items) && i >= |Body(pad, items)|
    ensures Cut(st, [], ",", items, i)
  {
    hide PrintValue;
    forall k | 0 <= k < |items| ensures ObjectEnd(",", items, k) <= i {
      ItemsAreAll(items);
      ObjectStands(",", items, k);
    }
  }
}
