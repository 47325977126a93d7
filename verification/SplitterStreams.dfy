/** What the splitter makes of arrays and streams of JSON objects. */
module SplitterStreams {
  import opened Splitter
  import opened SplitterJson

  /** Between objects, with nothing wrong so far. */
  ghost predicate BetweenObjects(st: State) {
    !st.failed && !st.done && st.depth == 0 && !st.inString && !st.escapeNext && st.buffer == ""
  }

  /** A whole object is passed on as soon as its last brace has been read. */
  lemma ObjectPassedOn(st: State, pad: string, members: seq<Member>)
    requires BetweenObjects(st) && GoodValue(Obj(pad, members))
    ensures Feed(st, PrintValue(Obj(pad, members)))
         == st.(seenFirst := true, out := st.out + [PrintValue(Obj(pad, members))])
  {
    hide PrintMembers, GoodMember;
    var w := Inner(pad, members);
    FeedOne(st, '{');
    var started := Step(st, '{');
    assert started == st.(seenFirst := true, depth := 1, buffer := "{");
    InnerKept(started, pad, members);
    FeedOne(Buffered(started, w), '}');
    FeedAppend(st, "{", w);
    FeedAppend(st, "{" + w, "}");
  }

  lemma {:induction false} GapIgnored(st: State, w: string)
    requires BetweenObjects(st) && White(w)
    ensures Feed(st, w) == st
    decreases |w|
  {
    if w != "" { GapIgnored(st, w[1..]); }
  }

  predicate AllObjects(items: seq<Item>) {
    forall i | 0 <= i < |items| :: GoodItem(items[i]) && items[i].value.Obj?
  }

  /** The texts of the objects alone. */
  function Texts(items: seq<Item>): (r: seq<string>)
    ensures |r| == |items| && forall i | 0 <= i < |r| :: r[i] == PrintValue(items[i].value)
  {
    seq(|items|, i requires 0 <= i < |items| => PrintValue(items[i].value))
  }

  lemma ItemPassedOn(st: State, e: Item)
    requires BetweenObjects(st) && GoodItem(e) && e.value.Obj?
    ensures Feed(st, PrintItem(e)) == st.(seenFirst := true, out := st.out + [PrintValue(e.value)])
  {
    hide PrintValue, Feed, GoodValue;
    GapIgnored(st, e.before);
    FeedAppend(st, e.before, PrintValue(e.value));
    ObjectPassedOn(st, e.value.pad, e.value.members);
    FeedAppend(st, e.before + PrintValue(e.value), e.after);
    GapIgnored(st.(seenFirst := true, out := st.out + [PrintValue(e.value)]), e.after);
  }

  lemma CommaIgnored(st: State, rest: string)
    requires BetweenObjects(st) && st.seenFirst && st.isArray
    ensures Feed(st, "," + rest) == Feed(st, rest)
  {
    hide Feed;
    FeedOne(st, ',');
    FeedAppend(st, ",", rest);
  }

  lemma TextsTail(sent: seq<string>, items: seq<Item>)
    requires items != []
    ensures sent + [PrintValue(items[0].value)] + Texts(items[1..]) == sent + Texts(items)
  {
    hide PrintValue;
  }

  lemma {:induction false} ItemsPassedOn(st: State, items: seq<Item>)
    requires BetweenObjects(st) && st.seenFirst && st.isArray && items != [] && AllObjects(items)
    ensures Feed(st, PrintItems(items)) == st.(out := st.out + Texts(items))
    decreases |items|
  {
    hide PrintItem, Feed, GoodItem, Texts, PrintValue, PrintItems;
    var first := PrintItem(items[0]);
    PrintItemsTail(items);
    ItemPassedOn(st, items[0]);
    TextsTail(st.out, items);
    if |items| > 1 {
      var next := st.(out := st.out + [PrintValue(items[0].value)]);
      FeedAppend(st, first, "," + PrintItems(items[1..]));
      CommaIgnored(next, PrintItems(items[1..]));
      ItemsPassedOn(next, items[1..]);
    } else {
      assert Texts(items[1..]) == [];
    }
  }

  lemma PrintItemsTail(items: seq<Item>)
    requires items != []
    ensures PrintItems(items) == if |items| == 1 then PrintItem(items[0])
        else PrintItem(items[0]) + ("," + PrintItems(items[1..]))
  {
    hide PrintItem;
    assert PrintItem(items[0]) + "" == PrintItem(items[0]);
  }

  ghost predicate Complete(st: State, texts: seq<string>) {
    !st.failed && st.depth == 0 && st.buffer == "" && st.out == texts
  }

  /** A JSON array of objects, whatever precedes it as white space and whatever follows it, fed in any pieces:
      the inner sink gets exactly the text of each object, once and in order. */
  lemma ArraySplit(lead: string, pad: string, items: seq<Item>, rest: string, chunks: seq<string>)
    requires White(lead) && White(pad) && AllObjects(items)
    requires Joined(chunks) == lead + PrintValue(Arr(pad, items)) + rest
    ensures Complete(FeedAll(FRESH, chunks), Texts(items))
  {
    ChunksDoNotMatter(FRESH, chunks);
    ArrayAtOnce(lead, pad, items, rest);
  }

  /** What stands between the brackets of an array. */
  function Body(pad: string, items: seq<Item>): string {
    if items == [] then pad else PrintItems(items)
  }

  const IN_ARRAY := FRESH.(seenFirst := true, isArray := true)

  lemma ArrayBegun(lead: string, rest: string)
    requires White(lead)
    ensures Feed(FRESH, lead + ("[" + rest)) == Feed(IN_ARRAY, rest)
  {
    hide Feed;
    GapIgnored(FRESH, lead);
    FeedOne(FRESH, '[');
    FeedAppend(FRESH, lead, "[" + rest);
    FeedAppend(FRESH, "[", rest);
  }

  lemma BodyPassedOn(pad: string, items: seq<Item>, rest: string)
    requires White(pad) && AllObjects(items)
    ensures Feed(IN_ARRAY, Body(pad, items) + rest) == Feed(IN_ARRAY.(out := Texts(items)), rest)
  {
    hide Feed, PrintItems, White, AllObjects;
    FeedAppend(IN_ARRAY, Body(pad, items), rest);
    if items == [] {
      GapIgnored(IN_ARRAY, pad);
      assert Texts(items) == [];
    } else {
      ItemsPassedOn(IN_ARRAY, items);
      assert [] + Texts(items) == Texts(items);
    }
  }

  lemma ArrayEnded(st: State, rest: string)
    requires BetweenObjects(st) && st.seenFirst && st.isArray
    ensures Feed(st, "]" + rest) == st.(done := true)
  {
    hide Feed;
    FeedOne(st, ']');
    FeedAppend(st, "]", rest);
    StopsAtEnd(st.(done := true), rest);
  }

  lemma ArrayAtOnce(lead: string, pad: string, items: seq<Item>, rest: string)
    requires White(lead) && White(pad) && AllObjects(items)
    ensures Complete(Feed(FRESH, lead + PrintValue(Arr(pad, items)) + rest), Texts(items))
  {
    hide Feed, AllObjects, White, Texts, Body;
    var body := Body(pad, items);
    ArrayBegun(lead, body + ("]" + rest));
    BodyPassedOn(pad, items, "]" + rest);
    ArrayEnded(IN_ARRAY.(out := Texts(items)), rest);
    assert PrintValue(Arr(pad, items)) == "[" + body + "]" by { PrintArray(pad, items); }
    assert lead + ("[" + body + "]") + rest == lead + ("[" + (body + ("]" + rest)));
  }

  lemma PrintArray(pad: string, items: seq<Item>)
    ensures PrintValue(Arr(pad, items)) == "[" + Body(pad, items) + "]"
  {
  }

  /** Objects one after the other, with any white space, also none or line ends, around each of them. */
  function PrintStream(items: seq<Item>): string {
    if items == [] then "" else PrintItem(items[0]) + PrintStream(items[1..])
  }

  lemma {:induction false} StreamPassedOn(st: State, items: seq<Item>)
    requires BetweenObjects(st) && AllObjects(items)
    ensures Feed(st, PrintStream(items)) == st.(seenFirst := st.seenFirst || items != [], out := st.out + Texts(items))
    decreases |items|
  {
    hide PrintItem, Feed, GoodItem, Texts, PrintValue;
    if items == [] {
      FeedNothing(st);
      assert Texts(items) == [];
    } else {
      var next := st.(seenFirst := true, out := st.out + [PrintValue(items[0].value)]);
      ItemPassedOn(st, items[0]);
      FeedAppend(st, PrintItem(items[0]), PrintStream(items[1..]));
      StreamPassedOn(next, items[1..]);
      TextsTail(st.out, items);
    }
  }

  /** Newline-delimited or concatenated objects, fed in any pieces. */
  lemma StreamSplit(items: seq<Item>, chunks: seq<string>)
    requires AllObjects(items) && Joined(chunks) == PrintStream(items)
    ensures Complete(FeedAll(FRESH, chunks), Texts(items))
  {
    hide AllObjects, Feed;
    ChunksDoNotMatter(FRESH, chunks);
    StreamPassedOn(FRESH, items);
    assert [] + Texts(items) == Texts(items);
  }
}
