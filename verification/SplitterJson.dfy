/** JSON texts, sections 2 to 7 of RFC 8259, with any white space, and how the splitter passes over them in the
    middle of an object. */
module SplitterJson {
  import opened JsonText
  import opened Splitter

  /** A character of a string as it is written: itself, a two-character escape, or four hex digits. */
  datatype Part = Raw(c: char) | Short(c: char) | Hex(digits: string)

  /** A number or one of the literals is a `Word`. */
  datatype Value =
    | Word(text: string)
    | Str(parts: seq<Part>)
    | Arr(pad: string, items: seq<Item>)
    | Obj(pad: string, members: seq<Member>)

  /** White space may surround every value and every name; `pad` is the white space of an empty container. */
  datatype Item = Item(before: string, value: Value, after: string)

  datatype Member = Member(before: string, name: seq<Part>, after: string, item: Item)

  // ---------- well-formed texts ----------

  predicate White(s: string) {
    forall i | 0 <= i < |s| :: s[i] == ' ' || s[i] == '\t' || s[i] == '\n' || s[i] == '\r'
  }

  predicate WordChar(c: char) {
    'a' <= c <= 'z' || 'A' <= c <= 'Z' || '0' <= c <= '9' || c == '+' || c == '-' || c == '.'
  }

  predicate GoodPart(p: Part) {
    match p
    case Raw(c) => c >= ' ' && c != '"' && c != '\\'
    case Short(c) => ShortEscape(c).Some?
    case Hex(d) => |d| == 4 && forall i | 0 <= i < 4 :: HexValue(d[i]).Some?
  }

  predicate GoodParts(ps: seq<Part>) {
    forall i | 0 <= i < |ps| :: GoodPart(ps[i])
  }

  predicate GoodValue(v: Value)
    decreases v, 0
  {
    match v
    case Word(text) => text != "" && forall i | 0 <= i < |text| :: WordChar(text[i])
    case Str(parts) => GoodParts(parts)
    case Arr(pad, items) => White(pad) && forall i | 0 <= i < |items| :: GoodItem(items[i])
    case Obj(pad, members) => White(pad) && forall i | 0 <= i < |members| :: GoodMember(members[i])
  }

  predicate GoodItem(e: Item)
    decreases e, 1
  {
    White(e.before) && White(e.after) && GoodValue(e.value)
  }

  predicate GoodMember(m: Member)
    decreases m, 1
  {
    White(m.before) && White(m.after) && GoodParts(m.name) && GoodItem(m.item)
  }

  // ---------- how they are written ----------

  function PrintPart(p: Part): string {
    match p
    case Raw(c) => [c]
    case Short(c) => ['\\', c]
    case Hex(d) => ['\\', 'u'] + d
  }

  function PrintParts(ps: seq<Part>): string {
    if ps == [] then "" else PrintPart(ps[0]) + PrintParts(ps[1..])
  }

  function PrintString(ps: seq<Part>): string {
    ['"'] + PrintParts(ps) + ['"']
  }

  function PrintValue(v: Value): string
    decreases v, 0
  {
    match v
    case Word(text) => text
    case Str(parts) => PrintString(parts)
    case Arr(pad, items) => "[" + (if items == [] then pad else PrintItems(items)) + "]"
    case Obj(pad, members) => "{" + (if members == [] then pad else PrintMembers(members)) + "}"
  }

  function PrintItem(e: Item): string
    decreases e, 1
  {
    e.before + PrintValue(e.value) + e.after
  }

  function PrintItems(items: seq<Item>): string
    requires items != []
    decreases items
  {
    PrintItem(items[0]) + if |items| == 1 then "" else "," + PrintItems(items[1..])
  }

  function PrintMember(m: Member): string
    decreases m, 1
  {
    m.before + PrintString(m.name) + m.after + ":" + PrintItem(m.item)
  }

  function PrintMembers(members: seq<Member>): string
    requires members != []
    decreases members
  {
    PrintMember(members[0]) + if |members| == 1 then "" else "," + PrintMembers(members[1..])
  }

  // ---------- inside an object ----------

  /** In the middle of an object, outside any string. */
  ghost predicate InObject(st: State) {
    !st.failed && !st.done && st.seenFirst && st.depth > 0 && !st.inString && !st.escapeNext
  }

  ghost function Buffered(st: State, w: string): State {
    st.(buffer := st.buffer + w)
  }

  /** The splitter passes over `w` and just keeps it. */
  ghost predicate Keeps(st: State, w: string) {
    Feed(st, w) == Buffered(st, w)
  }

  lemma KeepsAppend(st: State, a: string, b: string)
    requires Keeps(st, a) && Keeps(Buffered(st, a), b)
    ensures Keeps(st, a + b)
  {
    FeedAppend(st, a, b);
    assert st.buffer + a + b == st.buffer + (a + b);
  }

  lemma FeedOne(st: State, c: char)
    ensures Feed(st, [c]) == Step(st, c)
  {
    hide Step;
    assert [c][1..] == "" && Feed(Step(st, c), "") == Step(st, c);
  }

  predicate Harmless(c: char) {
    c != '"' && c != '{' && c != '}'
  }

  lemma {:induction false} HarmlessKept(st: State, w: string)
    requires InObject(st) && forall i | 0 <= i < |w| :: Harmless(w[i])
    ensures Keeps(st, w)
    decreases |w|
  {
    if w == "" {
      assert st.buffer + "" == st.buffer;
    } else {
      var next := Step(st, w[0]);
      assert next == Buffered(st, [w[0]]);
      HarmlessKept(next, w[1..]);
      assert st.buffer + [w[0]] + w[1..] == st.buffer + w;
    }
  }

  ghost predicate InText(st: State) {
    !st.failed && !st.done && st.seenFirst && st.depth > 0 && st.inString && !st.escapeNext
  }

  lemma {:induction false} DigitsKept(st: State, w: string)
    requires InText(st) && forall i | 0 <= i < |w| :: w[i] != '"' && w[i] != '\\'
    ensures Keeps(st, w)
    decreases |w|
  {
    if w == "" {
      assert st.buffer + "" == st.buffer;
    } else {
      DigitsKept(Step(st, w[0]), w[1..]);
      assert st.buffer + [w[0]] + w[1..] == st.buffer + w;
    }
  }

  lemma PartKept(st: State, p: Part)
    requires InText(st) && GoodPart(p)
    ensures Keeps(st, PrintPart(p))
  {
    match p
    case Raw(c) => FeedOne(st, c);
    case Short(c) =>
      EscapeKept(st, c);
    case Hex(d) =>
      EscapeKept(st, 'u');
      HexIsPlain(d);
      DigitsKept(Buffered(st, ['\\', 'u']), d);
      KeepsAppend(st, ['\\', 'u'], d);
  }

  lemma HexIsPlain(d: string)
    requires |d| == 4 && forall i | 0 <= i < 4 :: HexValue(d[i]).Some?
    ensures forall i | 0 <= i < |d| :: d[i] != '"' && d[i] != '\\'
  {
  }

  lemma EscapeKept(st: State, c: char)
    requires InText(st)
    ensures Keeps(st, ['\\', c])
  {
    FeedOne(st, '\\');
    FeedOne(Step(st, '\\'), c);
    FeedAppend(st, ['\\'], [c]);
    assert ['\\'] + [c] == ['\\', c];
    assert st.buffer + ['\\'] + [c] == st.buffer + ['\\', c];
  }

  lemma {:induction false} PartsKept(st: State, ps: seq<Part>)
    requires InText(st) && GoodParts(ps)
    ensures Keeps(st, PrintParts(ps))
    decreases |ps|
  {
    hide GoodPart, PrintPart, Keeps;
    if ps == [] {
      NothingKept(st);
    } else {
      PartKept(st, ps[0]);
      PartsKept(Buffered(st, PrintPart(ps[0])), ps[1..]);
      KeepsAppend(st, PrintPart(ps[0]), PrintParts(ps[1..]));
    }
  }

  lemma NothingKept(st: State)
    ensures Keeps(st, "")
  {
    assert st.buffer + "" == st.buffer;
  }

  lemma StringKept(st: State, ps: seq<Part>)
    requires InObject(st) && GoodParts(ps)
    ensures Keeps(st, PrintString(ps))
  {
    hide PrintParts, Feed, GoodParts;
    var w := PrintParts(ps);
    FeedOne(st, '"');
    var inside := Step(st, '"');
    PartsKept(inside, ps);
    FeedOne(Buffered(inside, w), '"');
    FeedAppend(st, ['"'], w);
    FeedAppend(st, ['"'] + w, ['"']);
    assert st.buffer + ['"'] + w + ['"'] == st.buffer + (['"'] + w + ['"']);
  }

  lemma WhiteKept(st: State, w: string)
    requires InObject(st) && White(w)
    ensures Keeps(st, w)
  {
    HarmlessKept(st, w);
  }

  lemma CharKept(st: State, c: char)
    requires InObject(st) && Harmless(c)
    ensures Keeps(st, [c])
  {
    HarmlessKept(st, [c]);
  }

  // ---------- values inside an object ----------

  lemma {:induction false} ItemKept(st: State, e: Item)
    requires InObject(st) && GoodItem(e)
    ensures Keeps(st, PrintItem(e))
    decreases e, 1
  {
    hide Keeps, PrintValue, GoodValue, White;
    var v := PrintValue(e.value);
    WhiteKept(st, e.before);
    ValueKept(Buffered(st, e.before), e.value);
    KeepsAppend(st, e.before, v);
    WhiteKept(Buffered(st, e.before + v), e.after);
    KeepsAppend(st, e.before + v, e.after);
  }

  lemma {:induction false} ItemsKept(st: State, items: seq<Item>)
    requires InObject(st) && items != [] && forall i | 0 <= i < |items| :: GoodItem(items[i])
    ensures Keeps(st, PrintItems(items))
    decreases items
  {
    hide Keeps, PrintItem, GoodItem;
    var first := PrintItem(items[0]);
    ItemKept(st, items[0]);
    if |items| > 1 {
      CharKept(Buffered(st, first), ',');
      KeepsAppend(st, first, ",");
      ItemsKept(Buffered(st, first + ","), items[1..]);
      KeepsAppend(st, first + ",", PrintItems(items[1..]));
      assert first + "," + PrintItems(items[1..]) == PrintItems(items);
    } else {
      assert first + "" == first;
    }
  }

  lemma {:induction false} MemberKept(st: State, m: Member)
    requires InObject(st) && GoodMember(m)
    ensures Keeps(st, PrintMember(m))
    decreases m, 1
  {
    hide Keeps, PrintItem, GoodItem, PrintString, GoodParts, White;
    var a := m.before + PrintString(m.name);
    WhiteKept(st, m.before);
    StringKept(Buffered(st, m.before), m.name);
    KeepsAppend(st, m.before, PrintString(m.name));
    WhiteKept(Buffered(st, a), m.after);
    KeepsAppend(st, a, m.after);
    CharKept(Buffered(st, a + m.after), ':');
    KeepsAppend(st, a + m.after, ":");
    ItemKept(Buffered(st, a + m.after + ":"), m.item);
    KeepsAppend(st, a + m.after + ":", PrintItem(m.item));
  }

  lemma {:induction false} MembersKept(st: State, members: seq<Member>)
    requires InObject(st) && members != [] && forall i | 0 <= i < |members| :: GoodMember(members[i])
    ensures Keeps(st, PrintMembers(members))
    decreases members
  {
    hide Keeps, PrintMember, GoodMember;
    var first := PrintMember(members[0]);
    MemberKept(st, members[0]);
    if |members| > 1 {
      CharKept(Buffered(st, first), ',');
      KeepsAppend(st, first, ",");
      MembersKept(Buffered(st, first + ","), members[1..]);
      KeepsAppend(st, first + ",", PrintMembers(members[1..]));
      assert first + "," + PrintMembers(members[1..]) == PrintMembers(members);
    } else {
      assert first + "" == first;
    }
  }

  /** What stands between the braces of an object. */
  function Inner(pad: string, members: seq<Member>): string {
    if members == [] then pad else PrintMembers(members)
  }

  lemma {:induction false} InnerKept(st: State, pad: string, members: seq<Member>)
    requires InObject(st) && GoodValue(Obj(pad, members))
    ensures Keeps(st, Inner(pad, members))
    decreases Obj(pad, members), 0, 0
  {
    hide Keeps;
    if members == [] { WhiteKept(st, pad); } else { MembersKept(st, members); }
  }

  lemma {:induction false} ArrayKept(st: State, pad: string, items: seq<Item>)
    requires InObject(st) && GoodValue(Arr(pad, items))
    ensures Keeps(st, PrintValue(Arr(pad, items)))
    decreases Arr(pad, items), 0, 0
  {
    hide Keeps, PrintItems, GoodItem;
    var w := if items == [] then pad else PrintItems(items);
    CharKept(st, '[');
    if items == [] { WhiteKept(Buffered(st, "["), pad); } else { ItemsKept(Buffered(st, "["), items); }
    KeepsAppend(st, "[", w);
    CharKept(Buffered(st, "[" + w), ']');
    KeepsAppend(st, "[" + w, "]");
  }

  lemma {:induction false} NestedKept(st: State, pad: string, members: seq<Member>)
    requires InObject(st) && GoodValue(Obj(pad, members))
    ensures Keeps(st, PrintValue(Obj(pad, members)))
    decreases Obj(pad, members), 0, 1
  {
    hide PrintMembers, GoodMember, Feed;
    var w := Inner(pad, members);
    FeedOne(st, '{');
    var deeper := Step(st, '{');
    InnerKept(deeper, pad, members);
    FeedOne(Buffered(deeper, w), '}');
    FeedAppend(st, "{", w);
    FeedAppend(st, "{" + w, "}");
    assert st.buffer + "{" + w + "}" == st.buffer + ("{" + w + "}");
  }

  lemma {:induction false} ValueKept(st: State, v: Value)
    requires InObject(st) && GoodValue(v)
    ensures Keeps(st, PrintValue(v))
    decreases v, 0, 2
  {
    hide Keeps;
    match v
    case Word(text) => HarmlessKept(st, text);
    case Str(parts) => StringKept(st, parts);
    case Arr(pad, items) => ArrayKept(st, pad, items);
    case Obj(pad, members) => NestedKept(st, pad, members);
  }
}
