/** What templates expand to, said without the lookup of variables or any other part of the interpreter. */
module TemplateLaws {
  import opened JsonText
  import opened Template
  import opened TemplateMeaning
  import opened TemplateReading
  import opened TemplateRefinement
  import opened TemplateSkipping
  import opened TemplateTermination
  import opened Text
  import opened Wrappers

  // ---------- the lookup ----------

  /** Frame `i` is the innermost one that binds the name. */
  predicate Innermost(bs: seq<Binding>, i: nat, name: string)
    requires i < |bs|
  {
    name in bs[i].values && forall j | 0 <= j < i :: name !in bs[j].values
  }

  lemma {:induction false} LoopValueFound(bs: seq<Binding>, i: nat, name: string)
    requires i < |bs| && Innermost(bs, i, name)
    ensures bs[i].idx < |bs[i].values[name]| ==> LoopValue(bs, name) == Some(bs[i].values[name][bs[i].idx])
    ensures bs[i].idx >= |bs[i].values[name]| ==> LoopValue(bs, name) == Some("")
  {
    if i > 0 {
      assert name !in bs[0].values;
      assert forall j | 0 <= j < i - 1 :: bs[1..][j] == bs[j + 1];
      LoopValueFound(bs[1..], i - 1, name);
    }
  }

  lemma {:induction false} LoopValueMissing(bs: seq<Binding>, name: string)
    ensures LoopValue(bs, name) == None <==> forall i | 0 <= i < |bs| :: name !in bs[i].values
  {
    if bs != [] {
      LoopValueMissing(bs[1..], name);
      assert forall i | 1 <= i < |bs| :: bs[i] == bs[1..][i - 1];
    }
  }

  /** A variable of a loop is the one of the innermost frame that binds it, at that frame's iteration, and empty
      when its list has run out; a plain one is the first value of the attribute. */
  lemma LookupIs(attrs: Attributes, bs: seq<Binding>, name: string)
    requires name != ""
    ensures forall i | 0 <= i < |bs| && Innermost(bs, i, name) ::
      GetValue(attrs, bs, "$" + name)
      == Some(if bs[i].idx < |bs[i].values[name]| then bs[i].values[name][bs[i].idx] else "")
    ensures GetValue(attrs, bs, "$" + name) == None <==> forall i | 0 <= i < |bs| :: name !in bs[i].values
    ensures name[0] != '$' ==>
      (GetValue(attrs, bs, name).Some? <==> name in attrs && attrs[name] != [])
      && (name in attrs && attrs[name] != [] ==> GetValue(attrs, bs, name).value == attrs[name][0])
  {
    var id := "$" + name;
    assert id[0] == '$' && id[1..] == name;
    LoopValueMissing(bs, name);
    forall i | 0 <= i < |bs| && Innermost(bs, i, name)
      ensures LoopValue(bs, name)
           == Some(if bs[i].idx < |bs[i].values[name]| then bs[i].values[name][bs[i].idx] else "")
    {
      LoopValueFound(bs, i, name);
    }
  }

  /** A loop binds its variables and nothing else. */
  lemma {:induction false} LoopBindsOnly(attrs: Attributes, vars: seq<string>, names: seq<string>)
    requires |vars| == |names|
    ensures forall v :: v in BindLoop(attrs, vars, names) <==> v in vars
  {
    if vars != [] { LoopBindsOnly(attrs, vars[1..], names[1..]); }
  }

  // ---------- one variable ----------

  /** How a value is written. */
  function Written(env: Env, bar: bool, v: string): string {
    if env.escapeByDefault != bar then Escape(v) else v
  }

  /** The values of an attribute, none if the object does not have it. */
  function Held(env: Env, a: string): seq<string> {
    if a in env.attrs then env.attrs[a] else []
  }

  /** A variable, spelled without white space. */
  function Plain(name: string, bar: bool): Node {
    Variable("", if bar then Some("") else None, name, "")
  }

  lemma PrintPlain(name: string, bar: bool)
    ensures PrintNode(Plain(name, bar)) == "${" + (if bar then "|" else "") + name + "}"
  {
  }

  /** A plain variable, with any white space in it, expands to the first value of its attribute; without one the
      expansion fails. */
  lemma VariableLaw(env: Env, lead: string, bar: Option<string>, a: string, trail: string)
    requires IsId(a) && GoodVariable(lead, bar, a, trail)
    requires env.text == "${" + lead + (if bar.Some? then "|" + bar.value else "") + a + trail + "}"
    ensures Held(env, a) == [] ==> Interpret(env) == None
    ensures Held(env, a) != [] ==> Interpret(env) == Some(Blanked(Written(env, bar.Some?, Held(env, a)[0])))
  {
    hide Blanked, Interpret, Escape, GetValue, GoodVariable;
    OneNode(env, Variable(lead, bar, a, trail));
    assert IsIdChar(a[0]);
    LookupIs(env.attrs, [], a);
  }

  lemma OneNode(env: Env, n: Node)
    requires GoodNode(env.regexes, n) && env.text == PrintNode(n)
    ensures Interpret(env)
         == match NodeMeaning(env, n, []) case None => None case Some(o) => Some(Blanked(o))
  {
    hide Blanked, Interpret, PrintNode, GoodNode, NodeMeaning;
    assert [n][1..] == [];
    assert Print([n]) == PrintNode(n) + "" == PrintNode(n);
    GoodSingle(env.regexes, n);
    InterpreterCorrect(env, [n]);
    SingleMeaning(env, n, []);
  }

  lemma SingleMeaning(env: Env, n: Node, bs: seq<Binding>)
    ensures Meaning(env, [n], bs) == NodeMeaning(env, n, bs)
  {
    hide NodeMeaning;
    assert [n][1..] == [];
    assert Meaning(env, [], bs) == Some("");
    if NodeMeaning(env, n, bs).Some? {
      assert NodeMeaning(env, n, bs).value + "" == NodeMeaning(env, n, bs).value;
    }
  }

  // ---------- loops ----------

  /** All values of a list, one after the other. */
  function AllWritten(env: Env, bar: bool, values: seq<string>): string {
    if values == [] then "" else Written(env, bar, values[0]) + AllWritten(env, bar, values[1..])
  }

  function InLoop(x: string, bar: bool): Node {
    Plain("$" + x, bar)
  }

  /** Loops over some attributes, spelled with single spaces. */
  function Over(vars: seq<string>, attrs: seq<string>): Head
    requires vars != [] && attrs != []
  {
    Head(" ", seq(|vars|, i requires 0 <= i < |vars| => Spaced(vars[i], " ")), " ",
         seq(|attrs|, i requires 0 <= i < |attrs| => Spaced(attrs[i], if i < |attrs| - 1 then " " else "")))
  }

  lemma OverWords(vars: seq<string>, attrs: seq<string>)
    requires vars != [] && attrs != []
    ensures Words(Over(vars, attrs).vars) == vars && Words(Over(vars, attrs).attrs) == attrs
  {
  }

  lemma OverIsGood(vars: seq<string>, attrs: seq<string>)
    requires vars != [] && attrs != [] && (forall v | v in vars :: IsId(v)) && forall a | a in attrs :: IsId(a)
    ensures GoodHead(Over(vars, attrs))
  {
    hide IsId;
  }

  lemma InLoopIsGood(regexes: Regexes, x: string, bar: bool)
    requires IsId(x)
    ensures GoodNode(regexes, InLoop(x, bar)) && Good(regexes, [InLoop(x, bar)])
  {
    var name := "$" + x;
    assert name[0] == '$' && name[1..] == x;
    assert name[0] != "switch"[0] && name[0] != "end"[0] && name[0] != "for"[0];
    GoodSingle(regexes, InLoop(x, bar));
  }

  /** In a loop over `x`, the variable is the value of the iteration, whatever loops there are around. */
  lemma InLoopMeaning(env: Env, x: string, bar: bool, b: Binding, outer: seq<Binding>)
    requires x != "" && x in b.values
    ensures Meaning(env, [InLoop(x, bar)], [b] + outer)
         == Some(Written(env, bar, if b.idx < |b.values[x]| then b.values[x][b.idx] else ""))
  {
    hide GetValue, Escape;
    var bs, n := [b] + outer, InLoop(x, bar);
    assert Innermost(bs, 0, x);
    LookupIs(env.attrs, bs, x);
    assert [n][1..] == [];
    var m := NodeMeaning(env, n, bs);
    assert m.Some? && m.value + "" == m.value;
  }

  lemma {:induction false} OneListMeaning(env: Env, x: string, bar: bool, values: map<string, seq<string>>, idx: nat,
                                          outer: seq<Binding>)
    requires x != "" && values.Keys == {x} && idx <= |values[x]|
    ensures LoopMeaning(env, [InLoop(x, bar)], values, idx, |values[x]|, outer)
         == Some(AllWritten(env, bar, values[x][idx..]))
    decreases |values[x]| - idx
  {
    hide Meaning, Written;
    if idx < |values[x]| {
      OneListMeaning(env, x, bar, values, idx + 1, outer);
      InLoopMeaning(env, x, bar, Binding(values, idx), outer);
      assert values[x][idx..][0] == values[x][idx] && values[x][idx..][1..] == values[x][idx + 1..];
    }
  }

  lemma OneListIterations(env: Env, x: string, a: string)
    ensures var values := BindLoop(env.attrs, [x], [a]);
      values == map[x := Held(env, a)] && Iterations(values) == |Held(env, a)|
  {
    hide Iterations;
    assert [x][1..] == [] && [a][1..] == [];
    var values := BindLoop(env.attrs, [x], [a]);
    LoopRunsToTheLongest(values);
    if Iterations(values) > 0 {
      var v :| v in values && |values[v]| == Iterations(values);
    }
    assert x in values;
  }

  function LoopText(x: string, a: string, body: string): string {
    "${for $" + x + " in " + a + "}" + body + "${end}"
  }

  lemma LoopIsText(x: string, a: string, body: seq<Node>)
    ensures PrintNode(Loop(Over([x], [a]), body)) == LoopText(x, a, Print(body))
  {
    hide Print, LoopHead;
    HeadOfOne(x, a);
  }

  lemma HeadOfOne(x: string, a: string)
    ensures LoopHead(Over([x], [a])) == "${for $" + x + " in " + a + "}"
  {
    var h := Over([x], [a]);
    assert h.vars == [Spaced(x, " ")] && h.attrs == [Spaced(a, "")];
    assert h.vars[1..] == [] && h.attrs[1..] == [];
    assert PrintVariables(h.vars) == "$" + x + " ";
    assert PrintAttributes(h.attrs) == a;
  }

  /** A loop over one list writes its values one after the other. */
  lemma LoopLaw(env: Env, x: string, a: string, bar: bool)
    requires IsId(x) && IsId(a)
    requires env.text == LoopText(x, a, "${" + (if bar then "|" else "") + "$" + x + "}")
    ensures Interpret(env) == Some(Blanked(AllWritten(env, bar, Held(env, a))))
  {
    hide Interpret, Blanked, Written, AllWritten, BindLoop, Iterations, IsId;
    var n := Loop(Over([x], [a]), [InLoop(x, bar)]);
    LoopIsText(x, a, [InLoop(x, bar)]);
    PrintInLoop(x, bar);
    InLoopIsGood(env.regexes, x, bar);
    OverIsGood([x], [a]);
    OverWords([x], [a]);
    OneNode(env, n);
    OneListIterations(env, x, a);
    var values := BindLoop(env.attrs, [x], [a]);
    IdNotEmpty(x);
    OneListMeaning(env, x, bar, values, 0, []);
    assert values[x][0..] == Held(env, a);
  }

  lemma IdNotEmpty(x: string)
    requires IsId(x)
    ensures x != ""
  {
  }

  lemma PrintInLoop(x: string, bar: bool)
    ensures Print([InLoop(x, bar)]) == "${" + (if bar then "|" else "") + "$" + x + "}"
  {
    hide PrintNode;
    assert [InLoop(x, bar)][1..] == [];
    PrintPlain("$" + x, bar);
    var b := if bar then "|" else "";
    assert "${" + b + ("$" + x) + "}" + "" == "${" + b + "$" + x + "}";
  }

  // ---------- a loop in a loop over the same variable ----------

  function Repeated(s: string, n: nat): string {
    if n == 0 then "" else s + Repeated(s, n - 1)
  }

  lemma {:induction false} ConstantMeaning(env: Env, body: seq<Node>, values: map<string, seq<string>>, idx: nat,
                                           max: nat, o: string)
    requires idx <= max && forall i :: Meaning(env, body, [Binding(values, i)] + []) == Some(o)
    ensures LoopMeaning(env, body, values, idx, max, []) == Some(Repeated(o, max - idx))
    decreases max - idx
  {
    hide Meaning;
    if idx < max { ConstantMeaning(env, body, values, idx + 1, max, o); }
  }

  /** The inner of two loops over the same variable wins. */
  lemma ShadowLaw(env: Env, x: string, a: string, b: string, bar: bool)
    requires IsId(x) && IsId(a) && IsId(b)
    requires env.text == LoopText(x, a, LoopText(x, b, "${" + (if bar then "|" else "") + "$" + x + "}"))
    ensures Interpret(env) == Some(Blanked(Repeated(AllWritten(env, bar, Held(env, b)), |Held(env, a)|)))
  {
    hide Interpret, Blanked, Written, AllWritten, BindLoop, Iterations, IsId;
    var inner := Loop(Over([x], [b]), [InLoop(x, bar)]);
    var o, values := AllWritten(env, bar, Held(env, b)), BindLoop(env.attrs, [x], [a]);
    LoopIsText(x, b, [InLoop(x, bar)]);
    PrintInLoop(x, bar);
    SingleNode(env, inner);
    LoopIsText(x, a, [inner]);
    InLoopIsGood(env.regexes, x, bar);
    OverIsGood([x], [a]);
    OverIsGood([x], [b]);
    OverWords([x], [a]);
    GoodSingle(env.regexes, inner);
    OneNode(env, Loop(Over([x], [a]), [inner]));
    OneListIterations(env, x, a);
    IdNotEmpty(x);
    forall i ensures Meaning(env, [inner], [Binding(values, i)] + []) == Some(o) {
      InnerMeaning(env, x, b, bar, [Binding(values, i)] + []);
    }
    ConstantMeaning(env, [inner], values, 0, |Held(env, a)|, o);
  }

  lemma SingleNode(env: Env, n: Node)
    ensures Print([n]) == PrintNode(n)
  {
    hide PrintNode;
    assert [n][1..] == [] && PrintNode(n) + "" == PrintNode(n);
  }

  lemma GoodSingle(regexes: Regexes, n: Node)
    requires GoodNode(regexes, n)
    ensures Good(regexes, [n])
  {
    hide GoodNode;
    assert [n][1..] == [];
  }

  lemma InnerMeaning(env: Env, x: string, b: string, bar: bool, outer: seq<Binding>)
    requires x != ""
    ensures Meaning(env, [Loop(Over([x], [b]), [InLoop(x, bar)])], outer) == Some(AllWritten(env, bar, Held(env, b)))
  {
    hide AllWritten, Written, BindLoop, Iterations, LoopMeaning;
    var inner, values := Loop(Over([x], [b]), [InLoop(x, bar)]), BindLoop(env.attrs, [x], [b]);
    OneListIterations(env, x, b);
    OverWords([x], [b]);
    OneListMeaning(env, x, bar, values, 0, outer);
    assert values[x][0..] == Held(env, b);
    assert [inner][1..] == [];
    var m := NodeMeaning(env, inner, outer);
    assert m.Some? && m.value + "" == m.value;
  }

  // ---------- two lists in parallel ----------

  /** The lists side by side up to the end of the longer one, the shorter one filled up with empty values. */
  function SideBySide(env: Env, xs: seq<string>, ys: seq<string>): string
    decreases |xs| + |ys|
  {
    if xs == [] && ys == [] then ""
    else Written(env, false, if xs == [] then "" else xs[0]) + Written(env, false, if ys == [] then "" else ys[0])
         + SideBySide(env, if xs == [] then [] else xs[1..], if ys == [] then [] else ys[1..])
  }

  function Rest(xs: seq<string>, idx: nat): seq<string> {
    if idx < |xs| then xs[idx..] else []
  }

  lemma PairMeaning(env: Env, x: string, y: string, b: Binding)
    requires x != "" && y != "" && x in b.values && y in b.values
    ensures Meaning(env, [InLoop(x, false), InLoop(y, false)], [b] + [])
         == Some(Written(env, false, if b.idx < |b.values[x]| then b.values[x][b.idx] else "")
                 + Written(env, false, if b.idx < |b.values[y]| then b.values[y][b.idx] else ""))
  {
    hide GetValue, Escape;
    var bs, nodes := [b] + [], [InLoop(x, false), InLoop(y, false)];
    assert nodes[1..] == [InLoop(y, false)];
    assert Innermost(bs, 0, x);
    LookupIs(env.attrs, bs, x);
    InLoopMeaning(env, y, false, b, []);
  }

  lemma {:induction false} PairsMeaning(env: Env, x: string, y: string, values: map<string, seq<string>>, idx: nat,
                                        max: nat)
    requires x != "" && y != "" && x in values && y in values && idx <= max
    requires max == (if |values[x]| > |values[y]| then |values[x]| else |values[y]|)
    ensures LoopMeaning(env, [InLoop(x, false), InLoop(y, false)], values, idx, max, [])
         == Some(SideBySide(env, Rest(values[x], idx), Rest(values[y], idx)))
    decreases max - idx
  {
    hide Meaning, Written;
    if idx < max {
      PairsMeaning(env, x, y, values, idx + 1, max);
      PairMeaning(env, x, y, Binding(values, idx));
    }
  }

  lemma BindFirst(attrs: Attributes, x: string, a: string, vars: seq<string>, names: seq<string>)
    requires |vars| == |names|
    ensures BindLoop(attrs, [x] + vars, [a] + names) == BindLoop(attrs, vars, names)[x := ValuesOf(attrs, a)]
  {
    assert ([x] + vars)[1..] == vars && ([a] + names)[1..] == names;
  }

  lemma TwoListIterations(env: Env, x: string, y: string, a: string, b: string)
    requires x != y
    ensures var values := BindLoop(env.attrs, [x, y], [a, b]);
      values == map[x := Held(env, a), y := Held(env, b)]
      && Iterations(values) == if |Held(env, a)| > |Held(env, b)| then |Held(env, a)| else |Held(env, b)|
  {
    hide Iterations;
    var values := BindLoop(env.attrs, [x, y], [a, b]);
    OneListIterations(env, y, b);
    BindFirst(env.attrs, x, a, [y], [b]);
    LoopRunsToTheLongest(values);
    if Iterations(values) > 0 {
      var v :| v in values && |values[v]| == Iterations(values);
    }
    assert x in values && y in values;
  }

  function PairText(x: string, y: string, a: string, b: string): string {
    "${for $" + x + " $" + y + " in " + a + " " + b + "}${$" + x + "}${$" + y + "}${end}"
  }

  /** Two lists are iterated in parallel. */
  lemma ParallelLaw(env: Env, x: string, y: string, a: string, b: string)
    requires IsId(x) && IsId(y) && IsId(a) && IsId(b) && x != y
    requires env.text == PairText(x, y, a, b)
    ensures Interpret(env) == Some(Blanked(SideBySide(env, Held(env, a), Held(env, b))))
  {
    hide Interpret, Blanked, Written, SideBySide, BindLoop, Iterations, IsId, PairText;
    var body := [InLoop(x, false), InLoop(y, false)];
    var n, values := Loop(Over([x, y], [a, b]), body), BindLoop(env.attrs, [x, y], [a, b]);
    OverIsGood([x, y], [a, b]);
    OverWords([x, y], [a, b]);
    ParallelText(x, y, a, b);
    InLoopIsGood(env.regexes, x, false);
    InLoopIsGood(env.regexes, y, false);
    assert body[1..] == [InLoop(y, false)];
    OneNode(env, n);
    TwoListIterations(env, x, y, a, b);
    IdNotEmpty(x);
    IdNotEmpty(y);
    PairsMeaning(env, x, y, values, 0, Iterations(values));
    assert Rest(values[x], 0) == Held(env, a) && Rest(values[y], 0) == Held(env, b);
  }

  lemma ParallelText(x: string, y: string, a: string, b: string)
    ensures PrintNode(Loop(Over([x, y], [a, b]), [InLoop(x, false), InLoop(y, false)])) == PairText(x, y, a, b)
  {
    hide Print, PrintNode, LoopHead, Over, PairText;
    var body := [InLoop(x, false), InLoop(y, false)];
    assert [InLoop(x, false)] + [InLoop(y, false)] == body;
    PrintInLoop(x, false);
    PrintInLoop(y, false);
    PrintPair(InLoop(x, false), InLoop(y, false));
    PrintLoop(Over([x, y], [a, b]), body);
    HeadOfTwo(x, y, a, b);
    PiecesJoined(LoopHead(Over([x, y], [a, b])), Print(body), x, y, a, b);
  }

  lemma PrintLoop(h: Head, body: seq<Node>)
    ensures PrintNode(Loop(h, body)) == LoopHead(h) + Print(body) + "${end}"
  {
    hide Print, LoopHead;
  }

  lemma HeadOfTwo(x: string, y: string, a: string, b: string)
    ensures LoopHead(Over([x, y], [a, b])) == "${for $" + x + " $" + y + " in " + a + " " + b + "}"
  {
    hide LoopHead, PrintVariables, PrintAttributes;
    var h := Over([x, y], [a, b]);
    TwoVariables(h.vars, x, y);
    TwoAttributes(h.attrs, a, b);
    HeadPrinted(h, "$" + x + " $" + y + " ", a + " " + b);
  }

  lemma TwoVariables(vars: seq<Spaced>, x: string, y: string)
    requires vars == [Spaced(x, " "), Spaced(y, " ")]
    ensures PrintVariables(vars) == "$" + x + " $" + y + " "
  {
    assert vars[1..] == [Spaced(y, " ")] && vars[1..][1..] == [];
    assert PrintVariables(vars[1..]) == "$" + y + " ";
  }

  lemma TwoAttributes(attrs: seq<Spaced>, a: string, b: string)
    requires attrs == [Spaced(a, " "), Spaced(b, "")]
    ensures PrintAttributes(attrs) == a + " " + b
  {
    assert attrs[1..] == [Spaced(b, "")] && attrs[1..][1..] == [];
    assert PrintAttributes(attrs[1..]) == b;
  }

  lemma HeadPrinted(h: Head, v: string, w: string)
    requires h.lead == " " && h.gap == " " && PrintVariables(h.vars) == v && PrintAttributes(h.attrs) == w
    ensures LoopHead(h) == "${for " + v + "in " + w + "}"
  {
    hide PrintVariables, PrintAttributes;
    assert "${for" + " " == "${for " && "in" + " " == "in ";
  }

  lemma PiecesJoined(head: string, body: string, x: string, y: string, a: string, b: string)
    requires head == "${for $" + x + " $" + y + " in " + a + " " + b + "}"
    requires body == "${$" + x + "}" + ("${$" + y + "}")
    ensures head + body + "${end}" == PairText(x, y, a, b)
  {
  }

  lemma PrintPair(m: Node, n: Node)
    ensures Print([m] + [n]) == Print([m]) + Print([n])
  {
    hide PrintNode;
    assert ([m] + [n])[1..] == [n] && [m][1..] == [] && PrintNode(m) + "" == PrintNode(m);
  }

  // ---------- switch ----------

  /** The value fits the label of the case. */
  predicate Fits(regexes: Regexes, c: Case, val: string) {
    match c.pattern
    case Literal(q) => q.text == val
    case Regex(re) => regexes.matches(re, val)
  }

  predicate FirstFit(regexes: Regexes, cases: seq<Case>, val: string, i: nat)
    requires i < |cases|
  {
    Fits(regexes, cases[i], val) && forall j | 0 <= j < i :: !Fits(regexes, cases[j], val)
  }

  predicate NoFit(regexes: Regexes, cases: seq<Case>, val: string) {
    forall i | 0 <= i < |cases| :: !Fits(regexes, cases[i], val)
  }

  lemma {:induction false} FirstIsChosen(regexes: Regexes, cases: seq<Case>, fallback: Default, val: string, i: nat)
    requires i < |cases| && FirstFit(regexes, cases, val, i)
    ensures Choose(regexes, cases, fallback, val) == cases[i].value.text
  {
    if i > 0 {
      assert !Fits(regexes, cases[0], val);
      FirstIsChosen(regexes, cases[1..], fallback, val, i - 1);
    }
  }

  lemma {:induction false} FallbackIsChosen(regexes: Regexes, cases: seq<Case>, fallback: Default, val: string)
    requires NoFit(regexes, cases, val)
    ensures Choose(regexes, cases, fallback, val) == fallback.value.text
  {
    if cases != [] { FallbackIsChosen(regexes, cases[1..], fallback, val); }
  }

  /** A switch over an attribute expands to the value of the first case that fits its first value, and to the
      default if none does; the value is written as it stands. */
  lemma SwitchLaw(env: Env, lead: string, gap: string, subject: Spaced, cases: seq<Case>, fallback: Default)
    requires IsId(subject.word) && GoodNode(env.regexes, Switch(lead, gap, subject, cases, fallback))
    requires env.text == PrintNode(Switch(lead, gap, subject, cases, fallback))
    ensures Held(env, subject.word) == [] ==> Interpret(env) == None
    ensures var vs := Held(env, subject.word);
      vs != [] ==> forall i | 0 <= i < |cases| && FirstFit(env.regexes, cases, vs[0], i) ::
        Interpret(env) == Some(Blanked(cases[i].value.text))
    ensures var vs := Held(env, subject.word);
      vs != [] && NoFit(env.regexes, cases, vs[0]) ==> Interpret(env) == Some(Blanked(fallback.value.text))
  {
    hide Blanked, Interpret, GetValue, Choose, Fits, FirstFit, NoFit, PrintNode, GoodNode;
    OneNode(env, Switch(lead, gap, subject, cases, fallback));
    assert IsIdChar(subject.word[0]);
    LookupIs(env.attrs, [], subject.word);
    if Held(env, subject.word) != [] {
      var val := Held(env, subject.word)[0];
      forall i | 0 <= i < |cases| && FirstFit(env.regexes, cases, val, i)
        ensures Choose(env.regexes, cases, fallback, val) == cases[i].value.text
      {
        FirstIsChosen(env.regexes, cases, fallback, val, i);
      }
      if NoFit(env.regexes, cases, val) {
        FallbackIsChosen(env.regexes, cases, fallback, val);
      }
    }
  }

  // ---------- what is refused ----------

  /** An end tag outside every loop is refused, whatever follows. */
  lemma StrayEndRefused(env: Env, nodes: seq<Node>, rest: string)
    requires Good(env.regexes, nodes) && env.text == Print(nodes) + END_TAG + rest
    ensures Interpret(env) == None
  {
    hide Print, Good, Meaning, Blanked, Step, Valid, Run, Bindings;
    var p := |Print(nodes)|;
    AtFramed("", Print(nodes), END_TAG + rest);
    AtFramed(Print(nodes), END_TAG, rest);
    assert "" + Print(nodes) + (END_TAG + rest) == env.text;
    AtChar(env.text, p, END_TAG, 0);
    BeginValid(env);
    NodesRun(env, nodes, BEGIN);
    var m := Meaning(env, nodes, Bindings(BEGIN.stack));
    if m.Some? {
      var st := State(p, BEGIN.out + m.value, []);
      ContinuesValid(env, BEGIN, m, p, []);
      EndOutside(env, st);
      RunStep(env, st);
    }
  }

  lemma EndOutside(env: Env, st: State)
    requires At(env.text, st.pos, END_TAG) && st.stack == []
    ensures st.pos < |env.text| && Step(env, st) == None
  {
    hide FindId, SkipWs, CharAt, Conditional, LoopStart, Simple;
    EndPieces();
    KeywordsAreNames();
    BraceIsNoId();
    OpeningRead(env, st, "", None, "end", "}");
    BraceIsSolid(env.text, st.pos + 5);
  }

  /** A loop without its end tag is refused, whether it has iterations or not. */
  lemma UnclosedLoopRefused(env: Env, before: seq<Node>, h: Head, body: seq<Node>)
    requires Good(env.regexes, before) && GoodNode(env.regexes, Loop(h, body))
    requires env.text == Print(before) + LoopHead(h) + Print(body)
    ensures Interpret(env) == None
  {
    hide Print, Good, GoodNode, Meaning, Blanked, Step, Valid, Run, Bindings, LoopHead, BindLoop, Iterations, SkipLoop;
    var p, m := |Print(before)|, Meaning(env, before, Bindings(BEGIN.stack));
    Placed(env.text, Print(before), LoopHead(h), Print(body));
    HeadStarts(h);
    AtChar(env.text, p, LoopHead(h), 0);
    BeginValid(env);
    NodesRun(env, before, BEGIN);
    if m.Some? {
      var st := State(p, BEGIN.out + m.value, []);
      ContinuesValid(env, BEGIN, m, p, []);
      OpenLoopFails(env, st, h, body);
    }
  }

  lemma Placed(s: string, a: string, b: string, c: string)
    requires s == a + b + c
    ensures At(s, 0, a) && At(s, |a|, b) && At(s, |a| + |b|, c) && |s| == |a| + |b| + |c|
  {
    assert s[0..|s|] == s;
    AtThree(s, 0, a, b, c);
  }

  lemma HeadStarts(h: Head)
    ensures var h := LoopHead(h); h != "" && h[0] == '$'
  {
  }

  lemma OpenLoopFails(env: Env, st: State, h: Head, body: seq<Node>)
    requires Valid(env, st) && st.stack == [] && GoodNode(env.regexes, Loop(h, body))
    requires At(env.text, st.pos, LoopHead(h))
    requires At(env.text, st.pos + |LoopHead(h)|, Print(body))
    requires st.pos + |LoopHead(h)| + |Print(body)| == |env.text|
    ensures Run(env, st) == None
  {
    hide Print, Good, GoodNode, Meaning, Step, Valid, Run, Bindings, LoopHead, BindLoop, Iterations, SkipLoop, At;
    var b, n := st.pos + |LoopHead(h)|, |env.text|;
    LoopFacts(env, h, body, []);
    var values := BindLoop(env.attrs, Words(h.vars), Words(h.attrs));
    HeadStep(env, st, h);
    RunStep(env, st);
    if Iterations(values) == 0 {
      SkipNodes(env.regexes, env.text, b, body);
      SkipNothingLeft(env.text);
    } else {
      var inside := State(b, st.out, [Frame(Binding(values, 0), Iterations(values), b)] + st.stack);
      var m := Meaning(env, body, Bindings(inside.stack));
      NodesRun(env, body, inside);
      if m.Some? {
        ContinuesValid(env, inside, m, n, inside.stack);
        OpenAtEnd(env, State(n, inside.out + m.value, inside.stack));
      }
    }
  }

  lemma SkipNothingLeft(s: string)
    ensures SkipLoop(s, |s|) == None
  {
  }

  lemma OpenAtEnd(env: Env, st: State)
    requires Valid(env, st) && st.pos == |env.text| && st.stack != []
    ensures Run(env, st) == None
  {
  }

  /** A loop with another number of attributes than of variables is refused, and so is one with more than a
      hundred variables. */
  lemma BadHeadRefused(env: Env, before: seq<Node>, h: Head, rest: string)
    requires Good(env.regexes, before) && GoodHead(h) && (|h.vars| != |h.attrs| || |h.vars| > 100)
    requires env.text == Print(before) + LoopHead(h) + rest
    ensures Interpret(env) == None
  {
    hide Print, Good, Meaning, Blanked, Step, Valid, Run, Bindings, LoopHead, GoodHead;
    var p, m := |Print(before)|, Meaning(env, before, Bindings(BEGIN.stack));
    Placed(env.text, Print(before), LoopHead(h), rest);
    HeadStarts(h);
    AtChar(env.text, p, LoopHead(h), 0);
    BeginValid(env);
    NodesRun(env, before, BEGIN);
    if m.Some? {
      var st := State(p, BEGIN.out + m.value, []);
      ContinuesValid(env, BEGIN, m, p, []);
      BadHeadStep(env, st, h);
      RunStep(env, st);
    }
  }

  lemma BadHeadStep(env: Env, st: State, h: Head)
    requires GoodHead(h) && (|h.vars| != |h.attrs| || |h.vars| > 100) && At(env.text, st.pos, LoopHead(h))
    ensures st.pos < |env.text| && Step(env, st) == None
  {
    hide FindId, SkipWs, IsId, CharAt, LoopHead, LoopVariables, LoopAttributes, BindLoop, Iterations, SkipLoop,
         PrintVariables, PrintAttributes, At, Apart, AllWhite, GoodVariables, GoodAttributes, Words, Conditional,
             LoopEnd;
    var p1 := st.pos + 5 + |h.lead|;
    var p3 := p1 + |PrintVariables(h.vars)| + 2 + |h.gap|;
    HeadParts(env, st, h);
    if |h.vars| > MAX_LOOP_VARIABLES {
      TooManyVariables(env.text, p1, h.vars, h.gap, PrintAttributes(h.attrs) + "}", []);
    } else {
      VariablesRead(env.text, p1, h.vars, h.gap, PrintAttributes(h.attrs) + "}", []);
      AttributesRead(env.text, p3, h.attrs, []);
      assert [] + Words(h.vars) == Words(h.vars) && [] + Words(h.attrs) == Words(h.attrs);
      SameLength(h.vars);
      SameLength(h.attrs);
    }
  }

  lemma {:induction false} TooManyVariables(s: string, p: nat, vars: seq<Spaced>, gap: string, rest: string,
                                            acc: seq<string>)
    requires vars != [] && GoodVariables(vars) && At(s, p, PrintVariables(vars) + ("in" + gap + rest))
    requires |acc| <= MAX_LOOP_VARIABLES < |acc| + |vars|
    ensures LoopVariables(s, p, acc) == None
    decreases |vars|
  {
    hide FindId, SkipWs, IsId, At, IsName, AllWhite, PrintVariables;
    VariableRead(s, p, vars, gap, rest);
    assert ("$" + vars[0].word)[1..] == vars[0].word;
    if |acc| < MAX_LOOP_VARIABLES {
      assert GoodVariables(vars[1..]);
      TooManyVariables(s, p + 1 + |vars[0].word| + |vars[0].gap|, vars[1..], gap, rest, acc + [vars[0].word]);
    }
  }
}
