/** The interpreter computes the meaning of every template of the grammar. */
module TemplateRefinement {
  import opened JsonText
  import opened Template
  import opened TemplateMeaning
  import opened TemplateReading
  import opened TemplateSkipping
  import opened TemplateTermination
  import opened Text
  import opened Wrappers

  /** From `st` the run fails if there is no result, and otherwise goes on at `after`. */
  ghost predicate Continues(env: Env, st: State, result: Option<string>, pos: nat, stack: seq<Frame>)
    requires Valid(env, st)
  {
    match result
    case None => Run(env, st) == None
    case Some(o) =>
      Valid(env, State(pos, st.out + o, stack)) && Run(env, st) == Run(env, State(pos, st.out + o, stack))
  }

  lemma RunStep(env: Env, st: State)
    requires Valid(env, st) && st.pos < |env.text|
    ensures Step(env, st).Some? ==> Valid(env, Step(env, st).value)
    ensures Run(env, st) == if Step(env, st).None? then None else Run(env, Step(env, st).value)
  {
    hide Step, Potential, Valid;
    if Step(env, st).Some? { StepLowers(env, st); }
  }

  lemma StepContinues(env: Env, st: State, result: Option<string>, pos: nat, stack: seq<Frame>)
    requires Valid(env, st) && st.pos < |env.text|
    requires Step(env, st) == match result case None => None case Some(o) => Some(State(pos, st.out + o, stack))
    ensures Continues(env, st, result, pos, stack)
  {
    hide Step, Valid, Run;
    RunStep(env, st);
  }

  lemma ContinuesThen(env: Env, st: State, a: Option<string>, b: Option<string>, p1: nat, p2: nat, s1: seq<Frame>,
                      s2: seq<Frame>)
    requires Valid(env, st) && Continues(env, st, a, p1, s1)
    requires a.Some? ==> Continues(env, State(p1, st.out + a.value, s1), b, p2, s2)
    ensures Continues(env, st, Then(a, b), p2, s2)
  {
    hide Valid, Run;
    if a.Some? && b.Some? { assert st.out + a.value + b.value == st.out + (a.value + b.value); }
  }

  lemma ContinuesNowhere(env: Env, st: State)
    requires Valid(env, st)
    ensures Continues(env, st, Some(""), st.pos, st.stack)
  {
    hide Valid, Run;
    assert st.out + "" == st.out;
    assert State(st.pos, st.out + "", st.stack) == st;
  }

  lemma PushedBindings(f: Frame, outer: seq<Frame>)
    ensures Bindings([f] + outer) == [f.b] + Bindings(outer)
  {
  }

  /** Nodes take the machine from their first character to just after their last, adding exactly
      their meaning to the output; it fails exactly when they have none. */
  lemma {:induction false} NodesRun(env: Env, nodes: seq<Node>, st: State)
    requires Valid(env, st) && Good(env.regexes, nodes)
    requires At(env.text, st.pos, Print(nodes)) && CharAt(env.text, st.pos + |Print(nodes)|) != '{'
    ensures Continues(env, st, Meaning(env, nodes, Bindings(st.stack)), st.pos + |Print(nodes)|, st.stack)
    decreases nodes, 0, 0
  {
    hide PrintNode, GoodNode, At, Valid, Continues, NodeMeaning, Bindings;
    if nodes == [] {
      ContinuesNowhere(env, st);
    } else {
      var p1 := st.pos + |PrintNode(nodes[0])|;
      var a := NodeMeaning(env, nodes[0], Bindings(st.stack));
      AfterFirst(env.regexes, env.text, st.pos, nodes);
      NodeRun(env, nodes[0], st);
      if a.Some? {
        var mid := State(p1, st.out + a.value, st.stack);
        ContinuesValid(env, st, a, p1, st.stack);
        NodesRun(env, nodes[1..], mid);
      }
      ContinuesThen(env, st, a, Meaning(env, nodes[1..], Bindings(st.stack)), p1, st.pos + |Print(nodes)|, st.stack,
          st.stack);
    }
  }

  lemma ContinuesValid(env: Env, st: State, a: Option<string>, pos: nat, stack: seq<Frame>)
    requires Valid(env, st) && Continues(env, st, a, pos, stack) && a.Some?
    ensures Valid(env, State(pos, st.out + a.value, stack))
  {
    hide Run, Valid;
  }

  lemma {:induction false} NodeRun(env: Env, n: Node, st: State)
    requires Valid(env, st) && GoodNode(env.regexes, n)
    requires At(env.text, st.pos, PrintNode(n)) && (n == Text('$') ==> CharAt(env.text, st.pos + 1) != '{')
    ensures Continues(env, st, NodeMeaning(env, n, Bindings(st.stack)), st.pos + |PrintNode(n)|, st.stack)
    decreases n, 1, 0
  {
    hide At, Valid, Continues, Bindings, Step, PrintNode, GoodNode, NodeMeaning;
    var m, end := NodeMeaning(env, n, Bindings(st.stack)), st.pos + |PrintNode(n)|;
    match n
    case Text(c) =>
      TextLength(c);
      TextMeaning(env, c, Bindings(st.stack));
      TextStep(env, st, c);
      StepContinues(env, st, m, end, st.stack);
    case Variable(lead, bar, name, trail) =>
      PlainWhenGood(env.regexes, n);
      VariableStep(env, st, lead, bar, name, trail);
      StepContinues(env, st, m, end, st.stack);
    case Switch(lead, gap, subject, cases, fallback) =>
      SwitchStep(env, st, lead, gap, subject, cases, fallback);
      StepContinues(env, st, m, end, st.stack);
    case Loop(h, body) =>
      LoopNodeRun(env, st, h, body);
  }

  lemma TextMeaning(env: Env, c: char, bs: seq<Binding>)
    ensures NodeMeaning(env, Text(c), bs) == Some([c])
  {
  }

  lemma PlainWhenGood(regexes: Regexes, n: Node)
    requires n.Variable? && GoodNode(regexes, n)
    ensures AllWhite(n.lead) && GoodBar(n.bar) && PlainName(n.name) && AllWhite(n.trail)
  {
  }

  lemma LoopFacts(env: Env, h: Head, body: seq<Node>, bs: seq<Binding>)
    requires GoodNode(env.regexes, Loop(h, body))
    ensures GoodHead(h) && |h.vars| == |h.attrs| <= MAX_LOOP_VARIABLES && Good(env.regexes, body)
    ensures var values := BindLoop(env.attrs, Words(h.vars), Words(h.attrs));
            NodeMeaning(env, Loop(h, body), bs) == LoopMeaning(env, body, values, 0, Iterations(values), bs)
  {
  }

  lemma {:induction false} LoopNodeRun(env: Env, st: State, h: Head, body: seq<Node>)
    requires Valid(env, st) && GoodNode(env.regexes, Loop(h, body))
    requires At(env.text, st.pos, PrintNode(Loop(h, body)))
    ensures Continues(env, st, NodeMeaning(env, Loop(h, body), Bindings(st.stack)),
                      st.pos + |PrintNode(Loop(h, body))|, st.stack)
    decreases Loop(h, body), 0, 0
  {
    hide At, Valid, Continues, Bindings, Step, PrintNode, GoodNode, NodeMeaning, BindLoop, Iterations, LoopHead,
        Print, GoodHead, Run, SkipLoop;
    var b, end := st.pos + |LoopHead(h)|, st.pos + |PrintNode(Loop(h, body))|;
    LoopFacts(env, h, body, Bindings(st.stack));
    var values := BindLoop(env.attrs, Words(h.vars), Words(h.attrs));
    var max := Iterations(values);
    LoopParts(env.text, st.pos, h, body);
    HeadStep(env, st, h);
    if max == 0 {
      SkipFromFor(env.regexes, env.text, st.pos, h, body);
      assert st.out + "" == st.out;
      StepContinues(env, st, Some(""), end, st.stack);
    } else {
      var inside := State(b, st.out, [Frame(Binding(values, 0), max, b)] + st.stack);
      RunStep(env, st);
      LoopRun(env, inside, body, values, 0, max, st.stack);
      SameContinuation(env, st, inside, LoopMeaning(env, body, values, 0, max, Bindings(st.stack)), end, st.stack);
    }
  }

  lemma SameContinuation(env: Env, a: State, b: State, result: Option<string>, pos: nat, stack: seq<Frame>)
    requires Valid(env, a) && Valid(env, b) && a.out == b.out && Run(env, a) == Run(env, b)
    requires Continues(env, b, result, pos, stack)
    ensures Continues(env, a, result, pos, stack)
  {
    hide Valid, Run;
  }

  /** An open loop runs through its remaining iterations and leaves the stack as it was before the loop. */
  lemma {:induction false} LoopRun(env: Env, st: State, body: seq<Node>, values: map<string, seq<string>>, idx: nat,
                                   max: nat, outer: seq<Frame>)
    requires Valid(env, st) && Good(env.regexes, body) && idx < max
    requires st.stack == [Frame(Binding(values, idx), max, st.pos)] + outer
    requires At(env.text, st.pos, Print(body)) && At(env.text, st.pos + |Print(body)|, END_TAG)
    requires CharAt(env.text, st.pos + |Print(body)|) == '$'
    ensures Continues(env, st, LoopMeaning(env, body, values, idx, max, Bindings(outer)),
                      st.pos + |Print(body)| + |END_TAG|, outer)
    decreases body, 1, max - idx
  {
    hide At, Valid, Continues, Bindings, Step, Run, Print, Good;
    var e := st.pos + |Print(body)|;
    var f := st.stack[0];
    var once := Meaning(env, body, Bindings(st.stack));
    var rest := LoopMeaning(env, body, values, idx + 1, max, Bindings(outer));
    PushedBindings(f, outer);
    NodesRun(env, body, st);
    if once.Some? {
      var atEnd := State(e, st.out + once.value, st.stack);
      ContinuesValid(env, st, once, e, st.stack);
      EndStep(env, atEnd);
      RunStep(env, atEnd);
      if idx + 1 >= max {
        assert st.stack[1..] == outer;
        assert atEnd.out + "" == atEnd.out;
        StepContinues(env, atEnd, Some(""), e + |END_TAG|, outer);
      } else {
        var again := State(f.reset, atEnd.out, [f.(b := Binding(values, idx + 1))] + outer);
        assert st.stack[1..] == outer;
        LoopRun(env, again, body, values, idx + 1, max, outer);
        SameContinuation(env, atEnd, again, rest, e + |END_TAG|, outer);
      }
    }
    ContinuesThen(env, st, once, rest, e, e + |END_TAG|, st.stack, outer);
  }

  // ---------- the main result ----------

  /** What a template stands for: the expansion of its nodes without trailing commas. */
  function Expansion(env: Env, nodes: seq<Node>): Option<string> {
    match Meaning(env, nodes, [])
    case None => None
    case Some(out) => Some(Blanked(out))
  }

  /** For every template of the grammar, with any white space, and every object, the interpreter yields the
      expansion, and fails exactly when the template has none. */
  lemma InterpreterCorrect(env: Env, nodes: seq<Node>)
    requires Good(env.regexes, nodes) && env.text == Print(nodes)
    ensures Interpret(env) == Expansion(env, nodes)
  {
    hide Print, Good, Meaning, Blanked, Step, Valid;
    assert At(env.text, 0, Print(nodes)) && CharAt(env.text, |Print(nodes)|) != '{' by {
      assert env.text[0..|env.text|] == env.text;
    }
    BeginValid(env);
    NodesRun(env, nodes, BEGIN);
    assert Bindings(BEGIN.stack) == [];
    var m := Meaning(env, nodes, []);
    if m.Some? {
      assert BEGIN.out + m.value == m.value;
      FinishedRun(env, State(|env.text|, m.value, []));
    }
  }

  lemma BeginValid(env: Env)
    ensures Valid(env, BEGIN)
  {
  }

  lemma FinishedRun(env: Env, st: State)
    requires Valid(env, st) && st.pos == |env.text| && st.stack == []
    ensures Run(env, st) == Some(st.out)
  {
  }
}
