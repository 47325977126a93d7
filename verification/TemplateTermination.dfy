/** The interpreter stops on every template, malformed or not: a potential, made of the iterations that the
    loops on the stack still have to go and of the remaining text, gets lower with every step. */
module TemplateTermination {
  import opened JsonText
  import opened Ordering
  import opened Template
  import opened Wrappers

  // ---------- how many iterations a loop can have ----------

  /** An upper bound for the number of values of any attribute. */
  ghost function Most(attrs: Attributes): (n: nat)
    ensures forall a | a in attrs :: |attrs[a]| <= n
    decreases |attrs|
  {
    if attrs == map[] then 0
    else
      var a :| a in attrs;
      var rest := Most(attrs - {a});
      assert forall b | b in attrs && b != a :: b in attrs - {a} && attrs[b] == (attrs - {a})[b];
      if |attrs[a]| > rest then |attrs[a]| else rest
  }

  lemma {:induction false} LoopIsBounded(attrs: Attributes, vars: seq<string>, names: seq<string>)
    requires |vars| == |names|
    ensures forall v | v in BindLoop(attrs, vars, names) :: |BindLoop(attrs, vars, names)[v]| <= Most(attrs)
  {
    hide Most;
    if vars != [] { LoopIsBounded(attrs, vars[1..], names[1..]); }
  }

  lemma {:induction false} LongestIsBounded(lists: seq<seq<string>>, max: nat, n: nat)
    requires max <= n && forall i | 0 <= i < |lists| :: |lists[i]| <= n
    ensures LongestOf(lists, max) <= n
    decreases |lists|
  {
    if lists != [] { LongestIsBounded(lists[1..], if |lists[0]| > max then |lists[0]| else max, n); }
  }

  // ---------- the potential ----------

  /** Enough steps for `d` characters of text, each of which may open a loop of up to `k` iterations over
      everything that follows it. */
  ghost function Weight(k: nat, d: nat): nat {
    if d == 0 then 0 else (k + 1) * (Weight(k, d - 1) + 1)
  }

  lemma {:induction false} WeightGrows(k: nat, d: nat, e: nat)
    requires d < e
    ensures Weight(k, d) < Weight(k, e)
    ensures (k + 1) * (Weight(k, d) + 1) <= Weight(k, e)
    decreases e
  {
    if d < e - 1 {
      WeightGrows(k, d, e - 1);
      assert (k + 1) * (Weight(k, d) + 1) <= (k + 1) * (Weight(k, e - 1) + 1);
    }
    assert Weight(k, e) == (k + 1) * (Weight(k, e - 1) + 1);
    assert (k + 1) * (Weight(k, d) + 1) >= Weight(k, d) + 1;
  }

  ghost function Times(a: nat, b: nat): nat { a * b }

  /** The remaining iterations of a loop, each of which starts again at its reset point. */
  ghost function FrameCost(k: nat, n: nat, f: Frame): nat
    requires f.b.idx < f.max && f.reset <= n
  {
    Times(f.max - f.b.idx - 1, Weight(k, n - f.reset) + 1)
  }

  ghost function Pending(k: nat, n: nat, stack: seq<Frame>): nat
    requires ValidStack(k, n, stack)
  {
    if stack == [] then 0 else FrameCost(k, n, stack[0]) + Pending(k, n, stack[1..])
  }

  ghost predicate ValidStack(k: nat, n: nat, stack: seq<Frame>) {
    forall i | 0 <= i < |stack| :: stack[i].b.idx < stack[i].max <= k && stack[i].reset <= n
  }

  ghost predicate Valid(env: Env, st: State) {
    st.pos <= |env.text| && ValidStack(Most(env.attrs), |env.text|, st.stack)
  }

  ghost function Potential(env: Env, st: State): nat
    requires Valid(env, st)
  {
    var k := Most(env.attrs);
    Weight(k, |env.text| - st.pos) + Pending(k, |env.text|, st.stack)
  }

  // ---------- every step lowers it ----------

  ghost predicate Lower(env: Env, before: State, after: State)
    requires Valid(env, before)
  {
    Valid(env, after) && Potential(env, after) < Potential(env, before)
  }

  lemma AdvanceLowers(env: Env, before: State, after: State)
    requires Valid(env, before) && after.stack == before.stack && before.pos < after.pos <= |env.text|
    ensures Lower(env, before, after)
  {
    WeightGrows(Most(env.attrs), |env.text| - after.pos, |env.text| - before.pos);
  }

  lemma PushLowers(env: Env, before: State, after: State, f: Frame)
    requires Valid(env, before) && after.stack == [f] + before.stack && before.pos < after.pos <= |env.text|
    requires f.b.idx == 0 && f.reset == after.pos && 0 < f.max <= Most(env.attrs)
    ensures Lower(env, before, after)
  {
    hide Most, Weight;
    var k, n := Most(env.attrs), |env.text|;
    var w := Weight(k, n - after.pos);
    WeightGrows(k, n - after.pos, n - before.pos);
    assert after.stack[1..] == before.stack;
    assert Pending(k, n, after.stack) == Times(f.max - 1, w + 1) + Pending(k, n, before.stack);
    LoopCost(k, f.max, w);
  }

  lemma LoopCost(k: nat, m: nat, w: nat)
    requires 0 < m <= k
    ensures (m - 1) * (w + 1) + w < (k + 1) * (w + 1)
  {
    assert (m - 1) * (w + 1) + (w + 1) == m * (w + 1) <= k * (w + 1);
  }

  lemma PopLowers(env: Env, before: State, after: State)
    requires Valid(env, before) && before.stack != [] && after.stack == before.stack[1..]
    requires before.pos < after.pos <= |env.text|
    ensures Lower(env, before, after)
  {
    hide Most, Weight;
    var k, n, f := Most(env.attrs), |env.text|, before.stack[0];
    WeightGrows(k, n - after.pos, n - before.pos);
  }

  lemma JumpLowers(env: Env, before: State, after: State)
    requires Valid(env, before) && before.stack != []
    requires var f := before.stack[0];
             f.b.idx + 1 < f.max
             && after == State(f.reset, after.out, [f.(b := Binding(f.b.values, f.b.idx + 1))] + before.stack[1..])
    ensures Lower(env, before, after)
  {
    hide Most, Weight;
    var k, n, f := Most(env.attrs), |env.text|, before.stack[0];
    var w := Weight(k, n - f.reset);
    assert after.stack[1..] == before.stack[1..];
    assert (f.max - f.b.idx - 1) * (w + 1) == (f.max - (f.b.idx + 1) - 1) * (w + 1) + (w + 1);
  }

  /** What the start of a loop leads to: the same stack, or one frame more. */
  lemma LoopStartShape(env: Env, st: State) returns (vars: seq<string>, names: seq<string>)
    requires st.pos <= |env.text| && LoopStart(env, st).Some?
    ensures |vars| == |names|
    ensures var next, values := LoopStart(env, st).value, BindLoop(env.attrs, vars, names);
      && st.pos <= next.pos <= |env.text|
      && next.stack == if Iterations(values) == 0 then st.stack
                       else [Frame(Binding(values, 0), Iterations(values), next.pos)] + st.stack
  {
    hide BindLoop, LoopVariables, LoopAttributes, SkipLoop, SkipWs, Iterations;
    var s := env.text;
    var p1 := LoopVariables(s, SkipWs(s, st.pos), []).value.1;
    vars := LoopVariables(s, SkipWs(s, st.pos), []).value.0;
    names := LoopAttributes(s, SkipWs(s, p1), []).0;
  }

  lemma LoopStartLowers(env: Env, before: State, st: State)
    requires Valid(env, before) && st.stack == before.stack && before.pos < st.pos <= |env.text|
        && LoopStart(env, st).Some?
    ensures Lower(env, before, LoopStart(env, st).value)
  {
    hide Lower, Valid, BindLoop, LoopStart, Iterations;
    var vars, names := LoopStartShape(env, st);
    var next, values := LoopStart(env, st).value, BindLoop(env.attrs, vars, names);
    if Iterations(values) == 0 {
      AdvanceLowers(env, before, next);
    } else {
      LoopIsBounded(env.attrs, vars, names);
      IterationsAreBounded(values, Most(env.attrs));
      PushLowers(env, before, next, Frame(Binding(values, 0), Iterations(values), next.pos));
    }
  }

  lemma IterationsAreBounded(values: map<string, seq<string>>, most: nat)
    requires forall v | v in values :: |values[v]| <= most
    ensures Iterations(values) <= most
  {
    hide InOrder, LongestOf;
    LongestIsBounded(ListsUnder(values, SortedKeys(values.Keys)), 0, most);
  }

  lemma LoopEndLowers(env: Env, before: State, st: State)
    requires Valid(env, before) && st.stack == before.stack && before.pos < st.pos <= |env.text|
        && LoopEnd(env, st).Some?
    ensures Lower(env, before, LoopEnd(env, st).value)
  {
    hide Lower;
    var next, f := LoopEnd(env, st).value, st.stack[0];
    if f.b.idx + 1 >= f.max {
      PopLowers(env, before, next);
    } else {
      JumpLowers(env, before, next);
    }
  }

  lemma FinishLowers(env: Env, before: State, st: State)
    requires Valid(env, before) && st.stack == before.stack && before.pos < st.pos <= |env.text|
        && Finish(env, st).Some?
    ensures Lower(env, before, Finish(env, st).value)
  {
    hide Lower, Valid;
    AdvanceLowers(env, before, Finish(env, st).value);
  }

  /** Every step that does not fail lowers the potential, and leaves the cursor inside the text. */
  lemma StepLowers(env: Env, st: State)
    requires Valid(env, st) && st.pos < |env.text| && Step(env, st).Some?
    ensures Lower(env, st, Step(env, st).value)
  {
    hide Lower, Valid, LoopStart, LoopEnd, Conditional, GetValue, Finish, FindId, SkipWs, Escape;
    var s, next := env.text, Step(env, st).value;
    if CharAt(s, st.pos) == '$' && CharAt(s, st.pos + 1) == '{' {
      var p0 := SkipWs(s, st.pos + 2);
      var (id, p) := FindId(s, if CharAt(s, p0) == '|' then SkipWs(s, p0 + 1) else p0);
      var here := st.(pos := p);
      if id == "for" {
        LoopStartLowers(env, st, here);
      } else if id == "end" {
        LoopEndLowers(env, st, here);
      } else if id == "switch" {
        FinishLowers(env, st, Conditional(env, here).value);
      } else {
        FinishLowers(env, st, Simple(env, here, id, (CharAt(s, p0) == '|') != env.escapeByDefault).value);
      }
    } else {
      AdvanceLowers(env, st, next);
    }
  }

  // ---------- the whole run ----------

  /** The main loop: None for an error, and for a loop that is still open at the end. */
  function Run(env: Env, st: State): Option<string>
    requires Valid(env, st)
    decreases Potential(env, st)
  {
    if st.pos >= |env.text| then
      if st.stack == [] then Some(st.out) else None
    else
      match Step(env, st)
      case None => None
      case Some(next) =>
        StepLowers(env, st);
        Run(env, next)
  }

  const BEGIN := State(0, "", [])

  function Interpret(env: Env): Option<string> {
    match Run(env, BEGIN)
    case None => None
    case Some(out) => Some(Blanked(out))
  }
}
