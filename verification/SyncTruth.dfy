/** The cache stays truthful about the server, whatever the server answers. */
module SyncTruth {
  import opened RenderedObjects
  import opened ScimSender
  import opened Sync
  import opened SyncPlan

  function KeyOf(cfg: Config, o: RenderedObject): ResourceKey {
    ResourceKey(cfg.endpoint(o.typ), o.id)
  }

  /** The server has the object; unless the cache only has a dummy for it, with the cached JSON. */
  ghost predicate Held(cfg: Config, s: Server, o: RenderedObject) {
    KeyOf(cfg, o) in s && (IsDummy(o) || s[KeyOf(cfg, o)] == o.json)
  }

  ghost predicate TruthAt(cfg: Config, s: Server, cache: Cache, id: string)
    requires id in cache
  {
    id != "" && cache[id].id == id && Held(cfg, s, cache[id])
  }

  /** The invariant kept between runs: every cached id is held by the server, and an entry that is not a
      dummy equals what the server has. */
  ghost predicate Truthful(cfg: Config, s: Server, cache: Cache) {
    forall id | id in cache :: TruthAt(cfg, s, cache, id)
  }

  /** Truth depends on the endpoints only. */
  lemma SameEndpoints(a: Config, b: Config, s: Server, m: Cache)
    requires a.endpoint == b.endpoint && Truthful(a, s, m)
    ensures Truthful(b, s, m)
  {
    hide IsDummy;
    forall id | id in m ensures TruthAt(b, s, m, id) {
      assert TruthAt(a, s, m, id);
    }
  }

  // ---------- one operation ----------

  /** What an operation relies on when its turn comes. */
  ghost predicate Ready(cfg: Config, s: Server, op: Op) {
    match op
    case CopyOp(o) => o.id != "" && Held(cfg, s, o)
    case PostOp(o) => o.id != ""
    case PutOp(o) => o.id != "" && KeyOf(cfg, o) in s
    case SkipOp => true
    case DropOp(o) => o.id != "" && Held(cfg, s, o)
    case DropRefOp(_) => true
  }

  lemma SendLocal(net: Network, maxTimeouts: int, l: Link, r: Request, k: ResourceKey)
    requires k != r.Key()
    ensures var after := Send(net, maxTimeouts, l, r).server;
      (k in after <==> k in l.server) && (k in l.server ==> after[k] == l.server[k])
  {
    hide Reply1;
  }

  lemma RequestId(cfg: Config, op: Op)
    ensures RequestOf(cfg, op).Some? ==> RequestOf(cfg, op).value.Key().id == IdOf(op) && !op.SkipOp?
  {
  }

  lemma RecordLocal(op: Op, reply: Reply, cache: Cache, id: string)
    requires id != IdOf(op) || op.SkipOp? || op.DropRefOp?
    ensures (id in Record(op, reply, cache) <==> id in cache)
    ensures id in cache ==> Record(op, reply, cache)[id] == cache[id]
  {
    hide Dummy;
  }

  lemma StepLocal(cfg: Config, op: Op, st: State)
    ensures forall k: ResourceKey | k.id != IdOf(op) || op.SkipOp? ::
              (k in ExecuteOne(cfg, op, st).link.server <==> k in st.link.server)
              && (k in st.link.server ==> ExecuteOne(cfg, op, st).link.server[k] == st.link.server[k])
    ensures forall id | id != IdOf(op) || op.SkipOp? || op.DropRefOp? ::
              (id in ExecuteOne(cfg, op, st).cache <==> id in st.cache)
              && (id in st.cache ==> ExecuteOne(cfg, op, st).cache[id] == st.cache[id])
  {
    hide IdOf, RequestOf, Send, Record, Reply1;
    RequestId(cfg, op);
    forall k: ResourceKey | k.id != IdOf(op) || op.SkipOp?
      ensures k in ExecuteOne(cfg, op, st).link.server <==> k in st.link.server
      ensures k in st.link.server ==> ExecuteOne(cfg, op, st).link.server[k] == st.link.server[k]
    {
      if RequestOf(cfg, op).Some? {
        SendLocal(cfg.network, cfg.maxTimeouts, st.link, RequestOf(cfg, op).value, k);
      }
    }
    forall id | id != IdOf(op) || op.SkipOp? || op.DropRefOp?
      ensures id in ExecuteOne(cfg, op, st).cache <==> id in st.cache
      ensures id in st.cache ==> ExecuteOne(cfg, op, st).cache[id] == st.cache[id]
    {
      RecordLocal(op, ReplyTo(cfg, op, st), st.cache, id);
    }
  }

  lemma StepTruth(cfg: Config, op: Op, st: State)
    requires Honest(cfg.network) && Ready(cfg, st.link.server, op)
    requires !op.SkipOp? && !op.DropRefOp? && IdOf(op) !in st.cache
    ensures IdOf(op) in ExecuteOne(cfg, op, st).cache ==>
              TruthAt(cfg, ExecuteOne(cfg, op, st).link.server, ExecuteOne(cfg, op, st).cache, IdOf(op))
  {
  }

  // ---------- a whole list of operations ----------

  ghost predicate RecordedBy(ops: seq<Op>, id: string) {
    exists i :: 0 <= i < |ops| && !ops[i].SkipOp? && !ops[i].DropRefOp? && IdOf(ops[i]) == id
  }

  ghost predicate AllReady(cfg: Config, s: Server, ops: seq<Op>, from: nat) {
    forall j | from <= j < |ops| :: Ready(cfg, s, ops[j])
  }

  ghost predicate Invariant(cfg: Config, ops: seq<Op>, k: nat, st: State)
    requires k <= |ops|
  {
    && Truthful(cfg, st.link.server, st.cache)
    && (forall id | id in st.cache :: RecordedBy(ops[..k], id))
    && AllReady(cfg, st.link.server, ops, k)
  }

  lemma ReadyElsewhere(cfg: Config, a: Op, b: Op, st: State)
    requires !Clash(a, b) && Ready(cfg, st.link.server, b)
    ensures Ready(cfg, ExecuteOne(cfg, a, st).link.server, b)
  {
    hide ExecuteOne, IsDummy;
    StepLocal(cfg, a, st);
  }

  lemma InvariantStep(cfg: Config, ops: seq<Op>, k: nat, st: State)
    requires Honest(cfg.network) && Separate(ops) && k < |ops| && Invariant(cfg, ops, k, st)
    ensures Invariant(cfg, ops, k + 1, ExecuteOne(cfg, ops[k], st))
  {
    hide ExecuteOne, Ready, Held, Honest;
    var op, next := ops[k], ExecuteOne(cfg, ops[k], st);
    StepLocal(cfg, op, st);
    assert ops[..k + 1][..k] == ops[..k] && ops[..k + 1][k] == op;
    assert Ready(cfg, st.link.server, op);
    forall j | k + 1 <= j < |ops| ensures Ready(cfg, next.link.server, ops[j]) {
      ReadyElsewhere(cfg, op, ops[j], st);
    }
    forall id | id in next.cache
      ensures RecordedBy(ops[..k + 1], id) && TruthAt(cfg, next.link.server, next.cache, id)
    {
      TruthOfOne(cfg, ops, k, st, id);
    }
  }

  lemma TruthOfOne(cfg: Config, ops: seq<Op>, k: nat, st: State, id: string)
    requires Honest(cfg.network) && Separate(ops) && k < |ops| && Invariant(cfg, ops, k, st)
    requires id in ExecuteOne(cfg, ops[k], st).cache
    ensures RecordedBy(ops[..k + 1], id)
    ensures TruthAt(cfg, ExecuteOne(cfg, ops[k], st).link.server, ExecuteOne(cfg, ops[k], st).cache, id)
  {
    hide ExecuteOne, Ready, IsDummy, Honest;
    var op := ops[k];
    StepLocal(cfg, op, st);
    assert ops[..k + 1][k] == op;
    if id in st.cache {
      assert RecordedBy(ops[..k], id);
      var i :| 0 <= i < k && !ops[i].SkipOp? && !ops[i].DropRefOp? && IdOf(ops[i]) == id;
      assert ops[..k + 1][i] == ops[i] && !Clash(ops[i], op);
      assert TruthAt(cfg, st.link.server, st.cache, id);
    } else {
      assert !op.SkipOp? && !op.DropRefOp? && IdOf(op) == id;
      assert Ready(cfg, st.link.server, op);
      StepTruth(cfg, op, st);
    }
  }

  /** The invariant holds after every single request. */
  lemma {:induction false} InvariantThroughout(cfg: Config, ops: seq<Op>, k: nat, st: State)
    requires Honest(cfg.network) && Separate(ops) && k <= |ops|
    requires st.cache == map[] && AllReady(cfg, st.link.server, ops, 0)
    ensures Invariant(cfg, ops, k, Execute(cfg, ops[..k], st))
  {
    if k > 0 {
      InvariantThroughout(cfg, ops, k - 1, st);
      InvariantStep(cfg, ops, k - 1, Execute(cfg, ops[..k - 1], st));
      assert ops[..k][..k - 1] == ops[..k - 1];
    }
  }

  // ---------- the normal run ----------

  lemma NormalPlanReady(cfg: Config, task: Task, s: Server)
    requires WellFormed(cfg, task) && InPlace(cfg, task) && !task.rebuild
    requires Truthful(cfg, s, task.cached)
    ensures AllReady(cfg, s, Plan(cfg, task), 0)
  {
    hide Classify, AllDrops, AllChanges, Ready;
    var types := Reverse(cfg.types);
    var a, b := AllChanges(task, cfg.types), AllDrops(task, types);
    ReverseTypes(cfg.types);
    AllChangesFrom(cfg, task, cfg.types);
    AllDropsFrom(task, types);
    forall i | 0 <= i < |a| ensures Ready(cfg, s, a[i]) {
      assert ChangeFrom(cfg, task, cfg.types, a[i]);
      var t, u :| t in cfg.types && Current(cfg, task, t, u) && a[i] == Classify(task, u);
      ChangeReady(cfg, task, s, t, u);
    }
    forall i | 0 <= i < |b| ensures Ready(cfg, s, b[i]) {
      assert b[i].DropOp? && Gone(task, types, b[i].o);
      DropReady(cfg, task, s, types, b[i].o);
    }
  }

  lemma ChangeReady(cfg: Config, task: Task, s: Server, t: string, u: string)
    requires WellFormed(cfg, task) && InPlace(cfg, task) && !task.rebuild
    requires Truthful(cfg, s, task.cached) && Current(cfg, task, t, u)
    ensures Ready(cfg, s, Classify(task, u))
  {
    hide IsDummy;
    if u in task.cached {
      assert TruthAt(cfg, s, task.cached, u) && StaysPut(cfg, task, t, u);
    }
  }

  lemma DropReady(cfg: Config, task: Task, s: Server, types: seq<string>, o: RenderedObject)
    requires Truthful(cfg, s, task.cached) && Gone(task, types, o)
    ensures Ready(cfg, s, DropOp(o))
  {
    assert TruthAt(cfg, s, task.cached, o.id);
  }

  /** Whatever the server answers and wherever the run is cut off by an abort, the new cache is truthful,
      and so was the cache under construction after every request. */
  lemma RunKeepsTruth(cfg: Config, task: Task, server: Server, k: nat)
    requires WellFormed(cfg, task) && InPlace(cfg, task) && !task.rebuild
    requires Honest(cfg.network) && Truthful(cfg, server, task.cached)
    requires k <= |Plan(cfg, task)|
    ensures var st := Execute(cfg, Plan(cfg, task)[..k], Start(server)); Truthful(cfg, st.link.server, st.cache)
    ensures Truthful(cfg, Run(cfg, task, server).link.server, Run(cfg, task, server).cache)
  {
    hide Plan, Execute, WellFormed, InPlace, Truthful;
    var ops := Plan(cfg, task);
    NormalPlanSeparate(cfg, task);
    NormalPlanReady(cfg, task, server);
    InvariantThroughout(cfg, ops, k, Start(server));
    InvariantThroughout(cfg, ops, |ops|, Start(server));
    assert ops[..|ops|] == ops;
  }
}
