/** Two fault-free runs on the same data bring cache and server in line with it; a third sends nothing. */
module SyncConvergence {
  import opened RenderedObjects
  import opened ScimSender
  import opened Sync
  import opened SyncPlan
  import opened SyncTruth
  import opened Wrappers

  // ---------- operations on a network that works ----------

  /** What an operation has achieved by the end, given the server it started from. */
  ghost predicate Achieved(cfg: Config, before: Server, op: Op, st: State) {
    match op
    case CopyOp(o) => o.id in st.cache && st.cache[o.id] == o && Held(cfg, st.link.server, o)
    case PutOp(o) =>
      o.id in st.cache && st.cache[o.id] == o && KeyOf(cfg, o) in st.link.server
          && st.link.server[KeyOf(cfg, o)] == o.json
    case PostOp(o) =>
      && o.id in st.cache && KeyOf(cfg, o) in st.link.server
      && (if KeyOf(cfg, o) in before then st.cache[o.id] == Dummy(o, CREATE_CONFLICT)
          else st.cache[o.id] == o && st.link.server[KeyOf(cfg, o)] == o.json)
    case SkipOp => true
    case DropOp(o) => o.id !in st.cache && KeyOf(cfg, o) !in st.link.server
    case DropRefOp(ref) => true
  }

  lemma AchievedStep(cfg: Config, before: Server, op: Op, st: State)
    requires FaultFree(cfg.network) && !st.link.aborted && Ready(cfg, st.link.server, op)
    requires op.SkipOp? || op.DropRefOp? || IdOf(op) !in st.cache
    requires forall k: ResourceKey | k.id == IdOf(op) && !op.SkipOp? :: k in before <==> k in st.link.server
    ensures Achieved(cfg, before, op, ExecuteOne(cfg, op, st)) && !ExecuteOne(cfg, op, st).link.aborted
  {
    hide IsDummy;
  }

  lemma AchievedElsewhere(cfg: Config, before: Server, a: Op, b: Op, st: State)
    requires !Clash(a, b) && Achieved(cfg, before, b, st)
    ensures Achieved(cfg, before, b, ExecuteOne(cfg, a, st))
  {
    hide ExecuteOne, IsDummy;
    StepLocal(cfg, a, st);
  }

  ghost predicate AllAchieved(cfg: Config, before: Server, ops: seq<Op>, k: nat, st: State)
    requires k <= |ops|
  {
    && !st.link.aborted
    && (forall i | 0 <= i < k :: Achieved(cfg, before, ops[i], st))
    && (forall j, key: ResourceKey | k <= j < |ops| && key.id == IdOf(ops[j]) && !ops[j].SkipOp?
        && !ops[j].DropRefOp? ::
          key in before <==> key in st.link.server)
  }

  lemma UntouchedStep(cfg: Config, before: Server, ops: seq<Op>, k: nat, st: State)
    requires Separate(ops) && k < |ops| && AllAchieved(cfg, before, ops, k, st)
    ensures forall j, key: ResourceKey | k < j < |ops| && key.id == IdOf(ops[j]) && !ops[j].SkipOp?
        && !ops[j].DropRefOp? ::
              key in before <==> key in ExecuteOne(cfg, ops[k], st).link.server
  {
    hide ExecuteOne, Achieved, IdOf;
    StepLocal(cfg, ops[k], st);
    assert forall j | k < j < |ops| :: !Clash(ops[k], ops[j]);
  }

  lemma {:induction false} HealthyRun(cfg: Config, ops: seq<Op>, k: nat, st: State)
    requires FaultFree(cfg.network) && Separate(ops) && k <= |ops|
    requires st.cache == map[] && !st.link.aborted && AllReady(cfg, st.link.server, ops, 0)
    requires forall i | 0 <= i < |ops| :: !ops[i].DropRefOp?
    ensures AllAchieved(cfg, st.link.server, ops, k, Execute(cfg, ops[..k], st))
  {
    hide ExecuteOne, Achieved, Ready, FaultFree, Honest;
    if k > 0 {
      var op, mid := ops[k - 1], Execute(cfg, ops[..k - 1], st);
      HealthyRun(cfg, ops, k - 1, st);
      FaultFreeIsHonest(cfg.network);
      InvariantThroughout(cfg, ops, k - 1, st);
      assert ops[..k][..k - 1] == ops[..k - 1];
      assert op.SkipOp? || IdOf(op) !in mid.cache by { NotYetRecorded(ops, k - 1, mid.cache); }
      assert Ready(cfg, mid.link.server, op);
      AchievedStep(cfg, st.link.server, op, mid);
      UntouchedStep(cfg, st.link.server, ops, k - 1, mid);
      forall i | 0 <= i < k - 1 ensures Achieved(cfg, st.link.server, ops[i], ExecuteOne(cfg, op, mid)) {
        assert !Clash(ops[i], op);
        AchievedElsewhere(cfg, st.link.server, op, ops[i], mid);
      }
    }
  }

  lemma FaultFreeIsHonest(net: Network)
    requires FaultFree(net)
    ensures Honest(net)
  {
  }

  lemma NotYetRecorded(ops: seq<Op>, k: nat, cache: Cache)
    requires Separate(ops) && k < |ops| && !ops[k].DropRefOp?
    requires forall id | id in cache :: RecordedBy(ops[..k], id)
    ensures ops[k].SkipOp? || IdOf(ops[k]) !in cache
  {
    hide IdOf;
  }

  // ---------- the cache that the data calls for ----------

  /** Every cached type is handled, so nothing in the cache is left unattended. */
  ghost predicate AllHandled(cfg: Config, m: Cache) {
    forall id | id in m :: m[id].typ in cfg.types
  }

  /** No rendering happens to be one of the dummies. */
  ghost predicate NoDummies(m: Cache) {
    forall id | id in m :: !IsDummy(m[id])
  }

  ghost predicate Premises(cfg: Config, task: Task, server: Server) {
    && !task.rebuild && FaultFree(cfg.network)
    && WellFormed(cfg, task) && InPlace(cfg, task) && AllHandled(cfg, task.cached) && NoDummies(task.pre)
    && Truthful(cfg, server, task.cached)
  }

  /** The state of one current object after one fault-free run. */
  ghost predicate AfterOne(cfg: Config, task: Task, server: Server, t: string, u: string, st: State) {
    if u in task.pre then
      && u in st.cache && KeyOf(cfg, task.pre[u]) in st.link.server
      && (if u !in task.cached && KeyOf(cfg, task.pre[u]) in server then
            st.cache[u] == Dummy(task.pre[u], CREATE_CONFLICT)
          else
            st.cache[u] == task.pre[u] && st.link.server[KeyOf(cfg, task.pre[u])] == task.pre[u].json)
    else
      (u in st.cache <==> u in task.cached) && (u in st.cache ==> st.cache[u] == task.cached[u])
  }

  lemma PlanAchieved(cfg: Config, task: Task, server: Server)
    requires Premises(cfg, task, server)
    ensures AllAchieved(cfg, server, Plan(cfg, task), |Plan(cfg, task)|, Run(cfg, task, server))
    ensures forall id | id in Run(cfg, task, server).cache :: RecordedBy(Plan(cfg, task), id)
  {
    hide Plan, Execute, WellFormed, InPlace, Truthful, FaultFree, Honest;
    var ops := Plan(cfg, task);
    NormalPlanSeparate(cfg, task);
    NormalPlanReady(cfg, task, server);
    NoRefDrops(cfg, task);
    HealthyRun(cfg, ops, |ops|, Start(server));
    FaultFreeIsHonest(cfg.network);
    InvariantThroughout(cfg, ops, |ops|, Start(server));
    assert ops[..|ops|] == ops;
  }

  lemma NoRefDrops(cfg: Config, task: Task)
    requires WellFormed(cfg, task) && !task.rebuild
    ensures forall i | 0 <= i < |Plan(cfg, task)| :: !Plan(cfg, task)[i].DropRefOp?
    ensures forall i | 0 <= i < |Plan(cfg, task)| :: PlannedNormally(cfg, task, Plan(cfg, task)[i])
  {
    hide AllDrops, AllChanges, Reverse, Classify;
    var types := Reverse(cfg.types);
    var a, b := AllChanges(task, cfg.types), AllDrops(task, types);
    AllChangesFrom(cfg, task, cfg.types);
    ReverseTypes(cfg.types);
    AllDropsFrom(task, types);
    forall i | 0 <= i < |a| ensures PlannedNormally(cfg, task, a[i]) && !a[i].DropRefOp? {
      assert ChangeFrom(cfg, task, cfg.types, a[i]);
      var t, u :| t in cfg.types && Current(cfg, task, t, u) && a[i] == Classify(task, u);
      ClassifiedId(cfg, task, t, u);
    }
    forall i | 0 <= i < |b| ensures PlannedNormally(cfg, task, b[i]) {
      assert b[i].DropOp? && Gone(task, types, b[i].o);
    }
  }

  ghost predicate PlannedNormally(cfg: Config, task: Task, op: Op) {
    ChangeFrom(cfg, task, cfg.types, op) || (op.DropOp? && Gone(task, cfg.types, op.o))
  }

  lemma OneRun(cfg: Config, task: Task, server: Server, t: string, u: string)
    requires Premises(cfg, task, server) && Current(cfg, task, t, u)
    ensures AfterOne(cfg, task, server, t, u, Run(cfg, task, server))
  {
    hide Plan, Execute, WellFormed, FaultFree, IsDummy;
    var ops, st := Plan(cfg, task), Run(cfg, task, server);
    PlanAchieved(cfg, task, server);
    ChangePlanned(cfg, task, t, u);
    var i :| 0 <= i < |ops| && ops[i] == Classify(task, u);
    assert Achieved(cfg, server, ops[i], st);
    UidFacts(cfg, task, server, t, u);
    if u !in task.pre && u !in task.cached && u in st.cache {
      assert RecordedBy(ops, u);
      var j :| 0 <= j < |ops| && !ops[j].SkipOp? && !ops[j].DropRefOp? && IdOf(ops[j]) == u;
      OnlyOperationOf(cfg, task, t, u, ops[j]);
    }
  }

  lemma UidFacts(cfg: Config, task: Task, server: Server, t: string, u: string)
    requires Premises(cfg, task, server) && Current(cfg, task, t, u)
    ensures u != "" && (u in task.pre ==> task.pre[u].id == u && task.pre[u].typ == t && !IsDummy(task.pre[u]))
    ensures u in task.cached
        ==> task.cached[u].id == u && task.cached[u].typ == t && TruthAt(cfg, server, task.cached, u)
  {
    if u in task.cached {
      assert StaysPut(cfg, task, t, u);
    }
  }

  lemma ChangePlanned(cfg: Config, task: Task, t: string, u: string)
    requires Current(cfg, task, t, u)
    ensures exists i :: 0 <= i < |Plan(cfg, task)| && Plan(cfg, task)[i] == Classify(task, u)
  {
    hide Classify, AllChanges;
    AllChangesCover(cfg, task, cfg.types, t, u);
    var a := AllChanges(task, cfg.types);
    var i :| 0 <= i < |a| && a[i] == Classify(task, u);
    assert Plan(cfg, task)[i] == Classify(task, u);
  }

  /** A recorded operation on a current id is the one it was classified for. */
  lemma OnlyOperationOf(cfg: Config, task: Task, t: string, u: string, op: Op)
    requires WellFormed(cfg, task) && InPlace(cfg, task) && !task.rebuild && Current(cfg, task, t, u)
    requires op in Plan(cfg, task) && !op.SkipOp? && IdOf(op) == u
    ensures op == Classify(task, u)
  {
    hide Plan, Classify, IdOf;
    NoRefDrops(cfg, task);
    assert PlannedNormally(cfg, task, op);
    if ChangeFrom(cfg, task, cfg.types, op) {
      var t', v :| t' in cfg.types && Current(cfg, task, t', v) && op == Classify(task, v);
      ClassifiedId(cfg, task, t', v);
    } else {
      GoneIsNotCurrent(cfg, task, t, u, op.o);
      DropId(op);
    }
  }

  lemma DropId(op: Op)
    requires op.DropOp?
    ensures IdOf(op) == op.o.id
  {
  }

  lemma GoneIsNotCurrent(cfg: Config, task: Task, t: string, u: string, o: RenderedObject)
    requires WellFormed(cfg, task) && InPlace(cfg, task) && Current(cfg, task, t, u) && Gone(task, cfg.types, o)
    ensures o.id != u
  {
    assert o.id == u ==> StaysPut(cfg, task, t, u);
  }

  /** Nothing but current objects is left in the new cache. */
  lemma NothingElse(cfg: Config, task: Task, server: Server, id: string)
    requires Premises(cfg, task, server) && id in Run(cfg, task, server).cache
    ensures CurrentId(cfg, task, id)
  {
    hide Plan, Execute, Classify;
    var ops, st := Plan(cfg, task), Run(cfg, task, server);
    PlanAchieved(cfg, task, server);
    NoRefDrops(cfg, task);
    assert RecordedBy(ops, id);
    var j :| 0 <= j < |ops| && !ops[j].SkipOp? && !ops[j].DropRefOp? && IdOf(ops[j]) == id;
    assert PlannedNormally(cfg, task, ops[j]) && Achieved(cfg, server, ops[j], st);
    if !ops[j].DropOp? {
      var t, v :| t in cfg.types && Current(cfg, task, t, v) && ops[j] == Classify(task, v);
      ClassifiedId(cfg, task, t, v);
    }
  }

  // ---------- two runs and a third ----------

  function Again(task: Task, cache: Cache): Task {
    task.(cached := cache)
  }

  /** A run leaves everything in place for the next one, on whatever fault-free network that meets. */
  lemma PremisesKept(cfg: Config, task: Task, server: Server, net: Network)
    requires Premises(cfg, task, server) && FaultFree(net)
    ensures Premises(cfg.(network := net), Again(task, Run(cfg, task, server).cache),
        Run(cfg, task, server).link.server)
  {
    hide Run, IsDummy, Held, WellFormed, InPlace, Truthful, FaultFree;
    var st, cfg' := Run(cfg, task, server), cfg.(network := net);
    FaultFreeIsHonest(cfg.network);
    RunKeepsTruth(cfg, task, server, 0);
    SameEndpoints(cfg, cfg', st.link.server, st.cache);
    assert AllHandled(cfg', st.cache) by {
      forall id | id in st.cache ensures st.cache[id].typ in cfg.types { HandledType(cfg, task, server, id); }
    }
    StillWellFormed(cfg, task, server);
    OnlyNetwork(cfg, cfg', Again(task, st.cache));
  }

  lemma HandledType(cfg: Config, task: Task, server: Server, id: string)
    requires Premises(cfg, task, server) && id in Run(cfg, task, server).cache
    ensures Run(cfg, task, server).cache[id].typ in cfg.types
  {
    hide Run, Premises;
    KeptType(cfg, task, server, id);
    var t :| Current(cfg, task, t, id);
  }

  lemma StillWellFormed(cfg: Config, task: Task, server: Server)
    requires Premises(cfg, task, server)
    ensures WellFormed(cfg, Again(task, Run(cfg, task, server).cache))
    ensures InPlace(cfg, Again(task, Run(cfg, task, server).cache))
  {
    hide Run, IsDummy, Held, InPlace, Current, CurrentId, AllHandled, NoDummies, FaultFree;
    var st := Run(cfg, task, server);
    var next := Again(task, st.cache);
    FaultFreeIsHonest(cfg.network);
    RunKeepsTruth(cfg, task, server, 0);
    assert forall id | id in st.cache :: TruthAt(cfg, st.link.server, st.cache, id);
    SameCurrent(cfg, task, next);
    StillInPlace(cfg, task, server);
  }

  lemma StillInPlace(cfg: Config, task: Task, server: Server)
    requires Premises(cfg, task, server)
    ensures InPlace(cfg, Again(task, Run(cfg, task, server).cache))
  {
    hide Run, Premises;
    var st := Run(cfg, task, server);
    var next := Again(task, st.cache);
    forall t, u | Current(cfg, next, t, u) && u in st.cache ensures StaysPut(cfg, next, t, u) {
      assert Current(cfg, task, t, u);
      KeptType(cfg, task, server, u);
    }
  }

  lemma SameCurrent(cfg: Config, a: Task, b: Task)
    requires a.current == b.current
    ensures forall t, u :: Current(cfg, a, t, u) <==> Current(cfg, b, t, u)
    ensures forall u :: CurrentId(cfg, a, u) <==> CurrentId(cfg, b, u)
  {
    assert forall t, u :: Current(cfg, a, t, u) <==> Current(cfg, b, t, u);
    forall u ensures CurrentId(cfg, a, u) <==> CurrentId(cfg, b, u) {
      if CurrentId(cfg, a, u) {
        var t :| Current(cfg, a, t, u);
        assert Current(cfg, b, t, u);
      }
      if CurrentId(cfg, b, u) {
        var t :| Current(cfg, b, t, u);
        assert Current(cfg, a, t, u);
      }
    }
  }

  lemma KeptType(cfg: Config, task: Task, server: Server, id: string)
    requires Premises(cfg, task, server) && id in Run(cfg, task, server).cache
    ensures CurrentId(cfg, task, id)
    ensures forall t | Current(cfg, task, t, id) :: Run(cfg, task, server).cache[id].typ == t && t in cfg.types
  {
    hide Run, IsDummy, Premises;
    NothingElse(cfg, task, server, id);
    forall t | Current(cfg, task, t, id) ensures Run(cfg, task, server).cache[id].typ == t {
      OneRun(cfg, task, server, t, id);
      UidFacts(cfg, task, server, t, id);
    }
  }

  /** The cache holds what the data calls for: every rendered object, the cached one for an object that fails
      to render, and nothing else. */
  ghost predicate Settled(cfg: Config, task: Task, cache: Cache) {
    && (forall u | u in task.pre :: u in cache && cache[u] == task.pre[u])
    && (forall u | u in cache && u !in task.pre :: u in task.cached && cache[u] == task.cached[u])
    && (forall u | u in task.cached && CurrentId(cfg, task, u) :: u in cache)
    && (forall u | u in cache :: CurrentId(cfg, task, u))
  }

  /** The server has the rendered JSON of every rendered object, and nothing that was cached but is no longer
      current. */
  ghost predicate ServerMatches(cfg: Config, task: Task, s: Server) {
    && (forall u | u in task.pre :: KeyOf(cfg, task.pre[u]) in s && s[KeyOf(cfg, task.pre[u])] == task.pre[u].json)
    && (forall u | u in task.cached && !CurrentId(cfg, task, u) :: KeyOf(cfg, task.cached[u]) !in s)
  }

  lemma GoneFromServer(cfg: Config, task: Task, server: Server, u: string)
    requires Premises(cfg, task, server) && u in task.cached && !CurrentId(cfg, task, u)
    ensures KeyOf(cfg, task.cached[u]) !in Run(cfg, task, server).link.server
  {
    hide Plan, Execute, Held, IsDummy, FaultFree;
    var ops, o := Plan(cfg, task), task.cached[u];
    PlanAchieved(cfg, task, server);
    assert u in ListedUnder(task.current, o.typ) ==> Current(cfg, task, o.typ, u);
    DropPlannedFor(cfg, task, o);
    var i :| 0 <= i < |ops| && ops[i] == DropOp(o);
    assert Achieved(cfg, server, ops[i], Run(cfg, task, server));
  }

  /** What concerns other ids leaves a key alone. */
  lemma {:induction false} KeyLeftAlone(cfg: Config, ops: seq<Op>, st: State, k: ResourceKey)
    requires forall i | 0 <= i < |ops| :: ops[i].SkipOp? || IdOf(ops[i]) != k.id
    ensures k in Execute(cfg, ops, st).link.server <==> k in st.link.server
    decreases |ops|
  {
    hide ExecuteOne, IdOf;
    if ops != [] {
      var front := ops[..|ops| - 1];
      KeyLeftAlone(cfg, front, st, k);
      StepLocal(cfg, ops[|ops| - 1], Execute(cfg, front, st));
    }
  }

  /** Nothing is sent for an id that is neither current nor cached. */
  lemma StaysGone(cfg: Config, task: Task, server: Server, k: ResourceKey)
    requires WellFormed(cfg, task) && !task.rebuild && !CurrentId(cfg, task, k.id) && k.id !in task.cached
    ensures k in Run(cfg, task, server).link.server <==> k in server
  {
    hide Plan, Execute, Classify;
    var ops := Plan(cfg, task);
    NoRefDrops(cfg, task);
    forall i | 0 <= i < |ops| ensures ops[i].SkipOp? || IdOf(ops[i]) != k.id {
      assert PlannedNormally(cfg, task, ops[i]);
      if ChangeFrom(cfg, task, cfg.types, ops[i]) {
        var t, u :| t in cfg.types && Current(cfg, task, t, u) && ops[i] == Classify(task, u);
        ClassifiedId(cfg, task, t, u);
      }
    }
    KeyLeftAlone(cfg, ops, Start(server), k);
  }

  /** One run settles everything except the objects that the server had without the cache knowing. */
  lemma SettledAfterOne(cfg: Config, task: Task, server: Server)
    requires Premises(cfg, task, server)
    requires forall u | u in task.pre && u !in task.cached :: KeyOf(cfg, task.pre[u]) !in server
    ensures Settled(cfg, task, Run(cfg, task, server).cache)
    ensures ServerMatches(cfg, task, Run(cfg, task, server).link.server)
  {
    hide Run, IsDummy, Premises;
    var st := Run(cfg, task, server);
    forall u | u in task.pre
      ensures u in st.cache && st.cache[u] == task.pre[u]
      ensures KeyOf(cfg, task.pre[u]) in st.link.server && st.link.server[KeyOf(cfg, task.pre[u])] == task.pre[u].json
    {
      RenderedIsCurrent(cfg, task, server, u);
      var t :| Current(cfg, task, t, u);
      OneRun(cfg, task, server, t, u);
    }
    forall u | u in task.cached && !CurrentId(cfg, task, u) ensures KeyOf(cfg, task.cached[u]) !in st.link.server {
      GoneFromServer(cfg, task, server, u);
    }
    forall u | u in st.cache
      ensures CurrentId(cfg, task, u) && (u !in task.pre ==> u in task.cached && st.cache[u] == task.cached[u])
    {
      NothingElse(cfg, task, server, u);
      var t :| Current(cfg, task, t, u);
      OneRun(cfg, task, server, t, u);
    }
    forall u | u in task.cached && CurrentId(cfg, task, u) ensures u in st.cache {
      var t :| Current(cfg, task, t, u);
      OneRun(cfg, task, server, t, u);
    }
  }

  lemma RenderedIsCurrent(cfg: Config, task: Task, server: Server, u: string)
    requires Premises(cfg, task, server) && u in task.pre
    ensures CurrentId(cfg, task, u)
  {
  }

  /** Two fault-free runs on the same data, from any truthful state: the cache is what the data calls for, and
      the server holds exactly the rendered JSON of every rendered object. */
  lemma TwoRunsSettle(cfg: Config, task: Task, server: Server, net: Network)
    requires Premises(cfg, task, server) && FaultFree(net)
    ensures var one := Run(cfg, task, server);
            var two := Run(cfg.(network := net), Again(task, one.cache), one.link.server);
            Settled(cfg, task, two.cache) && ServerMatches(cfg, task, two.link.server)
            && Premises(cfg.(network := net), Again(task, one.cache), one.link.server)
  {
    hide Run, IsDummy, Premises, ServerMatches, Settled;
    var one, cfg' := Run(cfg, task, server), cfg.(network := net);
    var next := Again(task, one.cache);
    PremisesKept(cfg, task, server, net);
    forall u | u in next.pre ensures u in next.cached {
      RenderedIsCurrent(cfg, task, server, u);
      var t :| Current(cfg, task, t, u);
      OneRun(cfg, task, server, t, u);
    }
    SettledAfterOne(cfg', next, one.link.server);
    var two := Run(cfg', next, one.link.server);
    SettledStill(cfg, task, server, two.cache, cfg');
    MatchesStill(cfg, task, server, net);
  }

  lemma MatchesStill(cfg: Config, task: Task, server: Server, net: Network)
    requires Premises(cfg, task, server)
    requires var one, cfg' := Run(cfg, task, server), cfg.(network := net);
      var next := Again(task, one.cache);
      Premises(cfg', next, one.link.server) && ServerMatches(cfg', next, Run(cfg', next, one.link.server).link.server)
    ensures ServerMatches(cfg, task, Run(cfg.(network := net), Again(task, Run(cfg, task, server).cache),
                                         Run(cfg, task, server).link.server).link.server)
  {
    hide Run, FaultFree, InPlace, Truthful, AllHandled, NoDummies;
    var one, cfg' := Run(cfg, task, server), cfg.(network := net);
    var next := Again(task, one.cache);
    var s := Run(cfg', next, one.link.server).link.server;
    forall u | u in task.pre ensures KeyOf(cfg, task.pre[u]) in s && s[KeyOf(cfg, task.pre[u])] == task.pre[u].json {
      assert KeyOf(cfg', next.pre[u]) == KeyOf(cfg, task.pre[u]);
    }
    forall u | u in task.cached && !CurrentId(cfg, task, u) ensures KeyOf(cfg, task.cached[u]) !in s {
      var k := KeyOf(cfg, task.cached[u]);
      GoneFromServer(cfg, task, server, u);
      if u in one.cache { NothingElse(cfg, task, server, u); }
      assert forall t :: Current(cfg', next, t, u) <==> Current(cfg, task, t, u);
      StaysGone(cfg', next, one.link.server, k);
    }
  }

  lemma SettledStill(cfg: Config, task: Task, server: Server, cache: Cache, cfg': Config)
    requires Premises(cfg, task, server) && cfg' == cfg.(network := cfg'.network)
    requires Settled(cfg', Again(task, Run(cfg, task, server).cache), cache)
    ensures Settled(cfg, task, cache)
  {
    hide Run, IsDummy, Premises;
    var one := Run(cfg, task, server);
    var next := Again(task, one.cache);
    forall u | u in cache && u !in task.pre
      ensures u in task.cached && cache[u] == task.cached[u]
    {
      assert u in next.cached;
      assert CurrentId(cfg', next, u);
      var t :| Current(cfg', next, t, u);
      assert Current(cfg, task, t, u);
      OneRun(cfg, task, server, t, u);
    }
    forall u | u in task.cached && CurrentId(cfg, task, u) ensures u in cache {
      var t :| Current(cfg, task, t, u);
      OneRun(cfg, task, server, t, u);
      assert Current(cfg', next, t, u);
      assert CurrentId(cfg', next, u);
    }
    forall u | u in cache ensures CurrentId(cfg, task, u) {
      assert CurrentId(cfg', next, u);
      var t :| Current(cfg', next, t, u);
      assert Current(cfg, task, t, u);
    }
  }

  // ---------- nothing more to send ----------

  lemma {:induction false} QuietOperations(cfg: Config, ops: seq<Op>, st: State)
    requires forall i | 0 <= i < |ops| :: RequestOf(cfg, ops[i]) == None
    ensures Execute(cfg, ops, st).link == st.link
    decreases |ops|
  {
    if ops != [] { QuietOperations(cfg, ops[..|ops| - 1], st); }
  }

  /** On a settled cache a run sends no request at all, on any network. */
  lemma SettledIsQuiet(cfg: Config, task: Task, server: Server)
    requires !task.rebuild && WellFormed(cfg, task) && InPlace(cfg, task) && AllHandled(cfg, task.cached)
    requires Settled(cfg, task, task.cached)
    ensures Run(cfg, task, server).link == Connected(server)
  {
    hide Plan, AllHandled;
    var ops := Plan(cfg, task);
    NoRefDrops(cfg, task);
    forall i | 0 <= i < |ops| ensures RequestOf(cfg, ops[i]) == None {
      assert PlannedNormally(cfg, task, ops[i]);
      if ops[i].DropOp? {
        SettledDropsNothing(cfg, task, ops[i].o);
      }
    }
    QuietOperations(cfg, ops, Start(server));
  }

  lemma CurrentIsNotGone(cfg: Config, task: Task, o: RenderedObject)
    requires WellFormed(cfg, task) && InPlace(cfg, task)
    ensures CurrentId(cfg, task, o.id) ==> !Gone(task, cfg.types, o)
  {
    forall t | Current(cfg, task, t, o.id) && Gone(task, cfg.types, o) ensures false {
      GoneIsNotCurrent(cfg, task, t, o.id, o);
    }
  }

  lemma SettledDropsNothing(cfg: Config, task: Task, o: RenderedObject)
    requires WellFormed(cfg, task) && InPlace(cfg, task) && Settled(cfg, task, task.cached)
    ensures !Gone(task, cfg.types, o)
  {
    hide CurrentId;
    assert Gone(task, cfg.types, o) ==> CurrentId(cfg, task, o.id);
    CurrentIsNotGone(cfg, task, o);
  }

  /** After two fault-free runs a third sends nothing, changes nothing on the server, and writes the same
      kind of cache again. */
  lemma ThirdRunIsQuiet(cfg: Config, task: Task, server: Server, net2: Network, net3: Network)
    requires Premises(cfg, task, server) && FaultFree(net2) && FaultFree(net3)
    ensures var one := Run(cfg, task, server);
            var two := Run(cfg.(network := net2), Again(task, one.cache), one.link.server);
            var three := Run(cfg.(network := net3), Again(task, two.cache), two.link.server);
            three.link.sent == [] && three.link.server == two.link.server && three.cache == two.cache
  {
    hide Run, IsDummy, Premises, Settled;
    var one := Run(cfg, task, server);
    TwoRunsSettle(cfg, task, server, net2);
    var cfg2, task2 := cfg.(network := net2), Again(task, one.cache);
    var two := Run(cfg2, task2, one.link.server);
    PremisesKept(cfg2, task2, one.link.server, net3);
    var cfg3, task3 := cfg2.(network := net3), Again(task2, two.cache);
    SettledOnItself(cfg, cfg3, task, task3, two.cache);
    QuietKeepsCache(cfg3, task3, two.link.server);
    assert cfg3 == cfg.(network := net3) && task3 == Again(task, two.cache);
  }

  lemma SettledOnItself(cfg: Config, cfg': Config, task: Task, task': Task, cache: Cache)
    requires Settled(cfg, task, cache) && task' == Again(task, cache) && cfg' == cfg.(network := cfg'.network)
    ensures Settled(cfg', task', cache)
  {
    forall u | CurrentId(cfg, task, u) ensures CurrentId(cfg', task', u) {
      var t :| Current(cfg, task, t, u);
      assert Current(cfg', task', t, u);
    }
  }

  lemma QuietKeepsCache(cfg: Config, task: Task, server: Server)
    requires Premises(cfg, task, server) && Settled(cfg, task, task.cached)
    ensures Run(cfg, task, server).link == Connected(server)
    ensures Run(cfg, task, server).cache == task.cached
  {
    hide Run, Held, IsDummy;
    SettledIsQuiet(cfg, task, server);
    var st := Run(cfg, task, server);
    forall u | u in task.cached ensures u in st.cache && st.cache[u] == task.cached[u] {
      assert CurrentId(cfg, task, u);
      var t :| Current(cfg, task, t, u);
      OneRun(cfg, task, server, t, u);
    }
    forall u | u in st.cache ensures u in task.cached {
      NothingElse(cfg, task, server, u);
      var t :| Current(cfg, task, t, u);
      OneRun(cfg, task, server, t, u);
    }
    assert st.cache.Keys == task.cached.Keys;
  }
}
