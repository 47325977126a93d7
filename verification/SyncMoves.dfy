/** Exactly when a run may leave the cache untruthful: when an id has moved. */
module SyncMoves {
  import opened RenderedObjects
  import opened ScimSender
  import opened Sync
  import opened SyncPlan
  import opened SyncTruth

  /** The server that agrees with a cache in every detail. */
  ghost function Mirror(cfg: Config, m: Cache): Server
    requires IdKeyed(m)
  {
    map k: ResourceKey | k in (set id | id in m :: KeyOf(cfg, m[id])) :: m[k.id].json
  }

  lemma MirrorKeys(cfg: Config, m: Cache, k: ResourceKey)
    requires IdKeyed(m)
    ensures k in Mirror(cfg, m) <==> k.id in m && k == KeyOf(cfg, m[k.id])
  {
    if k in Mirror(cfg, m) {
      var id :| id in m && k == KeyOf(cfg, m[id]);
    }
    if k.id in m && k == KeyOf(cfg, m[k.id]) {
      assert k in set id | id in m :: KeyOf(cfg, m[id]);
    }
  }

  lemma MirrorTruthful(cfg: Config, m: Cache)
    requires IdKeyed(m) && "" !in m
    ensures Truthful(cfg, Mirror(cfg, m), m)
  {
    forall id | id in m ensures TruthAt(cfg, Mirror(cfg, m), m, id) {
      MirrorKeys(cfg, m, KeyOf(cfg, m[id]));
    }
  }

  /** A network on which everything works except updates. */
  const UPDATES_FAIL: Network :=
    (n: nat, r: Request) => if r.Update? then Faulty(TransportError, false) else Healthy(false)

  /** The operations that a cached id which is still current can meet. */
  ghost predicate Expected(task: Task, u: string, op: Op)
    requires u in task.cached
  {
    op.SkipOp? || IdOf(op) != u
    || op == CopyOp(task.cached[u]) || op == DropOp(task.cached[u])
    || (u in task.pre && op == PutOp(task.pre[u]))
  }

  ghost predicate Handled(u: string, op: Op) {
    !op.SkipOp? && !op.DropOp? && IdOf(op) == u
  }

  ghost predicate Dropped(u: string, op: Op) {
    op.DropOp? && IdOf(op) == u
  }

  ghost predicate AnyDropped(u: string, ops: seq<Op>) {
    exists i :: 0 <= i < |ops| && Dropped(u, ops[i])
  }

  ghost predicate AnyHandled(u: string, ops: seq<Op>) {
    exists i :: 0 <= i < |ops| && Handled(u, ops[i])
  }

  /** Some operation may have put the old entry into the new cache. */
  ghost predicate AnyKept(was: RenderedObject, u: string, ops: seq<Op>) {
    exists i :: 0 <= i < |ops| && Keeps(was, u, ops[i])
  }

  ghost predicate Keeps(was: RenderedObject, u: string, op: Op) {
    op == CopyOp(was) || Dropped(u, op)
  }

  lemma AnySnoc(was: RenderedObject, u: string, ops: seq<Op>, op: Op)
    ensures AnyDropped(u, ops + [op]) <==> AnyDropped(u, ops) || Dropped(u, op)
    ensures AnyHandled(u, ops + [op]) <==> AnyHandled(u, ops) || Handled(u, op)
    ensures AnyKept(was, u, ops + [op]) <==> AnyKept(was, u, ops) || Keeps(was, u, op)
  {
    hide Dropped, Handled, Keeps;
    var ops' := ops + [op];
    assert ops'[|ops|] == op && forall i | 0 <= i < |ops| :: ops'[i] == ops[i];
  }

  /** How the moved id stands after some operations: it is in the new cache once it has been handled, and
      nowhere on the server once it has been deleted. */
  ghost predicate Standing(cfg: Config, task: Task, u: string, ops: seq<Op>, st: State)
    requires u in task.cached
  {
    var was := task.cached[u];
    && !st.link.aborted
    && (forall k: ResourceKey | k in st.link.server && k.id == u :: k == KeyOf(cfg, was))
    && (AnyDropped(u, ops) ==> KeyOf(cfg, was) !in st.link.server)
    && (AnyHandled(u, ops) ==> u in st.cache)
    && (u in st.cache ==> st.cache[u] == was || (u in task.pre && st.cache[u] == Dummy(task.pre[u], FAILED_UPDATE)))
    && (!AnyKept(was, u, ops) && u in st.cache ==>
          u in task.pre && st.cache[u] == Dummy(task.pre[u], FAILED_UPDATE))
  }

  lemma StandingStep(cfg: Config, task: Task, u: string, ops: seq<Op>, op: Op, st: State)
    requires cfg.network == UPDATES_FAIL && IdKeyed(task.cached) && u in task.cached && u != ""
    requires Standing(cfg, task, u, ops, st) && Expected(task, u, op)
    requires u in task.pre ==> task.pre[u].id == u
    ensures Standing(cfg, task, u, ops + [op], ExecuteOne(cfg, op, st))
  {
    hide IsDummy, AnyDropped, AnyHandled, AnyKept, ExecuteOne, Expected;
    StandingServer(cfg, task, u, ops, op, st);
    StandingCache(cfg, task, u, op, st);
    AnySnoc(task.cached[u], u, ops, op);
  }

  /** What an operation does to the entry of the id in the new cache. */
  lemma StandingCache(cfg: Config, task: Task, u: string, op: Op, st: State)
    requires cfg.network == UPDATES_FAIL && IdKeyed(task.cached) && u in task.cached && u != "" && !st.link.aborted
    requires Expected(task, u, op) && (u in task.pre ==> task.pre[u].id == u)
    ensures var was, now := task.cached[u], ExecuteOne(cfg, op, st).cache;
      && (u in st.cache ==> u in now)
      && (Handled(u, op) ==> u in now)
      && (u in now ==> (u in st.cache && now[u] == st.cache[u]) || (Keeps(was, u, op) && now[u] == was)
                       || (u in task.pre && now[u] == Dummy(task.pre[u], FAILED_UPDATE)))
  {
    hide IsDummy, DummyJson;
  }

  lemma StandingServer(cfg: Config, task: Task, u: string, ops: seq<Op>, op: Op, st: State)
    requires cfg.network == UPDATES_FAIL && IdKeyed(task.cached) && u in task.cached && u != ""
    requires Standing(cfg, task, u, ops, st) && Expected(task, u, op)
    requires u in task.pre ==> task.pre[u].id == u
    ensures var next := ExecuteOne(cfg, op, st);
            && !next.link.aborted
            && (forall k: ResourceKey | k in next.link.server && k.id == u ::
                k == KeyOf(cfg, task.cached[u]) && k in st.link.server)
            && (Dropped(u, op) ==> KeyOf(cfg, task.cached[u]) !in next.link.server)
  {
    hide IsDummy, AnyDropped, AnyHandled, AnyKept, DummyJson;
    StepLocal(cfg, op, st);
  }

  lemma {:induction false} StandingThroughout(cfg: Config, task: Task, u: string, ops: seq<Op>, st: State)
    requires cfg.network == UPDATES_FAIL && IdKeyed(task.cached) && u in task.cached && u != ""
    requires Standing(cfg, task, u, [], st) && forall i | 0 <= i < |ops| :: Expected(task, u, ops[i])
    requires u in task.pre ==> task.pre[u].id == u
    ensures Standing(cfg, task, u, ops, Execute(cfg, ops, st))
    decreases |ops|
  {
    hide Standing, Expected;
    if ops != [] {
      var front := ops[..|ops| - 1];
      StandingThroughout(cfg, task, u, front, st);
      assert Expected(task, u, ops[|ops| - 1]);
      StandingStep(cfg, task, u, front, ops[|ops| - 1], Execute(cfg, front, st));
      assert front + [ops[|ops| - 1]] == ops;
    }
  }

  lemma PlanExpected(cfg: Config, task: Task, t: string, u: string)
    requires WellFormed(cfg, task) && !task.rebuild && Current(cfg, task, t, u) && u in task.cached
    ensures forall i | 0 <= i < |Plan(cfg, task)| :: Expected(task, u, Plan(cfg, task)[i])
    ensures forall i | 0 <= i < |Plan(cfg, task)| ::
              Plan(cfg, task)[i].DropOp? ==> Gone(task, cfg.types, Plan(cfg, task)[i].o)
    ensures forall i | 0 <= i < |Plan(cfg, task)| ::
              Plan(cfg, task)[i] == CopyOp(task.cached[u]) ==> Plan(cfg, task)[i] == Classify(task, u)
    ensures exists i ::
        0 <= i < |Plan(cfg, task)| && Plan(cfg, task)[i] == Classify(task, u) && Handled(u, Plan(cfg, task)[i])
  {
    hide AllDrops, AllChanges, Reverse;
    var types := Reverse(cfg.types);
    var a, b := AllChanges(task, cfg.types), AllDrops(task, types);
    var ops := Plan(cfg, task);
    assert ops == a + b;
    AllChangesFrom(cfg, task, cfg.types);
    ReverseTypes(cfg.types);
    AllDropsFrom(task, types);
    forall i | 0 <= i < |ops|
      ensures Expected(task, u, ops[i]) && (ops[i].DropOp? ==> Gone(task, cfg.types, ops[i].o))
      ensures ops[i] == CopyOp(task.cached[u]) ==> ops[i] == Classify(task, u)
    {
      if i < |a| {
        assert ops[i] == a[i] && ChangeFrom(cfg, task, cfg.types, a[i]);
        var t', v :| t' in cfg.types && Current(cfg, task, t', v) && a[i] == Classify(task, v);
        ClassifiedId(cfg, task, t', v);
      } else {
        assert ops[i] == b[i - |a|] && b[i - |a|].DropOp? && Gone(task, types, b[i - |a|].o);
      }
    }
    AllChangesCover(cfg, task, cfg.types, t, u);
    var i :| 0 <= i < |a| && a[i] == Classify(task, u);
    ClassifiedId(cfg, task, t, u);
    assert ops[i] == Classify(task, u) && Handled(u, ops[i]);
  }

  lemma DropPlanned(cfg: Config, task: Task, t: string, u: string)
    requires WellFormed(cfg, task) && !task.rebuild && Current(cfg, task, t, u) && u in task.cached
    requires task.cached[u].typ in cfg.types && task.cached[u].typ != t
    ensures exists i :: 0 <= i < |Plan(cfg, task)| && Dropped(u, Plan(cfg, task)[i])
  {
    hide AllDrops, AllChanges, Reverse;
    var types := Reverse(cfg.types);
    var a, b := AllChanges(task, cfg.types), AllDrops(task, types);
    ReverseTypes(cfg.types);
    var was := task.cached[u];
    assert u in ListedUnder(task.current, was.typ) ==> Current(cfg, task, was.typ, u);
    assert Gone(task, types, was);
    AllDropsCover(task, types, was);
    var i :| 0 <= i < |b| && b[i] == DropOp(was);
    assert Plan(cfg, task)[|a| + i] == DropOp(was) && Dropped(u, Plan(cfg, task)[|a| + i]);
  }

  /** An id that moved is lost, if no more goes wrong than that updates fail. */
  lemma MovedIdLost(cfg: Config, task: Task, t: string, u: string)
    requires WellFormed(cfg, task) && !task.rebuild && cfg.network == UPDATES_FAIL
    requires Current(cfg, task, t, u) && u in task.cached && !StaysPut(cfg, task, t, u)
    ensures var st := Run(cfg, task, Mirror(cfg, task.cached));
            u in st.cache && !Held(cfg, st.link.server, st.cache[u])
  {
    hide Plan, Execute, IsDummy, Expected;
    var was, server := task.cached[u], Mirror(cfg, task.cached);
    var ops, st := Plan(cfg, task), Run(cfg, task, server);
    forall k: ResourceKey | k in server && k.id == u ensures k == KeyOf(cfg, was) {
      MirrorKeys(cfg, task.cached, k);
    }
    PlanExpected(cfg, task, t, u);
    StandingThroughout(cfg, task, u, ops, Start(server));
    if was.typ in cfg.types {
      DropPlanned(cfg, task, t, u);
    } else {
      assert Classify(task, u) == PutOp(task.pre[u]);
      assert forall i | 0 <= i < |ops| :: !Keeps(was, u, ops[i]);
    }
  }

  ghost predicate AlwaysTruthful(cfg: Config, task: Task) {
    forall net: Network, server: Server | Honest(net) && Truthful(cfg, server, task.cached) ::
      var st := Run(cfg.(network := net), task, server);
      Truthful(cfg, st.link.server, st.cache)
  }

  lemma TruthfulWhenInPlace(cfg: Config, task: Task, net: Network, server: Server)
    requires WellFormed(cfg, task) && !task.rebuild && InPlace(cfg, task)
    requires Honest(net) && Truthful(cfg, server, task.cached)
    ensures var st := Run(cfg.(network := net), task, server); Truthful(cfg, st.link.server, st.cache)
  {
    hide Run, WellFormed, InPlace, Truthful, Honest;
    var cfg' := cfg.(network := net);
    OnlyNetwork(cfg, cfg', task);
    SameEndpoints(cfg, cfg', server, task.cached);
    RunKeepsTruth(cfg', task, server, 0);
    var st := Run(cfg', task, server);
    SameEndpoints(cfg', cfg, st.link.server, st.cache);
  }

  lemma UntruthfulWhenMoved(cfg: Config, task: Task)
    requires WellFormed(cfg, task) && !task.rebuild && !InPlace(cfg, task)
    ensures !AlwaysTruthful(cfg, task)
  {
    hide Run, Mirror, Held, Current;
    var t, u :| Current(cfg, task, t, u) && u in task.cached && !StaysPut(cfg, task, t, u);
    var cfg', server := cfg.(network := UPDATES_FAIL), Mirror(cfg, task.cached);
    OnlyNetwork(cfg, cfg', task);
    MirrorTruthful(cfg, task.cached);
    SameMirror(cfg, cfg', task.cached);
    MovedIdLost(cfg', task, t, u);
    UpdatesFailIsHonest();
    var st := Run(cfg', task, server);
    LostIsUntruthful(cfg, cfg', st, u);
  }

  lemma SameMirror(a: Config, b: Config, m: Cache)
    requires a.endpoint == b.endpoint && IdKeyed(m)
    ensures Mirror(a, m) == Mirror(b, m)
  {
  }

  lemma LostIsUntruthful(a: Config, b: Config, st: State, u: string)
    requires a.endpoint == b.endpoint && u in st.cache && !Held(b, st.link.server, st.cache[u])
    ensures !Truthful(a, st.link.server, st.cache)
  {
    hide IsDummy;
    assert !TruthAt(a, st.link.server, st.cache, u);
  }

  lemma UpdatesFailIsHonest()
    ensures Honest(UPDATES_FAIL)
  {
  }

  /** A run keeps the cache truthful on every honest network exactly when no id has moved. */
  lemma TruthfulIffInPlace(cfg: Config, task: Task)
    requires WellFormed(cfg, task) && !task.rebuild
    ensures AlwaysTruthful(cfg, task) <==> InPlace(cfg, task)
  {
    hide Run, WellFormed, InPlace, Truthful, Honest;
    if InPlace(cfg, task) {
      forall net: Network, server: Server | Honest(net) && Truthful(cfg, server, task.cached)
        ensures var st := Run(cfg.(network := net), task, server); Truthful(cfg, st.link.server, st.cache)
      {
        TruthfulWhenInPlace(cfg, task, net, server);
      }
    } else {
      UntruthfulWhenMoved(cfg, task);
    }
  }
}
