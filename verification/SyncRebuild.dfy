/** Rebuilding the cache from what the server lists. */
module SyncRebuild {
  import opened RenderedObjects
  import opened ScimSender
  import opened Sync
  import opened SyncPlan
  import opened SyncTruth
  import opened SyncConvergence
  import opened SyncMoves

  ghost predicate HandledEndpoint(cfg: Config, e: string) {
    exists t :: t in cfg.types && cfg.endpoint(t) == e
  }

  function RefKey(ref: ObjectRef): ResourceKey {
    ResourceKey(ref.endpoint, ref.uuid)
  }

  /** The listing is what querying every handled endpoint of this server gives, in any order. */
  ghost predicate Listing(cfg: Config, s: Server, listing: seq<ObjectRef>) {
    && (forall i | 0 <= i < |listing| :: RefKey(listing[i]) in s && HandledEndpoint(cfg, listing[i].endpoint))
    && (forall k: ResourceKey | k in s && HandledEndpoint(cfg, k.endpoint) :: ListedKey(listing, k))
  }

  ghost predicate ListedKey(listing: seq<ObjectRef>, k: ResourceKey) {
    exists i :: 0 <= i < |listing| && RefKey(listing[i]) == k
  }

  ghost predicate RebuildPremises(cfg: Config, task: Task, server: Server) {
    && task.rebuild && FaultFree(cfg.network) && WellFormed(cfg, task)
    && Listing(cfg, server, task.listing)
  }

  /** A current object that the server lists at all is found under the endpoint of its type. */
  ghost predicate AtHome(cfg: Config, task: Task, server: Server, u: string)
    requires u in task.pre
  {
    IsListed(task.listing, u) ==> KeyOf(cfg, task.pre[u]) in server
  }

  /** Under the handled endpoints the server has the id of a loaded object only where its rendering belongs; so
      it has none of an object that fails to render, or whose type is not sent. */
  ghost predicate OnlyWhereRendered(cfg: Config, task: Task, server: Server) {
    forall k: ResourceKey | k in server && HandledEndpoint(cfg, k.endpoint) && HasObject(task.current, k.id) ::
      k.id in task.pre && k == KeyOf(cfg, task.pre[k.id])
  }

  // ---------- the plan ----------

  ghost predicate Surplus(task: Task, op: Op) {
    op.DropRefOp? && op.ref in task.listing && !HasObject(task.current, op.ref.uuid)
  }

  lemma {:induction false} RefDropsFrom(task: Task, listing: seq<ObjectRef>, e: string)
    requires forall ref | ref in listing :: ref in task.listing
    ensures forall i | 0 <= i < |RefDrops(task, listing, e)| :: Surplus(task, RefDrops(task, listing, e)[i])
    decreases |listing|
  {
    hide HasObject;
    if listing != [] {
      var rest, all := RefDrops(task, listing[1..], e), RefDrops(task, listing, e);
      RefDropsFrom(task, listing[1..], e);
      assert forall i | |all| - |rest| <= i < |all| :: all[i] == rest[i - (|all| - |rest|)];
    }
  }

  lemma {:induction false} RefDropsCover(task: Task, listing: seq<ObjectRef>, e: string, k: nat)
    requires k < |listing| && listing[k].endpoint == e && !HasObject(task.current, listing[k].uuid)
    ensures exists i :: 0 <= i < |RefDrops(task, listing, e)| && RefDrops(task, listing, e)[i] == DropRefOp(listing[k])
    decreases |listing|
  {
    hide HasObject;
    var rest, all := RefDrops(task, listing[1..], e), RefDrops(task, listing, e);
    if k > 0 {
      RefDropsCover(task, listing[1..], e, k - 1);
      var i :| 0 <= i < |rest| && rest[i] == DropRefOp(listing[k]);
      assert all[|all| - |rest| + i] == DropRefOp(listing[k]);
    } else {
      assert all[0] == DropRefOp(listing[0]);
    }
  }

  lemma {:induction false} AllRefDropsFrom(task: Task, endpoints: seq<string>)
    ensures forall i | 0 <= i < |AllRefDrops(task, endpoints)| :: Surplus(task, AllRefDrops(task, endpoints)[i])
    decreases |endpoints|
  {
    hide RefDrops, Surplus;
    if endpoints != [] {
      var a, b := RefDrops(task, task.listing, endpoints[0]), AllRefDrops(task, endpoints[1..]);
      RefDropsFrom(task, task.listing, endpoints[0]);
      AllRefDropsFrom(task, endpoints[1..]);
      var ops := a + b;
      forall i | 0 <= i < |ops| ensures Surplus(task, ops[i]) {
        if i >= |a| { assert ops[i] == b[i - |a|]; }
      }
    }
  }

  lemma {:induction false} AllRefDropsCover(task: Task, endpoints: seq<string>, k: nat)
    requires k < |task.listing| && task.listing[k].endpoint in endpoints
        && !HasObject(task.current, task.listing[k].uuid)
    ensures exists i ::
        0 <= i < |AllRefDrops(task, endpoints)| && AllRefDrops(task, endpoints)[i] == DropRefOp(task.listing[k])
    decreases |endpoints|
  {
    hide RefDrops, HasObject;
    var a, b := RefDrops(task, task.listing, endpoints[0]), AllRefDrops(task, endpoints[1..]);
    var ops := AllRefDrops(task, endpoints);
    assert ops == a + b;
    if task.listing[k].endpoint == endpoints[0] {
      RefDropsCover(task, task.listing, endpoints[0], k);
      var i :| 0 <= i < |a| && a[i] == DropRefOp(task.listing[k]);
      assert ops[i] == a[i];
    } else {
      AllRefDropsCover(task, endpoints[1..], k);
      var i :| 0 <= i < |b| && b[i] == DropRefOp(task.listing[k]);
      assert ops[|a| + i] == b[i];
    }
  }

  lemma {:induction false} EndpointsComplete(cfg: Config, types: seq<string>, seen: set<string>, t: string)
    requires t in types
    ensures cfg.endpoint(t) in seen || cfg.endpoint(t) in Endpoints(cfg, types, seen)
    decreases |types|
  {
    var e := cfg.endpoint(types[0]);
    if t != types[0] {
      assert t in types[1..];
      EndpointsComplete(cfg, types[1..], if e in seen then seen else seen + {e}, t);
    }
  }

  /** An operation of a rebuild: for a current object, or the removal of a surplus one. */
  ghost predicate PlannedForRebuild(cfg: Config, task: Task, op: Op) {
    ChangeFrom(cfg, task, cfg.types, op) || Surplus(task, op)
  }

  lemma CurrentIsObject(cfg: Config, task: Task, t: string, u: string)
    requires Current(cfg, task, t, u)
    ensures HasObject(task.current, u)
  {
  }

  lemma RebuildPlan(cfg: Config, task: Task)
    requires task.rebuild && WellFormed(cfg, task)
    ensures Separate(Plan(cfg, task))
    ensures forall i | 0 <= i < |Plan(cfg, task)| :: PlannedForRebuild(cfg, task, Plan(cfg, task)[i])
  {
    hide AllChanges, AllRefDrops, Classify, HasObject, Endpoints;
    var a, b := AllChanges(task, cfg.types), AllRefDrops(task, Endpoints(cfg, Reverse(cfg.types), {}));
    AllChangesFrom(cfg, task, cfg.types);
    AllChangesSeparate(cfg, task, cfg.types);
    AllRefDropsFrom(task, Endpoints(cfg, Reverse(cfg.types), {}));
    assert forall i | 0 <= i < |b| :: Surplus(task, b[i]);
    forall i, j | 0 <= i < |a| && 0 <= j < |b| ensures !Clash(a[i], b[j]) {
      assert Surplus(task, b[j]) && ChangeFrom(cfg, task, cfg.types, a[i]);
      var t, u :| t in cfg.types && Current(cfg, task, t, u) && a[i] == Classify(task, u);
      ClassifiedId(cfg, task, t, u);
      CurrentIsObject(cfg, task, t, u);
    }
    SeparateAppend(a, b);
  }

  lemma SurplusPlanned(cfg: Config, task: Task, k: nat)
    requires task.rebuild && k < |task.listing| && !HasObject(task.current, task.listing[k].uuid)
    requires HandledEndpoint(cfg, task.listing[k].endpoint)
    ensures exists i :: 0 <= i < |Plan(cfg, task)| && Plan(cfg, task)[i] == DropRefOp(task.listing[k])
  {
    hide AllChanges, AllRefDrops, HasObject, Endpoints;
    var es := Endpoints(cfg, Reverse(cfg.types), {});
    var a, b := AllChanges(task, cfg.types), AllRefDrops(task, es);
    var t :| t in cfg.types && cfg.endpoint(t) == task.listing[k].endpoint;
    ReverseTypes(cfg.types);
    EndpointsComplete(cfg, Reverse(cfg.types), {}, t);
    AllRefDropsCover(task, es, k);
    var i :| 0 <= i < |b| && b[i] == DropRefOp(task.listing[k]);
    assert Plan(cfg, task)[|a| + i] == b[i];
  }

  // ---------- the state after each operation ----------

  /** Where an operation has led, given the server it started from. */
  ghost predicate Landed(cfg: Config, before: Server, op: Op, st: State) {
    match op
    case PostOp(o) =>
      KeyOf(cfg, o) !in before ==>
        o.id in st.cache && st.cache[o.id] == o && KeyOf(cfg, o) in st.link.server
            && st.link.server[KeyOf(cfg, o)] == o.json
    case PutOp(o) =>
      if KeyOf(cfg, o) in before then
        o.id in st.cache && st.cache[o.id] == o && KeyOf(cfg, o) in st.link.server
            && st.link.server[KeyOf(cfg, o)] == o.json
      else o.id !in st.cache && KeyOf(cfg, o) !in st.link.server
    case DropRefOp(ref) => RefKey(ref) !in st.link.server
    case _ => true
  }

  ghost predicate Touches(cfg: Config, op: Op, k: ResourceKey) {
    RequestOf(cfg, op).Some? && RequestOf(cfg, op).value.Key() == k
  }

  ghost predicate Touched(cfg: Config, ops: seq<Op>, n: nat, k: ResourceKey) {
    exists i :: 0 <= i < n && i < |ops| && Touches(cfg, ops[i], k)
  }

  ghost predicate SameAt(a: Server, b: Server, k: ResourceKey) {
    (k in a <==> k in b) && (k in a ==> a[k] == b[k])
  }

  ghost predicate Rebuilding(cfg: Config, ops: seq<Op>, n: nat, before: Server, st: State)
    requires n <= |ops|
  {
    && !st.link.aborted
    && (forall i | 0 <= i < n && i < |ops| :: Landed(cfg, before, ops[i], st))
    && (forall k: ResourceKey | !Touched(cfg, ops, n, k) :: SameAt(before, st.link.server, k))
    && (forall id | id in st.cache :: RecordedBy(ops[..n], id))
  }

  ghost predicate RebuildOp(op: Op) {
    op.SkipOp? || op.DropRefOp? || ((op.PostOp? || op.PutOp?) && op.o.id != "")
  }

  lemma LandedStep(cfg: Config, before: Server, op: Op, st: State)
    requires FaultFree(cfg.network) && !st.link.aborted && RebuildOp(op)
    requires op.SkipOp? || op.DropRefOp? || IdOf(op) !in st.cache
    requires forall k: ResourceKey | Touches(cfg, op, k) && !op.DropRefOp? :: SameAt(before, st.link.server, k)
    ensures !ExecuteOne(cfg, op, st).link.aborted && Landed(cfg, before, op, ExecuteOne(cfg, op, st))
    ensures forall k: ResourceKey | !Touches(cfg, op, k) ::
        SameAt(st.link.server, ExecuteOne(cfg, op, st).link.server, k)
    ensures forall id | id in ExecuteOne(cfg, op, st).cache && id !in st.cache ::
        IdOf(op) == id && !op.SkipOp? && !op.DropRefOp?
  {
    hide IsDummy;
    assert RequestOf(cfg, op).Some? ==> Touches(cfg, op, RequestOf(cfg, op).value.Key());
  }

  lemma LandedElsewhere(cfg: Config, before: Server, a: Op, b: Op, st: State)
    requires FaultFree(cfg.network) && !st.link.aborted && !Clash(a, b) && Landed(cfg, before, b, st)
    ensures Landed(cfg, before, b, ExecuteOne(cfg, a, st))
  {
    hide IsDummy;
    StepLocal(cfg, a, st);
  }

  lemma TouchedStep(cfg: Config, ops: seq<Op>, n: nat, k: ResourceKey)
    requires n < |ops|
    ensures Touched(cfg, ops, n + 1, k) <==> Touched(cfg, ops, n, k) || Touches(cfg, ops[n], k)
  {
    hide Touches;
    if Touched(cfg, ops, n, k) {
      var i :| 0 <= i < n && i < |ops| && Touches(cfg, ops[i], k);
      assert i < n + 1;
    }
  }

  lemma TouchId(cfg: Config, op: Op, k: ResourceKey)
    requires Touches(cfg, op, k)
    ensures k.id == IdOf(op) && !op.SkipOp?
  {
  }

  lemma UntouchedSoFar(cfg: Config, ops: seq<Op>, n: nat, k: ResourceKey)
    requires Separate(ops) && n < |ops| && Touches(cfg, ops[n], k) && !ops[n].DropRefOp?
    ensures !Touched(cfg, ops, n, k)
  {
    hide Touches, IdOf;
    TouchId(cfg, ops[n], k);
    forall i | 0 <= i < n && i < |ops| ensures !Touches(cfg, ops[i], k) {
      assert !Clash(ops[i], ops[n]);
      if Touches(cfg, ops[i], k) { TouchId(cfg, ops[i], k); }
    }
  }

  lemma RebuildingStep(cfg: Config, ops: seq<Op>, n: nat, before: Server, st: State)
    requires FaultFree(cfg.network) && Separate(ops) && n < |ops| && RebuildOp(ops[n])
    requires Rebuilding(cfg, ops, n, before, st)
    ensures Rebuilding(cfg, ops, n + 1, before, ExecuteOne(cfg, ops[n], st))
  {
    hide ExecuteOne, Landed, FaultFree, Touches, Touched, RequestOf, IdOf;
    var op, next := ops[n], ExecuteOne(cfg, ops[n], st);
    forall k: ResourceKey | Touches(cfg, op, k) && !op.DropRefOp? ensures SameAt(before, st.link.server, k) {
      UntouchedSoFar(cfg, ops, n, k);
    }
    if !op.DropRefOp? { NotYetRecorded(ops, n, st.cache); }
    LandedStep(cfg, before, op, st);
    forall i | 0 <= i < n ensures Landed(cfg, before, ops[i], next) {
      assert !Clash(ops[i], op);
      LandedElsewhere(cfg, before, op, ops[i], st);
    }
    forall k: ResourceKey | !Touched(cfg, ops, n + 1, k) ensures SameAt(before, next.link.server, k) {
      TouchedStep(cfg, ops, n, k);
    }
    assert ops[..n + 1][..n] == ops[..n] && ops[..n + 1][n] == op;
    forall id | id in next.cache ensures RecordedBy(ops[..n + 1], id) {
      if id in st.cache {
        var i :| 0 <= i < n && !ops[i].SkipOp? && !ops[i].DropRefOp? && IdOf(ops[i]) == id;
        assert ops[..n + 1][i] == ops[i];
      }
    }
  }

  lemma {:induction false} RebuildThroughout(cfg: Config, ops: seq<Op>, n: nat, server: Server)
    requires FaultFree(cfg.network) && Separate(ops) && n <= |ops| && forall i | 0 <= i < |ops| :: RebuildOp(ops[i])
    ensures Rebuilding(cfg, ops, n, server, Execute(cfg, ops[..n], Start(server)))
  {
    hide FaultFree, ExecuteOne, Landed, Touches;
    if n > 0 {
      RebuildThroughout(cfg, ops, n - 1, server);
      assert RebuildOp(ops[n - 1]);
      RebuildingStep(cfg, ops, n - 1, server, Execute(cfg, ops[..n - 1], Start(server)));
      assert ops[..n][..n - 1] == ops[..n - 1];
    }
  }

  // ---------- the outcome ----------

  lemma Rebuilt(cfg: Config, task: Task, server: Server)
    requires RebuildPremises(cfg, task, server)
    ensures Rebuilding(cfg, Plan(cfg, task), |Plan(cfg, task)|, server, Run(cfg, task, server))
    ensures forall i | 0 <= i < |Plan(cfg, task)| :: PlannedForRebuild(cfg, task, Plan(cfg, task)[i])
  {
    hide Plan, FaultFree, Execute, Rebuilding, Listing;
    var ops := Plan(cfg, task);
    RebuildPlan(cfg, task);
    forall i | 0 <= i < |ops| ensures RebuildOp(ops[i]) {
      assert PlannedForRebuild(cfg, task, ops[i]);
    }
    RebuildThroughout(cfg, ops, |ops|, server);
    assert ops[..|ops|] == ops;
  }

  lemma ListedWhenHeld(cfg: Config, task: Task, server: Server, u: string)
    requires RebuildPremises(cfg, task, server) && u in task.pre && KeyOf(cfg, task.pre[u]) in server
    ensures IsListed(task.listing, u)
  {
    var k := KeyOf(cfg, task.pre[u]);
    assert CurrentId(cfg, task, u);
    var t :| Current(cfg, task, t, u);
    assert HandledEndpoint(cfg, k.endpoint);
    assert ListedKey(task.listing, k);
    var i :| 0 <= i < |task.listing| && RefKey(task.listing[i]) == k;
    assert task.listing[i].uuid == u;
  }

  lemma CurrentOutcome(cfg: Config, task: Task, server: Server, u: string)
    requires RebuildPremises(cfg, task, server) && u in task.pre
    ensures var st, o := Run(cfg, task, server), task.pre[u];
            if AtHome(cfg, task, server, u) then
              u in st.cache && st.cache[u] == o && KeyOf(cfg, o) in st.link.server
                  && st.link.server[KeyOf(cfg, o)] == o.json
            else u !in st.cache && KeyOf(cfg, o) !in st.link.server
  {
    hide Plan, FaultFree, Execute, IsListed, Listing, HasObject;
    var ops, st := Plan(cfg, task), Run(cfg, task, server);
    Rebuilt(cfg, task, server);
    assert CurrentId(cfg, task, u);
    var t :| Current(cfg, task, t, u);
    ChangePlanned(cfg, task, t, u);
    var i :| 0 <= i < |ops| && ops[i] == Classify(task, u);
    assert Landed(cfg, server, ops[i], st);
    if KeyOf(cfg, task.pre[u]) in server { ListedWhenHeld(cfg, task, server, u); }
  }

  /** A rebuild ends with exactly the rendered objects in the cache, whatever the old cache was, if and only
      if every current object that the server lists is found under the endpoint of its type. */
  lemma RebuildCacheIff(cfg: Config, task: Task, server: Server)
    requires RebuildPremises(cfg, task, server)
    ensures Run(cfg, task, server).cache == task.pre <==> forall u | u in task.pre :: AtHome(cfg, task, server, u)
  {
    hide Plan, FaultFree, Run, AtHome, Listing, HasObject, IsListed, WellFormed;
    var ops, st := Plan(cfg, task), Run(cfg, task, server);
    forall u | u in task.pre
      ensures AtHome(cfg, task, server, u) <==> u in st.cache
      ensures u in st.cache ==> st.cache[u] == task.pre[u]
    {
      CurrentOutcome(cfg, task, server, u);
    }
    Rebuilt(cfg, task, server);
    forall id | id in st.cache ensures id in task.pre {
      assert RecordedBy(ops[..|ops|], id);
      var i :| 0 <= i < |ops| && !ops[i].SkipOp? && !ops[i].DropRefOp? && IdOf(ops[i]) == id;
      assert PlannedForRebuild(cfg, task, ops[i]);
      var t, u :| t in cfg.types && Current(cfg, task, t, u) && ops[i] == Classify(task, u);
      ClassifiedId(cfg, task, t, u);
    }
    if forall u | u in task.pre :: AtHome(cfg, task, server, u) {
      assert st.cache.Keys == task.pre.Keys;
    }
  }

  ghost predicate HoldsExactly(cfg: Config, m: Cache, s: Server) {
    forall k: ResourceKey | HandledEndpoint(cfg, k.endpoint) ::
      (k in s <==> k.id in m && k == KeyOf(cfg, m[k.id])) && (k in s ==> s[k] == m[k.id].json)
  }

  /** An operation of the plan that touches a key: a change of the object that the key belongs to, or the
      removal of a key of no current object. */
  lemma TouchingOperation(cfg: Config, task: Task, server: Server, op: Op, k: ResourceKey)
    requires RebuildPremises(cfg, task, server) && PlannedForRebuild(cfg, task, op) && Touches(cfg, op, k)
    ensures HandledEndpoint(cfg, k.endpoint)
    ensures if HasObject(task.current, k.id) then k.id in task.pre && k == KeyOf(cfg, task.pre[k.id])
            else op == DropRefOp(ObjectRef(k.id, k.endpoint))
  {
    hide FaultFree, IsListed;
    if ChangeFrom(cfg, task, cfg.types, op) {
      var t, u :| t in cfg.types && Current(cfg, task, t, u) && op == Classify(task, u);
      assert u in task.pre && task.pre[u].typ == t;
      CurrentIsObject(cfg, task, t, u);
    } else {
      assert Surplus(task, op);
    }
  }

  lemma SurplusTouched(cfg: Config, task: Task, server: Server, k: ResourceKey)
    requires RebuildPremises(cfg, task, server) && k in server && HandledEndpoint(cfg, k.endpoint)
    requires !HasObject(task.current, k.id)
    ensures Touched(cfg, Plan(cfg, task), |Plan(cfg, task)|, k)
  {
    hide Plan, FaultFree, HasObject;
    var ops := Plan(cfg, task);
    assert ListedKey(task.listing, k);
    var i :| 0 <= i < |task.listing| && RefKey(task.listing[i]) == k;
    SurplusPlanned(cfg, task, i);
    var j :| 0 <= j < |ops| && ops[j] == DropRefOp(task.listing[i]);
    assert Touches(cfg, ops[j], k);
  }

  /** Where the rendering of a current object belongs. */
  ghost predicate IsHome(cfg: Config, task: Task, k: ResourceKey) {
    k.id in task.pre && k == KeyOf(cfg, task.pre[k.id])
  }

  lemma KeyAfterRebuild(cfg: Config, task: Task, server: Server, k: ResourceKey)
    requires RebuildPremises(cfg, task, server)
    ensures var s := Run(cfg, task, server).link.server;
            && (!HandledEndpoint(cfg, k.endpoint) ==> SameAt(server, s, k))
            && (HandledEndpoint(cfg, k.endpoint) && !HasObject(task.current, k.id) ==> k !in s)
            && (HasObject(task.current, k.id) && !IsHome(cfg, task, k) ==> SameAt(server, s, k))
  {
    hide Plan, FaultFree, Run, HasObject, Touches, Listing, WellFormed;
    var ops, st := Plan(cfg, task), Run(cfg, task, server);
    Rebuilt(cfg, task, server);
    if Touched(cfg, ops, |ops|, k) {
      var i :| 0 <= i < |ops| && Touches(cfg, ops[i], k);
      assert PlannedForRebuild(cfg, task, ops[i]) && Landed(cfg, server, ops[i], st);
      TouchingOperation(cfg, task, server, ops[i], k);
    } else if k in server && HandledEndpoint(cfg, k.endpoint) && !HasObject(task.current, k.id) {
      SurplusTouched(cfg, task, server, k);
    }
  }

  lemma OnlyWhereRenderedIsAtHome(cfg: Config, task: Task, server: Server, u: string)
    requires RebuildPremises(cfg, task, server) && u in task.pre && OnlyWhereRendered(cfg, task, server)
    ensures AtHome(cfg, task, server, u)
  {
    if IsListed(task.listing, u) {
      var i :| 0 <= i < |task.listing| && task.listing[i].uuid == u;
      PreId(cfg, task, server, u);
      assert RefKey(task.listing[i]) in server;
    }
  }

  /** A rebuild ends with exactly the rendered objects under the handled endpoints, if and only if the server
      had the id of no loaded object there other than where its rendering belongs; other endpoints are left alone. */
  lemma RebuildServerIff(cfg: Config, task: Task, server: Server)
    requires RebuildPremises(cfg, task, server)
    ensures HoldsExactly(cfg, task.pre, Run(cfg, task, server).link.server) <==> OnlyWhereRendered(cfg, task, server)
    ensures forall k: ResourceKey | !HandledEndpoint(cfg, k.endpoint) ::
              SameAt(server, Run(cfg, task, server).link.server, k)
  {
    hide Run, Plan, RebuildPremises, AtHome, HandledEndpoint, HasObject;
    var s := Run(cfg, task, server).link.server;
    forall k: ResourceKey
      ensures !HandledEndpoint(cfg, k.endpoint) ==> SameAt(server, s, k)
      ensures HandledEndpoint(cfg, k.endpoint) && !HasObject(task.current, k.id) ==> k !in s
      ensures HasObject(task.current, k.id) && !IsHome(cfg, task, k) ==> SameAt(server, s, k)
    {
      KeyAfterRebuild(cfg, task, server, k);
    }
    forall u | u in task.pre ensures task.pre[u].id == u && HasObject(task.current, u) { PreId(cfg, task, server, u); }
    if OnlyWhereRendered(cfg, task, server) {
      forall u | u in task.pre
        ensures KeyOf(cfg, task.pre[u]) in s && s[KeyOf(cfg, task.pre[u])] == task.pre[u].json
      {
        OnlyWhereRenderedIsAtHome(cfg, task, server, u);
        CurrentOutcome(cfg, task, server, u);
      }
      assert HoldsExactly(cfg, task.pre, s);
    }
    if HoldsExactly(cfg, task.pre, s) {
      assert forall k: ResourceKey | k in server && HandledEndpoint(cfg, k.endpoint) && HasObject(task.current, k.id) ::
        IsHome(cfg, task, k);
    }
  }

  lemma PreId(cfg: Config, task: Task, server: Server, u: string)
    requires RebuildPremises(cfg, task, server) && u in task.pre
    ensures task.pre[u].id == u && HasObject(task.current, u)
  {
    assert CurrentId(cfg, task, u);
    var t :| Current(cfg, task, t, u);
    CurrentIsObject(cfg, task, t, u);
  }

  /** A rebuild keeps the cache truthful on any honest network, if listed objects are at home. */
  lemma RebuildKeepsTruth(cfg: Config, task: Task, server: Server)
    requires task.rebuild && Honest(cfg.network) && WellFormed(cfg, task)
    requires forall u | u in task.pre :: AtHome(cfg, task, server, u)
    ensures Truthful(cfg, Run(cfg, task, server).link.server, Run(cfg, task, server).cache)
  {
    hide Plan, Execute, HasObject, Honest;
    var ops := Plan(cfg, task);
    RebuildPlan(cfg, task);
    forall i | 0 <= i < |ops| ensures Ready(cfg, server, ops[i]) {
      assert PlannedForRebuild(cfg, task, ops[i]);
      if ChangeFrom(cfg, task, cfg.types, ops[i]) {
        var t, u :| t in cfg.types && Current(cfg, task, t, u) && ops[i] == Classify(task, u);
        assert u in task.pre ==> AtHome(cfg, task, server, u);
      }
    }
    InvariantThroughout(cfg, ops, |ops|, Start(server));
    assert ops[..|ops|] == ops;
  }

  // ---------- a listed object that is not at home ----------

  /** How it stands after some operations: the server does not have it where its rendering belongs, and once
      its update has been tried, the new cache has a dummy for it. */
  ghost predicate Astray(cfg: Config, o: RenderedObject, tried: bool, st: State) {
    && !st.link.aborted && KeyOf(cfg, o) !in st.link.server
    && (tried ==> o.id in st.cache && st.cache[o.id] == Dummy(o, FAILED_UPDATE))
  }

  lemma AstrayStep(cfg: Config, o: RenderedObject, tried: bool, op: Op, st: State)
    requires cfg.network == UPDATES_FAIL && o.id != "" && Astray(cfg, o, tried, st)
    requires op == PutOp(o) || op.SkipOp? || IdOf(op) != o.id
    ensures Astray(cfg, o, tried || op == PutOp(o), ExecuteOne(cfg, op, st))
  {
    hide IsDummy, DummyJson;
    StepLocal(cfg, op, st);
  }

  lemma {:induction false} AstrayThroughout(cfg: Config, o: RenderedObject, ops: seq<Op>, server: Server)
    requires cfg.network == UPDATES_FAIL && o.id != "" && KeyOf(cfg, o) !in server
    requires forall i | 0 <= i < |ops| :: ops[i] == PutOp(o) || ops[i].SkipOp? || IdOf(ops[i]) != o.id
    ensures Astray(cfg, o, PutOp(o) in ops, Execute(cfg, ops, Start(server)))
    decreases |ops|
  {
    hide ExecuteOne, IdOf, Astray;
    if ops == [] {
      StartsAstray(cfg, o, server);
    } else {
      var front, op := ops[..|ops| - 1], ops[|ops| - 1];
      assert ops == front + [op];
      AstrayThroughout(cfg, o, front, server);
      AstrayStep(cfg, o, PutOp(o) in front, op, Execute(cfg, front, Start(server)));
    }
  }

  lemma StartsAstray(cfg: Config, o: RenderedObject, server: Server)
    requires KeyOf(cfg, o) !in server
    ensures Astray(cfg, o, false, Start(server))
  {
  }

  /** If its update fails, the new cache has an object that the server does not have there. */
  lemma AstrayIsLost(cfg: Config, task: Task, server: Server, u: string)
    requires task.rebuild && WellFormed(cfg, task) && cfg.network == UPDATES_FAIL
    requires u in task.pre && !AtHome(cfg, task, server, u)
    ensures var st := Run(cfg, task, server); u in st.cache && !Held(cfg, st.link.server, st.cache[u])
  {
    hide Plan, Execute, HasObject, IsDummy, IsListed, DummyJson;
    var ops, o := Plan(cfg, task), task.pre[u];
    assert CurrentId(cfg, task, u);
    var t :| Current(cfg, task, t, u);
    ChangePlanned(cfg, task, t, u);
    var i :| 0 <= i < |ops| && ops[i] == Classify(task, u);
    assert ops[i] == PutOp(o);
    RebuildPlan(cfg, task);
    CurrentIsObject(cfg, task, t, u);
    forall j | 0 <= j < |ops| ensures ops[j] == PutOp(o) || ops[j].SkipOp? || IdOf(ops[j]) != o.id {
      assert PlannedForRebuild(cfg, task, ops[j]);
      if ChangeFrom(cfg, task, cfg.types, ops[j]) {
        var t', v :| t' in cfg.types && Current(cfg, task, t', v) && ops[j] == Classify(task, v);
        ClassifiedId(cfg, task, t', v);
      }
    }
    AstrayThroughout(cfg, o, ops, server);
  }

  ghost predicate RebuildAlwaysTruthful(cfg: Config, task: Task, server: Server) {
    forall net: Network | Honest(net) ::
      var st := Run(cfg.(network := net), task, server); Truthful(cfg, st.link.server, st.cache)
  }

  /** A rebuild leaves a truthful cache on every honest network exactly if every rendered object that is listed
      at all is found under the endpoint of its type. */
  lemma RebuildTruthfulIff(cfg: Config, task: Task, server: Server)
    requires task.rebuild && WellFormed(cfg, task)
    ensures RebuildAlwaysTruthful(cfg, task, server) <==> forall u | u in task.pre :: AtHome(cfg, task, server, u)
  {
    hide Run, WellFormed, IsListed, Honest;
    if forall u | u in task.pre :: AtHome(cfg, task, server, u) {
      forall net: Network | Honest(net)
        ensures var st := Run(cfg.(network := net), task, server); Truthful(cfg, st.link.server, st.cache)
      {
        var cfg' := cfg.(network := net);
        OnlyNetwork(cfg, cfg', task);
        assert forall u | u in task.pre :: AtHome(cfg', task, server, u);
        RebuildKeepsTruth(cfg', task, server);
        var st := Run(cfg', task, server);
        SameEndpoints(cfg', cfg, st.link.server, st.cache);
      }
    } else {
      var u :| u in task.pre && !AtHome(cfg, task, server, u);
      var cfg' := cfg.(network := UPDATES_FAIL);
      OnlyNetwork(cfg, cfg', task);
      assert !AtHome(cfg', task, server, u);
      AstrayIsLost(cfg', task, server, u);
      UpdatesFailIsHonest();
      var st := Run(cfg', task, server);
      assert !TruthAt(cfg, st.link.server, st.cache, u);
    }
  }
}
