/** What forced updates and creates make a run do, and that a rebuild ignores the cache. */
module SyncForced {
  import opened Ordering
  import opened RenderedObjects
  import opened ScimSender
  import opened Sync
  import opened SyncHistory
  import opened SyncPlan
  import opened Wrappers

  /** What a normal run is to do for an object that could be rendered. */
  function Due(r: Round, cache: Cache, u: string): Op
    requires u in r.pre
  {
    if u !in cache || u in r.forceCreate then PostOp(r.pre[u])
    else if u in r.forceUpdate || r.pre[u] != cache[u] then PutOp(r.pre[u])
    else CopyOp(cache[u])
  }

  /** The rendering is not by chance the dummy that a forced update leaves. */
  predicate Distinguishable(r: Round, cache: Cache, u: string)
    requires u in r.pre
  {
    u in cache && u in r.forceUpdate ==> r.pre[u] != ForcedDummy(cache[u])
  }

  lemma DueIsClassified(r: Round, cache: Cache, u: string)
    requires !r.rebuild && IdKeyed(cache) && u in r.pre && HasObject(r.current, u) && Distinguishable(r, cache, u)
    ensures Classify(TaskOf(r, cache), u) == Due(r, cache, u)
  {
    hide MadeDirty, Forgotten, ForcedDummy;
    MadeDirtyIs(cache, r.forceUpdate);
    ForgottenIs(MadeDirty(cache, r.forceUpdate), r.forceCreate, r.current);
  }

  lemma ChangeIsPlanned(cfg: Config, task: Task, t: string, u: string)
    requires t in cfg.types && u in ListedUnder(task.current, t)
    ensures Among(Plan(cfg, task), Classify(task, u))
  {
    hide AllChanges, AllDrops, AllRefDrops, Endpoints, Reverse, Classify;
    var a := AllChanges(task, cfg.types);
    AllChangesCover(cfg, task, cfg.types, t, u);
    var i :| 0 <= i < |a| && a[i] == Classify(task, u);
    assert Plan(cfg, task)[i] == a[i];
  }

  /** In a normal run a rendered object is created if it is not in the cache or is to be created by force, else
      updated if it has changed or is to be updated by force, else copied. */
  lemma ForcedAsAsked(endpoint: string -> string, r: Round, cache: Cache, t: string, u: string)
    requires !r.rebuild && IdKeyed(cache) && u in r.pre && Distinguishable(r, cache, u)
    requires t in r.types && t in r.current && u in r.current[t]
    ensures Among(Plan(ConfigOf(endpoint, r), TaskOf(r, cache)), Due(r, cache, u))
  {
    hide Plan, Due, Distinguishable, Classify;
    DueIsClassified(r, cache, u);
    ChangeIsPlanned(ConfigOf(endpoint, r), TaskOf(r, cache), t, u);
  }

  /** So a forced object goes over the wire even if it has not changed. */
  lemma ForcedIsSent(endpoint: string -> string, r: Round, cache: Cache, t: string, u: string)
    requires !r.rebuild && IdKeyed(cache) && u in r.pre && Distinguishable(r, cache, u) && r.pre[u].id == u && u != ""
    requires t in r.types && t in r.current && u in r.current[t] && u in cache
    requires u in r.forceUpdate || u in r.forceCreate
    ensures var cfg, o := ConfigOf(endpoint, r), r.pre[u];
      exists i :: 0 <= i < |Plan(cfg, TaskOf(r, cache))|
        && RequestOf(cfg, Plan(cfg, TaskOf(r, cache))[i])
           == Some(if u in r.forceCreate then Create(endpoint(o.typ), u, o.json)
                   else Update(endpoint(o.typ), u, o.json))
  {
    hide Plan, TaskOf;
    ForcedAsAsked(endpoint, r, cache, t, u);
  }

  /** An object that could not be rendered is never sent: what is cached of it is kept. */
  lemma UnrenderedIsKept(cfg: Config, task: Task, t: string, u: string)
    requires t in cfg.types && t in task.current && u in task.current[t] && u !in task.pre
    ensures Among(Plan(cfg, task), if !task.rebuild && u in task.cached then CopyOp(task.cached[u]) else SkipOp)
  {
    hide Plan, IsListed;
    ChangeIsPlanned(cfg, task, t, u);
  }

  // ---------- a rebuild ----------

  /** A rebuild updates what the server lists under any endpoint, and creates the rest. */
  lemma RebuildAsListed(cfg: Config, task: Task, t: string, u: string)
    requires task.rebuild && t in cfg.types && t in task.current && u in task.current[t] && u in task.pre
    ensures var listed := exists k | 0 <= k < |task.listing| :: task.listing[k].uuid == u;
      Among(Plan(cfg, task), if listed then PutOp(task.pre[u]) else PostOp(task.pre[u]))
  {
    hide Plan;
    ChangeIsPlanned(cfg, task, t, u);
  }

  lemma {:induction false} SameChanges(a: Task, b: Task, uids: seq<string>)
    requires a.rebuild && b == a.(cached := b.cached)
    ensures ChangesOf(a, uids) == ChangesOf(b, uids)
  {
    if uids != [] { SameChanges(a, b, uids[1..]); }
  }

  lemma {:induction false} SameAllChanges(a: Task, b: Task, types: seq<string>)
    requires a.rebuild && b == a.(cached := b.cached)
    ensures AllChanges(a, types) == AllChanges(b, types)
  {
    if types != [] {
      SameChanges(a, b, SortedKeys(ListedUnder(a.current, types[0])));
      SameAllChanges(a, b, types[1..]);
    }
  }

  lemma {:induction false} SameRefDrops(a: Task, b: Task, listing: seq<ObjectRef>, e: string)
    requires b == a.(cached := b.cached)
    ensures RefDrops(a, listing, e) == RefDrops(b, listing, e)
    decreases |listing|
  {
    hide HasObject;
    if listing != [] { SameRefDrops(a, b, listing[1..], e); }
  }

  lemma {:induction false} SameAllRefDrops(a: Task, b: Task, es: seq<string>)
    requires b == a.(cached := b.cached)
    ensures AllRefDrops(a, es) == AllRefDrops(b, es)
    decreases |es|
  {
    hide RefDrops;
    if es != [] {
      SameRefDrops(a, b, a.listing, es[0]);
      SameAllRefDrops(a, b, es[1..]);
    }
  }

  /** A rebuild does the same whatever is in the old cache, and whatever is forced. */
  lemma RebuildIgnoresCache(cfg: Config, a: Task, cached: Cache, server: Server)
    requires a.rebuild
    ensures Plan(cfg, a.(cached := cached)) == Plan(cfg, a)
    ensures Run(cfg, a.(cached := cached), server) == Run(cfg, a, server)
  {
    hide AllChanges, AllRefDrops, Endpoints, Execute, Reverse;
    var b := a.(cached := cached);
    SameAllChanges(a, b, cfg.types);
    SameAllRefDrops(a, b, Endpoints(cfg, Reverse(cfg.types), {}));
  }
}
