/** The room reserved for the new cache file is enough, whatever the server answers. */
module SyncSpace {
  import opened Ordering
  import opened RenderedObjects
  import opened CacheFile
  import opened CacheReading
  import opened CacheStream
  import opened ScimSender
  import opened Sync
  import opened SyncPlan
  import opened SyncRebuild
  import opened Wrappers

  // ---------- sums over finite sets ----------

  ghost function Sum(f: string -> nat, s: set<string>): nat
    decreases |s|
  {
    if s == {} then 0 else var x :| x in s; f(x) + Sum(f, s - {x})
  }

  lemma {:induction false} SumSplit(f: string -> nat, s: set<string>, x: string)
    requires x in s
    ensures Sum(f, s) == f(x) + Sum(f, s - {x})
    decreases |s|
  {
    var y :| y in s && Sum(f, s) == f(y) + Sum(f, s - {y});
    if y != x {
      SumSplit(f, s - {y}, x);
      SumSplit(f, s - {x}, y);
      assert s - {y} - {x} == s - {x} - {y};
    }
  }

  lemma {:induction false} SumBelow(f: string -> nat, g: string -> nat, s: set<string>, t: set<string>)
    requires s <= t && forall x | x in s :: f(x) <= g(x)
    ensures Sum(f, s) <= Sum(g, t)
    decreases |t|
  {
    if t != {} {
      var x :| x in t;
      SumSplit(g, t, x);
      if x in s { SumSplit(f, s, x); }
      SumBelow(f, g, s - {x}, t - {x});
      if x !in s { assert s - {x} == s; }
    }
  }

  lemma {:induction false} SumAdd(f: string -> nat, g: string -> nat, h: string -> nat, s: set<string>)
    requires forall x | x in s :: h(x) == f(x) + g(x)
    ensures Sum(h, s) == Sum(f, s) + Sum(g, s)
    decreases |s|
  {
    if s != {} {
      var x :| x in s;
      SumSplit(f, s, x);
      SumSplit(g, s, x);
      SumSplit(h, s, x);
      SumAdd(f, g, h, s - {x});
    }
  }

  /** Adding up along a sequence of different ids is the sum over their set. */
  function SumAlong(f: string -> nat, ids: seq<string>): nat {
    if ids == [] then 0 else f(ids[0]) + SumAlong(f, ids[1..])
  }

  lemma {:induction false} SumAlongDistinct(f: string -> nat, ids: seq<string>, s: set<string>)
    requires Distinct(ids) && forall x :: x in ids <==> x in s
    ensures SumAlong(f, ids) == Sum(f, s)
    decreases |ids|
  {
    if ids == [] {
      assert s == {};
    } else {
      assert ids == [ids[0]] + ids[1..];
      SumAlongDistinct(f, ids[1..], s - {ids[0]});
      SumSplit(f, s, ids[0]);
    }
  }

  // ---------- the size of a saved list and the estimate, as sums ----------

  ghost function SizeIn(m: Cache): string -> nat {
    id => if id in m then ObjectSize(m[id]) else 0
  }

  ghost function CapIn(current: Cache, cached: Cache): string -> nat {
    id => if id in current then CurrentSize(current[id], cached) else 0
  }

  ghost function LeftIn(current: Cache, cached: Cache): string -> nat {
    id => if id in cached && id !in current then ObjectSize(cached[id]) else 0
  }

  function IdsOf(es: seq<RenderedObject>): (ids: seq<string>)
    ensures |ids| == |es| && forall i | 0 <= i < |es| :: ids[i] == es[i].id
  {
    seq(|es|, i requires 0 <= i < |es| => es[i].id)
  }

  lemma {:induction false} WrittenSize(es: seq<RenderedObject>, m: Cache)
    requires forall i | 0 <= i < |es| :: es[i].id in m && m[es[i].id] == es[i]
    ensures |WriteEntries(es)| == SumAlong(SizeIn(m), IdsOf(es))
    decreases |es|
  {
    hide WriteObject;
    if es != [] {
      WrittenSize(es[1..], m);
      assert IdsOf(es)[1..] == IdsOf(es[1..]);
    }
  }

  lemma {:induction false} CurrentEstimate(es: seq<RenderedObject>, current: Cache, cached: Cache)
    requires forall i | 0 <= i < |es| :: es[i].id in current && current[es[i].id] == es[i]
    ensures EstimateCurrent(es, cached) == SumAlong(CapIn(current, cached), IdsOf(es))
    decreases |es|
  {
    if es != [] {
      CurrentEstimate(es[1..], current, cached);
      assert IdsOf(es)[1..] == IdsOf(es[1..]);
    }
  }

  lemma {:induction false} CachedEstimate(es: seq<RenderedObject>, current: Cache, cached: Cache)
    requires forall i | 0 <= i < |es| :: es[i].id in cached && cached[es[i].id] == es[i]
    ensures EstimateCached(es, current) == SumAlong(LeftIn(current, cached), IdsOf(es))
    decreases |es|
  {
    if es != [] {
      CachedEstimate(es[1..], current, cached);
      assert IdsOf(es)[1..] == IdsOf(es[1..]);
    }
  }

  lemma EntryIds(m: Cache)
    requires IdKeyed(m)
    ensures Distinct(IdsOf(Entries(m)))
    ensures forall x :: x in IdsOf(Entries(m)) <==> x in m.Keys
    ensures forall i | 0 <= i < |Entries(m)| :: Entries(m)[i].id in m && m[Entries(m)[i].id] == Entries(m)[i]
  {
    hide Entries;
    var es, ids := Entries(m), IdsOf(Entries(m));
    EntriesExact(m);
    forall x ensures x in ids <==> x in m {
      if x in ids { var i :| 0 <= i < |ids| && ids[i] == x; assert es[i].id == x; }
      if x in m { var i :| 0 <= i < |es| && es[i].id == x; assert ids[i] == x; }
    }
  }

  lemma SavedSize(m: Cache)
    requires IdKeyed(m)
    ensures |SaveBytes(m)| == HEADER_SIZE + 8 + Sum(SizeIn(m), m.Keys)
  {
    hide Entries, SizeIn, IdsOf;
    EntryIds(m);
    WrittenSize(Entries(m), m);
    SumAlongDistinct(SizeIn(m), IdsOf(Entries(m)), m.Keys);
  }

  lemma EstimatedSize(current: Cache, cached: Cache)
    requires IdKeyed(current) && IdKeyed(cached)
    ensures SizeEstimate(current, cached)
         == HEADER_SIZE + 8 + Sum(CapIn(current, cached), current.Keys) + Sum(LeftIn(current, cached), cached.Keys)
  {
    hide Entries, IdsOf, CapIn, LeftIn;
    EntryIds(current);
    EntryIds(cached);
    CurrentEstimate(Entries(current), current, cached);
    CachedEstimate(Entries(cached), current, cached);
    SumAlongDistinct(CapIn(current, cached), IdsOf(Entries(current)), current.Keys);
    SumAlongDistinct(LeftIn(current, cached), IdsOf(Entries(cached)), cached.Keys);
  }

  // ---------- what a run can put into the cache ----------

  /** A dummy takes no more room than the rendering that it stands for. */
  ghost predicate DummiesAreShort(pre: Cache) {
    forall u | u in pre ::
      |DummyJson(u, CREATE_CONFLICT)| <= |pre[u].json| && |DummyJson(u, FAILED_UPDATE)| <= |pre[u].json|
  }

  /** Each entry is under its own id and within the room estimated for that id. */
  ghost predicate Fitting(pre: Cache, cached: Cache, m: Cache, id: string)
    requires id in m
  {
    m[id].id == id && (id in pre || id in cached)
    && ObjectSize(m[id]) <= CapIn(pre, cached)(id) + LeftIn(pre, cached)(id)
  }

  ghost predicate OfThisRun(task: Task, op: Op) {
    match op
    case CopyOp(o) => o.id in task.cached && task.cached[o.id] == o
    case DropOp(o) => o.id in task.cached && task.cached[o.id] == o
    case PostOp(o) => o.id in task.pre && task.pre[o.id] == o
    case PutOp(o) => o.id in task.pre && task.pre[o.id] == o
    case SkipOp => true
    case DropRefOp(_) => true
  }

  /** An object of the old cache or a rendering is within its own room, and so is a dummy for the latter. */
  lemma RoomEnough(pre: Cache, cached: Cache, o: RenderedObject)
    ensures o.id in cached && cached[o.id] == o
        ==> ObjectSize(o) <= CapIn(pre, cached)(o.id) + LeftIn(pre, cached)(o.id) || o.id in pre
    ensures o.id in cached && cached[o.id] == o && o.id in pre && pre[o.id].id == o.id
        ==> ObjectSize(o) <= CapIn(pre, cached)(o.id)
    ensures o.id in pre && pre[o.id] == o ==> ObjectSize(o) <= CapIn(pre, cached)(o.id)
    ensures DummiesAreShort(pre) && o.id in pre && pre[o.id] == o ==>
              ObjectSize(Dummy(o, CREATE_CONFLICT)) <= ObjectSize(o)
                  && ObjectSize(Dummy(o, FAILED_UPDATE)) <= ObjectSize(o)
  {
  }

  lemma FittingStep(cfg: Config, task: Task, op: Op, st: State)
    requires DummiesAreShort(task.pre) && OfThisRun(task, op) && IdKeyed(task.pre)
    requires forall id | id in st.cache :: Fitting(task.pre, task.cached, st.cache, id)
    ensures forall id | id in ExecuteOne(cfg, op, st).cache ::
        Fitting(task.pre, task.cached, ExecuteOne(cfg, op, st).cache, id)
  {
    hide ObjectSize, CapIn, LeftIn, DummiesAreShort, DummyJson;
    var next := ExecuteOne(cfg, op, st).cache;
    if !op.SkipOp? && !op.DropRefOp? { RoomEnough(task.pre, task.cached, op.o); }
    forall id | id in next ensures Fitting(task.pre, task.cached, next, id) {
      if id in st.cache && next[id] == st.cache[id] {
        assert Fitting(task.pre, task.cached, st.cache, id);
      }
    }
  }

  lemma {:induction false} AlwaysFitting(cfg: Config, task: Task, ops: seq<Op>, server: Server)
    requires DummiesAreShort(task.pre) && IdKeyed(task.pre) && forall i | 0 <= i < |ops| :: OfThisRun(task, ops[i])
    ensures forall id | id in Execute(cfg, ops, Start(server)).cache ::
              Fitting(task.pre, task.cached, Execute(cfg, ops, Start(server)).cache, id)
    decreases |ops|
  {
    hide DummiesAreShort, OfThisRun, Fitting, ExecuteOne;
    if ops != [] {
      var n := |ops| - 1;
      AlwaysFitting(cfg, task, ops[..n], server);
      assert OfThisRun(task, ops[n]);
      FittingStep(cfg, task, ops[n], Execute(cfg, ops[..n], Start(server)));
    }
  }

  lemma PlanOfThisRun(cfg: Config, task: Task)
    requires WellFormed(cfg, task)
    ensures forall i | 0 <= i < |Plan(cfg, task)| :: OfThisRun(task, Plan(cfg, task)[i])
  {
    hide AllChanges, AllDrops, AllRefDrops, Reverse, Endpoints, HasObject;
    var a := AllChanges(task, cfg.types);
    AllChangesFrom(cfg, task, cfg.types);
    forall i | 0 <= i < |a| ensures OfThisRun(task, a[i]) {
      assert ChangeFrom(cfg, task, cfg.types, a[i]);
      var t, u :| t in cfg.types && Current(cfg, task, t, u) && a[i] == Classify(task, u);
    }
    if task.rebuild {
      var b := AllRefDrops(task, Endpoints(cfg, Reverse(cfg.types), {}));
      AllRefDropsFrom(task, Endpoints(cfg, Reverse(cfg.types), {}));
      assert forall i | 0 <= i < |b| :: Surplus(task, b[i]);
    } else {
      var b := AllDrops(task, Reverse(cfg.types));
      ReverseTypes(cfg.types);
      AllDropsFrom(task, Reverse(cfg.types));
      forall i | 0 <= i < |b| ensures OfThisRun(task, b[i]) {
        assert b[i].DropOp? && Gone(task, Reverse(cfg.types), b[i].o);
      }
    }
  }

  lemma FittingIsSmall(pre: Cache, cached: Cache, m: Cache)
    requires IdKeyed(pre) && IdKeyed(cached) && forall id | id in m :: Fitting(pre, cached, m, id)
    ensures IdKeyed(m) && |SaveBytes(m)| <= SizeEstimate(pre, cached)
  {
    hide SaveBytes, SizeEstimate, ObjectSize, CurrentSize, Sum;
    var cap, left := CapIn(pre, cached), LeftIn(pre, cached);
    var both := (id: string) => cap(id) + left(id);
    var all := pre.Keys + cached.Keys;
    assert forall id | id in m :: Fitting(pre, cached, m, id);
    SavedSize(m);
    EstimatedSize(pre, cached);
    SumBelow(SizeIn(m), both, m.Keys, all);
    SumAdd(cap, left, both, all);
    SumOutside(cap, pre.Keys, all);
    SumOutside(left, cached.Keys, all);
  }

  lemma {:induction false} SumOutside(f: string -> nat, s: set<string>, t: set<string>)
    requires s <= t && forall x | x in t && x !in s :: f(x) == 0
    ensures Sum(f, t) == Sum(f, s)
    decreases |t|
  {
    if t != s {
      var x :| x in t && x !in s;
      SumSplit(f, t, x);
      SumOutside(f, s, t - {x});
    }
  }

  /** Of each object the larger one of rendering and cached entry. */
  function Largest(current: Cache, cached: Cache): Cache {
    map id | id in current.Keys + cached.Keys ::
      if id !in current || (id in cached && ObjectSize(cached[id]) > ObjectSize(current[id])) then cached[id]
      else current[id]
  }

  /** The estimate is not one byte too much: it is the size of the file that holds the larger one of each. */
  lemma EstimateIsReached(current: Cache, cached: Cache)
    requires IdKeyed(current) && IdKeyed(cached)
    ensures |SaveBytes(Largest(current, cached))| == SizeEstimate(current, cached)
  {
    hide SaveBytes, SizeEstimate, ObjectSize, Sum;
    var m, cap, left := Largest(current, cached), CapIn(current, cached), LeftIn(current, cached);
    var all := current.Keys + cached.Keys;
    assert m.Keys == all;
    SavedSize(m);
    EstimatedSize(current, cached);
    SumAdd(cap, left, SizeIn(m), all);
    SumOutside(cap, current.Keys, all);
    SumOutside(left, cached.Keys, all);
  }

  lemma PreKeyed(cfg: Config, task: Task)
    requires WellFormed(cfg, task)
    ensures IdKeyed(task.pre)
  {
    forall u | u in task.pre ensures task.pre[u].id == u {
      assert CurrentId(cfg, task, u);
      var t :| Current(cfg, task, t, u);
    }
  }

  /** Whatever happens during a run, normal or rebuilding, the new cache fits the room that was reserved for
      it before the first request was sent. */
  lemma SpaceBound(cfg: Config, task: Task, server: Server)
    requires WellFormed(cfg, task) && DummiesAreShort(task.pre)
    ensures |SaveBytes(Run(cfg, task, server).cache)|
         <= SizeEstimate(task.pre, task.cached) <= PreAllocated(SizeEstimate(task.pre, task.cached))
  {
    hide Plan, Execute, SaveBytes, SizeEstimate, DummiesAreShort, Fitting;
    PlanOfThisRun(cfg, task);
    PreKeyed(cfg, task);
    AlwaysFitting(cfg, task, Plan(cfg, task), server);
    FittingIsSmall(task.pre, task.cached, Run(cfg, task, server).cache);
  }

  /** The file as it is left by a run, whether or not the file system could cut off the reserved rest, is read
      back as the new cache. */
  lemma FileReadBack(cfg: Config, task: Task, server: Server, truncated: bool)
    requires WellFormed(cfg, task) && DummiesAreShort(task.pre)
    requires Storable(Run(cfg, task, server).cache)
    ensures var m := Run(cfg, task, server).cache;
            var reserved := Reserved(SizeEstimate(task.pre, task.cached));
            var written := Overwrite(reserved, 0, SaveBytes(m));
            |written| == |reserved|
            && GetContents(if truncated then written[..|SaveBytes(m)|] else written) == Ok(m)
  {
    hide Plan, Execute, SaveBytes, SizeEstimate, DummiesAreShort, Fitting, GetContents;
    var m := Run(cfg, task, server).cache;
    SpaceBound(cfg, task, server);
    PlanOfThisRun(cfg, task);
    PreKeyed(cfg, task);
    AlwaysFitting(cfg, task, Plan(cfg, task), server);
    assert IdKeyed(m) by { hide *; KeyedWhenFitting(task.pre, task.cached, m); }
    var reserved := Reserved(SizeEstimate(task.pre, task.cached));
    var written := Overwrite(reserved, 0, SaveBytes(m));
    var tail := written[|SaveBytes(m)|..];
    SaveRoundTrip(m, tail);
    SaveRoundTrip(m, "");
    assert written == SaveBytes(m) + tail;
    assert written[..|SaveBytes(m)|] == SaveBytes(m) + "";
  }

  lemma KeyedWhenFitting(pre: Cache, cached: Cache, m: Cache)
    requires forall id | id in m :: Fitting(pre, cached, m, id)
    ensures IdKeyed(m)
  {
  }
}
