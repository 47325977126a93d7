/** During a fault-free run the server never holds a reference to an object that it does not hold. */
module SyncReferences {
  import opened Ordering
  import opened RenderedObjects
  import opened ScimSender
  import opened Sync
  import opened SyncPlan
  import opened SyncTruth
  import opened SyncMoves
  import opened SyncConvergence

  /** The ids that a rendered object refers to. */
  type References = string -> set<string>

  ghost predicate HoldsId(s: Server, id: string) {
    exists k: ResourceKey :: k in s && k.id == id
  }

  ghost predicate ClosedAt(refs: References, s: Server, k: ResourceKey)
    requires k in s
  {
    forall r | r in refs(s[k]) :: HoldsId(s, r)
  }

  ghost predicate ServerClosed(refs: References, s: Server) {
    forall k: ResourceKey | k in s :: ClosedAt(refs, s, k)
  }

  ghost predicate Earlier(types: seq<string>, t1: string, t2: string) {
    exists i, j :: 0 <= i < j < |types| && types[i] == t1 && types[j] == t2
  }

  /** Every reference is to an object of the same set, of a type that is sent earlier. */
  ghost predicate RefersBackwards(refs: References, types: seq<string>, m: Cache, u: string)
    requires u in m
  {
    forall r | r in refs(m[u].json) :: r in m && Earlier(types, m[r].typ, m[u].typ)
  }

  ghost predicate ReferenceClosed(refs: References, types: seq<string>, m: Cache) {
    forall u | u in m :: RefersBackwards(refs, types, m, u)
  }

  /** The data that a run aims at: every rendering, and the cached version of a current object that fails to
      render. */
  ghost function Target(cfg: Config, task: Task): Cache {
    map u | u in task.pre.Keys + task.cached.Keys && (u in task.pre || CurrentId(cfg, task, u)) ::
      if u in task.pre then task.pre[u] else task.cached[u]
  }

  ghost predicate ReferencePremises(cfg: Config, task: Task, refs: References) {
    && !task.rebuild && FaultFree(cfg.network)
    && WellFormed(cfg, task) && InPlace(cfg, task) && AllHandled(cfg, task.cached)
    && ReferenceClosed(refs, cfg.types, task.cached) && ReferenceClosed(refs, cfg.types, Target(cfg, task))
  }

  // ---------- the server after each operation ----------

  ghost predicate Changes(op: Op, u: string) {
    (op.CopyOp? || op.PostOp? || op.PutOp?) && op.o.id == u
  }

  ghost predicate Done(ops: seq<Op>, k: nat, u: string) {
    exists i :: 0 <= i < k && i < |ops| && Changes(ops[i], u)
  }

  ghost predicate DroppedBy(ops: seq<Op>, k: nat, u: string) {
    exists i :: 0 <= i < k && i < |ops| && Dropped(u, ops[i])
  }

  /** How an operation of a plan relates to the old data and the data aimed at. */
  ghost predicate Fits(cfg: Config, cached: Cache, target: Cache, op: Op) {
    match op
    case CopyOp(o) => o.id != "" && o.id in cached && o == cached[o.id] && o.id in target && o == target[o.id]
    case PostOp(o) => o.id != "" && o.id in target && o == target[o.id] && o.id !in cached
    case PutOp(o) =>
      o.id != "" && o.id in target && o == target[o.id] && o.id in cached && KeyOf(cfg, cached[o.id]) == KeyOf(cfg, o)
    case SkipOp => true
    case DropOp(o) => o.id != "" && o.id in cached && o == cached[o.id] && o.id !in target
    case DropRefOp(_) => false
  }

  /** The server holds the new version of what has been sent and the old version of everything else that
      has not been deleted, and nothing more. */
  ghost predicate Midway(cfg: Config, cached: Cache, target: Cache, ops: seq<Op>, k: nat, s: Server) {
    && (forall key: ResourceKey | key in s :: KeyExplained(cfg, cached, target, ops, k, s, key))
    && (forall u | Done(ops, k, u) :: u in target && KeyOf(cfg, target[u]) in s)
    && (forall u | u in cached && !DroppedBy(ops, k, u) :: KeyOf(cfg, cached[u]) in s)
  }

  ghost predicate KeyExplained(cfg: Config, cached: Cache, target: Cache, ops: seq<Op>, k: nat, s: Server,
                               key: ResourceKey)
    requires key in s
  {
    if Done(ops, k, key.id) then
      key.id in target && s[key] == target[key.id].json
    else
      !DroppedBy(ops, k, key.id) && key.id in cached && key == KeyOf(cfg, cached[key.id])
      && s[key] == cached[key.id].json
  }

  lemma DoneStep(ops: seq<Op>, k: nat, u: string)
    requires k < |ops|
    ensures Done(ops, k + 1, u) <==> Done(ops, k, u) || Changes(ops[k], u)
    ensures DroppedBy(ops, k + 1, u) <==> DroppedBy(ops, k, u) || Dropped(u, ops[k])
  {
    hide Changes, Dropped;
    if Done(ops, k, u) {
      var i :| 0 <= i < k && i < |ops| && Changes(ops[i], u);
      assert i < k + 1;
    }
    if DroppedBy(ops, k, u) {
      var i :| 0 <= i < k && i < |ops| && Dropped(u, ops[i]);
      assert i < k + 1;
    }
  }

  /** What an operation does to the server when nothing goes wrong. */
  ghost function Effect(cfg: Config, op: Op, s: Server): Server {
    if RequestOf(cfg, op).Some? then Apply(RequestOf(cfg, op).value, s) else s
  }

  lemma HealthyEffect(cfg: Config, cached: Cache, target: Cache, op: Op, st: State)
    requires FaultFree(cfg.network) && !st.link.aborted && Fits(cfg, cached, target, op)
    ensures !ExecuteOne(cfg, op, st).link.aborted
    ensures ExecuteOne(cfg, op, st).link.server == Effect(cfg, op, st.link.server)
  {
  }

  /** The operation concerns an object that none before it has concerned. */
  ghost predicate IsFirst(ops: seq<Op>, k: nat)
    requires k < |ops|
  {
    ops[k].SkipOp? || (!Done(ops, k, IdOf(ops[k])) && !DroppedBy(ops, k, IdOf(ops[k])))
  }

  /** The server as a step of the plan changes it, for one key. */
  lemma KeyStep(cfg: Config, cached: Cache, target: Cache, ops: seq<Op>, k: nat, s: Server, key: ResourceKey)
    requires k < |ops| && Fits(cfg, cached, target, ops[k]) && key in Effect(cfg, ops[k], s) && IsFirst(ops, k)
    requires key in s ==> KeyExplained(cfg, cached, target, ops, k, s, key)
    ensures KeyExplained(cfg, cached, target, ops, k + 1, Effect(cfg, ops[k], s), key)
  {
    hide Done, DroppedBy;
    DoneStep(ops, k, key.id);
  }

  lemma PresenceStep(cfg: Config, cached: Cache, target: Cache, ops: seq<Op>, k: nat, s: Server, u: string)
    requires k < |ops| && Fits(cfg, cached, target, ops[k]) && IsFirst(ops, k)
    requires Midway(cfg, cached, target, ops, k, s) && IdKeyed(cached) && IdKeyed(target)
    ensures var s' := Effect(cfg, ops[k], s);
      && (Done(ops, k + 1, u) ==> u in target && KeyOf(cfg, target[u]) in s')
      && (u in cached && !DroppedBy(ops, k + 1, u) ==> KeyOf(cfg, cached[u]) in s')
  {
    hide Done, DroppedBy, KeyExplained;
    DoneStep(ops, k, u);
    var id := IdOf(ops[k]);
    assert !ops[k].SkipOp? && id in cached ==> KeyOf(cfg, cached[id]) in s;
  }

  lemma MidwayStep(cfg: Config, cached: Cache, target: Cache, ops: seq<Op>, k: nat, s: Server)
    requires Separate(ops) && k < |ops| && IdKeyed(cached) && IdKeyed(target)
    requires forall i | 0 <= i < |ops| :: Fits(cfg, cached, target, ops[i])
    requires Midway(cfg, cached, target, ops, k, s)
    ensures Midway(cfg, cached, target, ops, k + 1, Effect(cfg, ops[k], s))
  {
    hide Effect, IdOf, KeyExplained, Done, DroppedBy, Fits, IsFirst;
    var s' := Effect(cfg, ops[k], s);
    assert Fits(cfg, cached, target, ops[k]);
    NotBefore(cfg, cached, target, ops, k);
    forall key: ResourceKey | key in s' ensures KeyExplained(cfg, cached, target, ops, k + 1, s', key) {
      KeyStep(cfg, cached, target, ops, k, s, key);
    }
    forall u
      ensures Done(ops, k + 1, u) ==> u in target && KeyOf(cfg, target[u]) in s'
      ensures u in cached && !DroppedBy(ops, k + 1, u) ==> KeyOf(cfg, cached[u]) in s'
    {
      PresenceStep(cfg, cached, target, ops, k, s, u);
    }
  }

  lemma OperationId(op: Op)
    requires !op.SkipOp? && !op.DropRefOp?
    ensures IdOf(op) == op.o.id
  {
  }

  lemma NotBefore(cfg: Config, cached: Cache, target: Cache, ops: seq<Op>, k: nat)
    requires Separate(ops) && k < |ops| && forall i | 0 <= i < |ops| :: Fits(cfg, cached, target, ops[i])
    ensures IsFirst(ops, k)
  {
    hide IdOf;
    if !ops[k].SkipOp? {
      assert Fits(cfg, cached, target, ops[k]);
      forall i | 0 <= i < k ensures !Changes(ops[i], IdOf(ops[k])) && !Dropped(IdOf(ops[k]), ops[i]) {
        assert Fits(cfg, cached, target, ops[i]) && !Clash(ops[i], ops[k]);
        if !ops[i].SkipOp? { OperationId(ops[i]); }
      }
    }
  }

  lemma {:induction false} MidwayThroughout(cfg: Config, cached: Cache, target: Cache, ops: seq<Op>, k: nat)
    requires FaultFree(cfg.network) && Separate(ops) && k <= |ops| && IdKeyed(cached) && IdKeyed(target)
    requires forall i | 0 <= i < |ops| :: Fits(cfg, cached, target, ops[i])
    ensures var st := Execute(cfg, ops[..k], Start(Mirror(cfg, cached)));
            !st.link.aborted && Midway(cfg, cached, target, ops, k, st.link.server)
  {
    hide ExecuteOne, Mirror, FaultFree, Effect, Fits;
    var start := Start(Mirror(cfg, cached));
    if k == 0 {
      forall key: ResourceKey | key in start.link.server
        ensures KeyExplained(cfg, cached, target, ops, 0, start.link.server, key)
      {
        MirrorAt(cfg, cached, key);
      }
      forall u | u in cached ensures KeyOf(cfg, cached[u]) in start.link.server {
        MirrorAt(cfg, cached, KeyOf(cfg, cached[u]));
      }
    } else {
      MidwayThroughout(cfg, cached, target, ops, k - 1);
      var st := Execute(cfg, ops[..k - 1], start);
      assert ops[..k][..k - 1] == ops[..k - 1];
      HealthyEffect(cfg, cached, target, ops[k - 1], st);
      MidwayStep(cfg, cached, target, ops, k - 1, st.link.server);
    }
  }

  lemma MirrorAt(cfg: Config, m: Cache, k: ResourceKey)
    requires IdKeyed(m)
    ensures k in Mirror(cfg, m) <==> k.id in m && k == KeyOf(cfg, m[k.id])
    ensures k in Mirror(cfg, m) ==> Mirror(cfg, m)[k] == m[k.id].json
  {
    MirrorKeys(cfg, m, k);
  }

  // ---------- the order of the plan ----------

  lemma {:induction false} ChangesSplit(task: Task, types: seq<string>, n: nat)
    requires n <= |types|
    ensures AllChanges(task, types) == AllChanges(task, types[..n]) + AllChanges(task, types[n..])
  {
    hide ChangesUnder;
    if n == 0 {
      assert types[0..] == types;
    } else {
      ChangesSplit(task, types[1..], n - 1);
      assert types[..n][1..] == types[1..][..n - 1] && types[1..][n - 1..] == types[n..];
    }
  }

  lemma {:induction false} DropsSplit(task: Task, types: seq<string>, n: nat)
    requires n <= |types|
    ensures AllDrops(task, types) == AllDrops(task, types[..n]) + AllDrops(task, types[n..])
  {
    hide Drops, Entries;
    if n == 0 {
      assert types[0..] == types;
    } else {
      DropsSplit(task, types[1..], n - 1);
      assert types[..n][1..] == types[1..][..n - 1] && types[1..][n - 1..] == types[n..];
    }
  }

  lemma NotAmongEarlier(types: seq<string>, n: nat)
    requires Distinct(types) && n < |types|
    ensures types[n] !in types[..n]
    ensures forall m | 0 <= m < n :: types[m] in types[..n]
  {
    forall m | 0 <= m < n ensures types[m] in types[..n] {
      assert types[..n][m] == types[m];
    }
  }

  /** No id has moved, and no cached type is left unattended. */
  ghost predicate Attentive(cfg: Config, task: Task) {
    !task.rebuild && WellFormed(cfg, task) && InPlace(cfg, task) && AllHandled(cfg, task.cached)
  }

  lemma TargetFacts(cfg: Config, task: Task, u: string)
    requires Attentive(cfg, task) && u in Target(cfg, task)
    ensures Current(cfg, task, Target(cfg, task)[u].typ, u) && Target(cfg, task)[u].id == u
    ensures Changes(Classify(task, u), u)
  {
    assert CurrentId(cfg, task, u);
    var t :| Current(cfg, task, t, u);
    if u in task.cached {
      assert task.cached[u].id == u && StaysPut(cfg, task, t, u);
    }
  }

  lemma ChangeIsFor(cfg: Config, task: Task, t: string, v: string, u: string)
    requires WellFormed(cfg, task) && Current(cfg, task, t, v) && Changes(Classify(task, v), u)
    ensures u == v
  {
  }

  /** A change comes after all changes of earlier types. */
  lemma ChangeComesLate(cfg: Config, task: Task, u: string, n: nat, i: nat)
    requires Attentive(cfg, task) && u in Target(cfg, task)
    requires n < |cfg.types| && cfg.types[n] == Target(cfg, task)[u].typ
    requires i < |AllChanges(task, cfg.types)| && Changes(AllChanges(task, cfg.types)[i], u)
    ensures |AllChanges(task, cfg.types[..n])| <= i
  {
    hide Classify, AllChanges, Current, Target, InPlace, AllHandled;
    var early := AllChanges(task, cfg.types[..n]);
    ChangesSplit(task, cfg.types, n);
    NotAmongEarlier(cfg.types, n);
    if i < |early| {
      AllChangesFrom(cfg, task, cfg.types[..n]);
      assert ChangeFrom(cfg, task, cfg.types[..n], early[i]);
      var t, v :| t in cfg.types[..n] && Current(cfg, task, t, v) && early[i] == Classify(task, v);
      ChangeIsFor(cfg, task, t, v, u);
      TargetFacts(cfg, task, u);
      assert false;
    }
  }

  lemma ChangeComesEarly(cfg: Config, task: Task, r: string, m: nat, n: nat) returns (j: nat)
    requires Attentive(cfg, task) && r in Target(cfg, task)
    requires m < n < |cfg.types| && cfg.types[m] == Target(cfg, task)[r].typ
    ensures j < |AllChanges(task, cfg.types[..n])| <= |AllChanges(task, cfg.types)|
    ensures Changes(AllChanges(task, cfg.types)[j], r)
  {
    hide Classify, AllChanges, Changes, Attentive, Target;
    var early := AllChanges(task, cfg.types[..n]);
    ChangesSplit(task, cfg.types, n);
    assert cfg.types[..n][m] == cfg.types[m];
    TargetFacts(cfg, task, r);
    AllChangesCover(cfg, task, cfg.types[..n], Target(cfg, task)[r].typ, r);
    j :| 0 <= j < |early| && early[j] == Classify(task, r);
  }

  /** Whatever a sent object refers to has been sent before it. */
  lemma ReferencesSentFirst(cfg: Config, task: Task, refs: References, k: nat, u: string, r: string)
    requires ReferencePremises(cfg, task, refs) && k <= |Plan(cfg, task)|
    requires var target := Target(cfg, task);
      Done(Plan(cfg, task), k, u) && u in target && r in refs(target[u].json)
    ensures r in Target(cfg, task) && Done(Plan(cfg, task), k, r)
  {
    hide AllChanges, AllDrops, WellFormed, InPlace, AllHandled, FaultFree, Changes, Target;
    var ops, a, target := Plan(cfg, task), AllChanges(task, cfg.types), Target(cfg, task);
    assert RefersBackwards(refs, cfg.types, target, u);
    var i :| 0 <= i < k && Changes(ops[i], u);
    var m, n :| 0 <= m < n < |cfg.types| && cfg.types[m] == target[r].typ && cfg.types[n] == target[u].typ;
    if i < |a| {
      ChangeComesLate(cfg, task, u, n, i);
      var j := ChangeComesEarly(cfg, task, r, m, n);
      assert j < i && Changes(ops[j], r);
    } else {
      DropsAreNotChanges(cfg, task, i, u);
    }
  }

  lemma DropsAreNotChanges(cfg: Config, task: Task, i: nat, u: string)
    requires WellFormed(cfg, task) && !task.rebuild && |AllChanges(task, cfg.types)| <= i < |Plan(cfg, task)|
    ensures Plan(cfg, task)[i].DropOp? && Gone(task, cfg.types, Plan(cfg, task)[i].o)
    ensures !Changes(Plan(cfg, task)[i], u)
  {
    hide AllChanges, AllDrops, WellFormed, Gone;
    var a, b := AllChanges(task, cfg.types), AllDrops(task, Reverse(cfg.types));
    ReverseTypes(cfg.types);
    TypesDistinct(cfg, task);
    AllDropsFrom(task, Reverse(cfg.types));
    assert Plan(cfg, task)[i] == b[i - |a|] && b[i - |a|].DropOp?;
    assert Gone(task, Reverse(cfg.types), b[i - |a|].o);
    GoneSame(task, Reverse(cfg.types), cfg.types, b[i - |a|].o);
  }

  lemma TypesDistinct(cfg: Config, task: Task)
    requires WellFormed(cfg, task)
    ensures Distinct(cfg.types) && IdKeyed(task.cached)
  {
  }

  lemma TargetKeyed(cfg: Config, task: Task)
    requires Attentive(cfg, task)
    ensures IdKeyed(Target(cfg, task))
  {
    hide Attentive;
    forall u | u in Target(cfg, task) ensures Target(cfg, task)[u].id == u {
      TargetFacts(cfg, task, u);
    }
  }

  lemma GoneSame(task: Task, a: seq<string>, b: seq<string>, o: RenderedObject)
    requires Gone(task, a, o) && forall t | t in a :: t in b
    ensures Gone(task, b, o)
  {
  }

  /** A delete comes after all deletes of later types. */
  lemma DropComesLate(task: Task, types: seq<string>, r: string, n: nat, i: nat)
    requires IdKeyed(task.cached) && Distinct(types) && r in task.cached && n < |types|
        && types[n] == task.cached[r].typ
    requires i < |AllDrops(task, types)| && Dropped(r, AllDrops(task, types)[i])
    ensures |AllDrops(task, types[..n])| <= i
  {
    hide AllDrops;
    var early := AllDrops(task, types[..n]);
    DropsSplit(task, types, n);
    NotAmongEarlier(types, n);
    if i < |early| {
      assert Distinct(types[..n]);
      AllDropsFrom(task, types[..n]);
      assert false;
    }
  }

  lemma DropComesEarly(task: Task, types: seq<string>, o: RenderedObject, m: nat, n: nat) returns (j: nat)
    requires IdKeyed(task.cached) && m < n < |types| && types[m] == o.typ && Gone(task, types, o)
    ensures j < |AllDrops(task, types[..n])| <= |AllDrops(task, types)| && AllDrops(task, types)[j] == DropOp(o)
  {
    hide AllDrops;
    var early := AllDrops(task, types[..n]);
    DropsSplit(task, types, n);
    assert types[..n][m] == types[m];
    assert Gone(task, types[..n], o);
    AllDropsCover(task, types[..n], o);
    j :| 0 <= j < |early| && early[j] == DropOp(o);
  }

  /** Deletes run through the types backwards: a referrer goes before what it refers to. */
  lemma ReferrerGoesFirst(cfg: Config, task: Task, k: nat, o: RenderedObject, r: string)
    requires WellFormed(cfg, task) && !task.rebuild && k <= |Plan(cfg, task)|
    requires Gone(task, cfg.types, o) && r in task.cached && Earlier(cfg.types, task.cached[r].typ, o.typ)
    requires DroppedBy(Plan(cfg, task), k, r)
    ensures DroppedBy(Plan(cfg, task), k, o.id)
  {
    hide AllChanges, AllDrops, WellFormed, Reverse, Gone;
    var ops, a := Plan(cfg, task), AllChanges(task, cfg.types);
    var types := Reverse(cfg.types);
    var b := AllDrops(task, types);
    TypesDistinct(cfg, task);
    ReverseTypes(cfg.types);
    GoneSame(task, cfg.types, types, o);
    var i :| 0 <= i < k && Dropped(r, ops[i]);
    if i < |a| {
      ChangesAreNotDrops(cfg, task, i);
    } else {
      var m, n :| 0 <= m < n < |cfg.types| && cfg.types[m] == task.cached[r].typ && cfg.types[n] == o.typ;
      var m', n' := |types| - 1 - m, |types| - 1 - n;
      assert types[m'] == cfg.types[m] && types[n'] == cfg.types[n];
      assert ops[i] == b[i - |a|];
      DropComesLate(task, types, r, m', i - |a|);
      var j := DropComesEarly(task, types, o, n', m');
      assert ops[|a| + j] == DropOp(o) && Dropped(o.id, ops[|a| + j]);
    }
  }

  /** Once a delete has been sent, every current object has been dealt with. */
  lemma DeletesComeLast(cfg: Config, task: Task, refs: References, k: nat, u: string, r: string)
    requires ReferencePremises(cfg, task, refs) && k <= |Plan(cfg, task)|
    requires DroppedBy(Plan(cfg, task), k, r)
    requires u in task.cached
    ensures Gone(task, cfg.types, task.cached[u]) || Done(Plan(cfg, task), k, u)
  {
    hide AllChanges, AllDrops, FaultFree, ReferenceClosed;
    var ops, a, o := Plan(cfg, task), AllChanges(task, cfg.types), task.cached[u];
    var d :| 0 <= d < k && Dropped(r, ops[d]);
    if d < |a| { ChangesAreNotDrops(cfg, task, d); }
    if u in ListedUnder(task.current, o.typ) {
      assert Current(cfg, task, o.typ, u);
      TargetFacts(cfg, task, u);
      AllChangesCover(cfg, task, cfg.types, o.typ, u);
      var i :| 0 <= i < |a| && a[i] == Classify(task, u);
      assert ops[i] == a[i] && Changes(ops[i], u);
    }
  }

  /** While an old object is still on the server, nothing that it refers to has been deleted. */
  lemma ReferrersDroppedFirst(cfg: Config, task: Task, refs: References, k: nat, u: string, r: string)
    requires ReferencePremises(cfg, task, refs) && k <= |Plan(cfg, task)|
    requires u in task.cached && r in refs(task.cached[u].json)
    requires !Done(Plan(cfg, task), k, u) && !DroppedBy(Plan(cfg, task), k, u)
    ensures r in task.cached && !DroppedBy(Plan(cfg, task), k, r)
  {
    hide Plan, InPlace, FaultFree, Done, DroppedBy, ReferenceClosed;
    ClosedIn(cfg, task, refs, u);
    TypesDistinct(cfg, task);
    if DroppedBy(Plan(cfg, task), k, r) {
      DeletesComeLast(cfg, task, refs, k, u, r);
      ReferrerGoesFirst(cfg, task, k, task.cached[u], r);
    }
  }

  lemma ClosedIn(cfg: Config, task: Task, refs: References, u: string)
    requires ReferencePremises(cfg, task, refs) && u in task.cached
    ensures RefersBackwards(refs, cfg.types, task.cached, u)
  {
  }

  lemma ChangesAreNotDrops(cfg: Config, task: Task, i: nat)
    requires WellFormed(cfg, task) && i < |AllChanges(task, cfg.types)|
    ensures !Plan(cfg, task)[i].DropOp?
  {
    hide AllChanges, Classify, AllDrops, AllRefDrops;
    var a := AllChanges(task, cfg.types);
    AllChangesFrom(cfg, task, cfg.types);
    assert ChangeFrom(cfg, task, cfg.types, a[i]);
    var t, v :| t in cfg.types && Current(cfg, task, t, v) && a[i] == Classify(task, v);
    ClassifiedId(cfg, task, t, v);
  }

  // ---------- the main result ----------

  lemma PlanFits(cfg: Config, task: Task)
    requires Attentive(cfg, task)
    ensures forall i | 0 <= i < |Plan(cfg, task)| :: Fits(cfg, task.cached, Target(cfg, task), Plan(cfg, task)[i])
  {
    hide Plan, Target;
    var ops := Plan(cfg, task);
    NoRefDrops(cfg, task);
    forall i | 0 <= i < |ops| ensures Fits(cfg, task.cached, Target(cfg, task), ops[i]) {
      assert PlannedNormally(cfg, task, ops[i]);
      if ops[i].DropOp? && Gone(task, cfg.types, ops[i].o) {
        DroppedIsNoTarget(cfg, task, ops[i].o);
      } else {
        var t, u :| t in cfg.types && Current(cfg, task, t, u) && ops[i] == Classify(task, u);
        ChangeFits(cfg, task, t, u);
      }
    }
  }

  lemma ChangeFits(cfg: Config, task: Task, t: string, u: string)
    requires Attentive(cfg, task) && Current(cfg, task, t, u)
    ensures Fits(cfg, task.cached, Target(cfg, task), Classify(task, u))
  {
    assert CurrentId(cfg, task, u);
    assert u in task.cached ==> StaysPut(cfg, task, t, u);
  }

  lemma DroppedIsNoTarget(cfg: Config, task: Task, o: RenderedObject)
    requires Attentive(cfg, task) && Gone(task, cfg.types, o)
    ensures o.id !in Target(cfg, task)
  {
    hide Target;
    if o.id in Target(cfg, task) {
      TargetFacts(cfg, task, o.id);
      GoneIsNotCurrent(cfg, task, Target(cfg, task)[o.id].typ, o.id, o);
    }
  }

  /** Starting from a server that equals a reference-closed cache, and with reference-closed new data, the
      server is reference-closed after every single request of a fault-free run. */
  lemma NoDanglingReferences(cfg: Config, task: Task, refs: References, sofar: seq<Op>)
    requires ReferencePremises(cfg, task, refs) && sofar <= Plan(cfg, task)
    ensures ServerClosed(refs, Execute(cfg, sofar, Start(Mirror(cfg, task.cached))).link.server)
  {
    hide Plan, Execute, WellFormed, InPlace, FaultFree, Done, DroppedBy, Mirror, Target, AllHandled, Fits;
    var ops, k, target := Plan(cfg, task), |sofar|, Target(cfg, task);
    assert ops[..k] == sofar;
    TypesDistinct(cfg, task);
    TargetKeyed(cfg, task);
    PlanFits(cfg, task);
    NormalPlanSeparate(cfg, task);
    MidwayThroughout(cfg, task.cached, target, ops, k);
    var s := Execute(cfg, ops[..k], Start(Mirror(cfg, task.cached))).link.server;
    forall key: ResourceKey, r | key in s && r in refs(s[key]) ensures HoldsId(s, r) {
      assert KeyExplained(cfg, task.cached, target, ops, k, s, key);
      if Done(ops, k, key.id) {
        ReferencesSentFirst(cfg, task, refs, k, key.id, r);
        assert KeyOf(cfg, target[r]) in s && KeyOf(cfg, target[r]).id == r;
      } else {
        ReferrersDroppedFirst(cfg, task, refs, k, key.id, r);
        assert KeyOf(cfg, task.cached[r]) in s && KeyOf(cfg, task.cached[r]).id == r;
      }
    }
  }
}
