/** What a plan contains: which ids it touches, and that it touches each of them once. */
module SyncPlan {
  import opened Ordering
  import opened RenderedObjects
  import opened Sync

  // ---------- what the source demands of its inputs ----------

  ghost predicate Current(cfg: Config, task: Task, typ: string, uid: string) {
    typ in cfg.types && uid in ListedUnder(task.current, typ)
  }

  ghost predicate CurrentId(cfg: Config, task: Task, uid: string) {
    exists typ :: Current(cfg, task, typ, uid)
  }

  /** Ids are non-empty and unique across types, every rendering has its object's id and type, each type is
      sent once, and the old cache is keyed by id. */
  ghost predicate WellFormed(cfg: Config, task: Task) {
    && Distinct(cfg.types)
    && IdKeyed(task.cached) && "" !in task.cached
    && (forall t1, t2, u | Current(cfg, task, t1, u) && Current(cfg, task, t2, u) :: t1 == t2)
    && (forall t, u | Current(cfg, task, t, u) ::
        u != "" && (u in task.pre ==> task.pre[u].id == u && task.pre[u].typ == t))
    && (forall u | u in task.pre :: CurrentId(cfg, task, u))
  }

  /** No id that is both cached and current has moved: neither to another type that is handled in the same
      run, nor to another endpoint while it has to be updated. */
  ghost predicate InPlace(cfg: Config, task: Task) {
    forall t, u | Current(cfg, task, t, u) && u in task.cached :: StaysPut(cfg, task, t, u)
  }

  ghost predicate StaysPut(cfg: Config, task: Task, t: string, u: string)
    requires u in task.cached
  {
    var was := task.cached[u].typ;
    was == t || (was !in cfg.types && (cfg.endpoint(was) == cfg.endpoint(t) || u !in task.pre))
  }

  // ---------- the ids of operations ----------

  function IdOf(op: Op): string {
    match op
    case CopyOp(o) => o.id
    case PostOp(o) => o.id
    case PutOp(o) => o.id
    case SkipOp => ""
    case DropOp(o) => o.id
    case DropRefOp(ref) => ref.uuid
  }

  ghost predicate Clash(a: Op, b: Op) {
    !a.SkipOp? && !b.SkipOp? && IdOf(a) == IdOf(b) && !(a.DropRefOp? && b.DropRefOp?)
  }

  /** No two operations concern the same id, except that an id may be deleted at several endpoints. */
  ghost predicate Separate(ops: seq<Op>) {
    forall i, j | 0 <= i < j < |ops| :: !Clash(ops[i], ops[j])
  }

  ghost predicate Apart(a: seq<Op>, b: seq<Op>) {
    forall i, j | 0 <= i < |a| && 0 <= j < |b| :: !Clash(a[i], b[j])
  }

  lemma SeparateAppend(a: seq<Op>, b: seq<Op>)
    requires Separate(a) && Separate(b) && Apart(a, b)
    ensures Separate(a + b)
  {
    hide Clash;
  }

  // ---------- where operations come from ----------

  lemma {:induction false} ChangesAt(task: Task, uids: seq<string>)
    ensures |ChangesOf(task, uids)| == |uids|
    ensures forall i | 0 <= i < |uids| :: ChangesOf(task, uids)[i] == Classify(task, uids[i])
  {
    hide Classify;
    if uids != [] { ChangesAt(task, uids[1..]); }
  }

  /** `op` is what is to be done for a current object of one of the given types. */
  ghost predicate ChangeFrom(cfg: Config, task: Task, types: seq<string>, op: Op) {
    exists t, u :: t in types && Current(cfg, task, t, u) && op == Classify(task, u)
  }

  ghost predicate OnlyChanges(cfg: Config, task: Task, types: seq<string>, ops: seq<Op>) {
    forall i | 0 <= i < |ops| :: ChangeFrom(cfg, task, types, ops[i])
  }

  /** The changes of one type are the classified operations of its objects, each uid once. */
  lemma ChangesUnderAt(task: Task, t: string) returns (uids: seq<string>)
    ensures Distinct(uids) && forall u :: u in uids <==> u in ListedUnder(task.current, t)
    ensures ChangesUnder(task, t) == ChangesOf(task, uids) && |ChangesUnder(task, t)| == |uids|
    ensures forall i | 0 <= i < |uids| :: ChangesUnder(task, t)[i] == Classify(task, uids[i])
  {
    hide Classify, InOrder, ChangesOf;
    uids := SortedKeys(ListedUnder(task.current, t));
    ChangesAt(task, uids);
  }

  lemma ChangesUnderFrom(cfg: Config, task: Task, types: seq<string>, t: string)
    requires t in types && t in cfg.types
    ensures OnlyChanges(cfg, task, types, ChangesUnder(task, t))
  {
    hide Classify, ChangesUnder, ChangesOf;
    var uids := ChangesUnderAt(task, t);
    forall i | 0 <= i < |uids| ensures ChangeFrom(cfg, task, types, ChangesUnder(task, t)[i]) {
      assert Current(cfg, task, t, uids[i]);
    }
  }

  lemma OnlyChangesWider(cfg: Config, task: Task, a: seq<string>, b: seq<string>, ops: seq<Op>)
    requires OnlyChanges(cfg, task, a, ops) && forall t | t in a :: t in b
    ensures OnlyChanges(cfg, task, b, ops)
  {
    hide Classify, Current;
    forall i | 0 <= i < |ops| ensures ChangeFrom(cfg, task, b, ops[i]) {
      assert ChangeFrom(cfg, task, a, ops[i]);
      var t, u :| t in a && Current(cfg, task, t, u) && ops[i] == Classify(task, u);
      assert t in b;
    }
  }

  lemma OnlyChangesAppend(cfg: Config, task: Task, types: seq<string>, a: seq<Op>, b: seq<Op>)
    requires OnlyChanges(cfg, task, types, a) && OnlyChanges(cfg, task, types, b)
    ensures OnlyChanges(cfg, task, types, a + b)
  {
    hide ChangeFrom;
  }

  lemma {:induction false} AllChangesFrom(cfg: Config, task: Task, types: seq<string>)
    requires forall t | t in types :: t in cfg.types
    ensures OnlyChanges(cfg, task, types, AllChanges(task, types))
  {
    hide ChangesUnder, OnlyChanges;
    if types == [] {
      NoChanges(cfg, task);
    } else {
      var a, b := ChangesUnder(task, types[0]), AllChanges(task, types[1..]);
      AllChangesFrom(cfg, task, types[1..]);
      OnlyChangesWider(cfg, task, types[1..], types, b);
      ChangesUnderFrom(cfg, task, types, types[0]);
      OnlyChangesAppend(cfg, task, types, a, b);
    }
  }

  lemma NoChanges(cfg: Config, task: Task)
    ensures OnlyChanges(cfg, task, [], [])
  {
  }

  lemma ClassifiedId(cfg: Config, task: Task, t: string, u: string)
    requires WellFormed(cfg, task) && Current(cfg, task, t, u)
    ensures Classify(task, u).SkipOp? || IdOf(Classify(task, u)) == u
    ensures !Classify(task, u).DropOp? && !Classify(task, u).DropRefOp?
  {
  }

  lemma ChangesSeparate(cfg: Config, task: Task, t: string, uids: seq<string>)
    requires WellFormed(cfg, task) && Distinct(uids)
    requires forall i | 0 <= i < |uids| :: Current(cfg, task, t, uids[i])
    ensures Separate(ChangesOf(task, uids))
  {
    hide Classify, IdOf, WellFormed, Current;
    var ops := ChangesOf(task, uids);
    ChangesAt(task, uids);
    forall i, j | 0 <= i < j < |ops| ensures !Clash(ops[i], ops[j]) {
      ClassifiedId(cfg, task, t, uids[i]);
      ClassifiedId(cfg, task, t, uids[j]);
      assert uids[i] != uids[j];
    }
  }

  lemma ChangesApart(cfg: Config, task: Task, t: string, types: seq<string>, ops: seq<Op>)
    requires WellFormed(cfg, task) && t in cfg.types && t !in types && OnlyChanges(cfg, task, types, ops)
    ensures Apart(ChangesUnder(task, t), ops)
  {
    hide Classify, IdOf, ChangesUnder, ChangesOf;
    var a := ChangesUnder(task, t);
    var uids := ChangesUnderAt(task, t);
    forall i, j | 0 <= i < |a| && 0 <= j < |ops| ensures !Clash(a[i], ops[j]) {
      assert Current(cfg, task, t, uids[i]);
      assert ChangeFrom(cfg, task, types, ops[j]);
      var t', u :| t' in types && Current(cfg, task, t', u) && ops[j] == Classify(task, u);
      ClassifiedId(cfg, task, t, uids[i]);
      ClassifiedId(cfg, task, t', u);
    }
  }

  lemma ChangesUnderSeparate(cfg: Config, task: Task, t: string)
    requires WellFormed(cfg, task) && t in cfg.types
    ensures Separate(ChangesUnder(task, t))
  {
    hide Classify, ChangesUnder, ChangesOf, WellFormed, Separate;
    var uids := ChangesUnderAt(task, t);
    assert forall i | 0 <= i < |uids| :: Current(cfg, task, t, uids[i]);
    ChangesSeparate(cfg, task, t, uids);
  }

  lemma {:induction false} AllChangesSeparate(cfg: Config, task: Task, types: seq<string>)
    requires WellFormed(cfg, task) && Distinct(types)
    requires forall t | t in types :: t in cfg.types
    ensures Separate(AllChanges(task, types))
  {
    hide ChangesUnder, Apart, OnlyChanges, WellFormed;
    if types != [] {
      var a, b := ChangesUnder(task, types[0]), AllChanges(task, types[1..]);
      assert Distinct(types[1..]);
      AllChangesSeparate(cfg, task, types[1..]);
      ChangesUnderSeparate(cfg, task, types[0]);
      AllChangesFrom(cfg, task, types[1..]);
      ChangesApart(cfg, task, types[0], types[1..], b);
      SeparateAppend(a, b);
    }
  }

  /** The operation is among the changes. */
  ghost predicate Among(ops: seq<Op>, op: Op) {
    exists i :: 0 <= i < |ops| && ops[i] == op
  }

  lemma AmongAppend(a: seq<Op>, b: seq<Op>, op: Op)
    requires Among(a, op) || Among(b, op)
    ensures Among(a + b, op)
  {
    if Among(a, op) {
      var i :| 0 <= i < |a| && a[i] == op;
      assert (a + b)[i] == op;
    } else {
      var i :| 0 <= i < |b| && b[i] == op;
      assert (a + b)[|a| + i] == op;
    }
  }

  lemma ChangeUnder(task: Task, t: string, u: string)
    requires u in ListedUnder(task.current, t)
    ensures Among(ChangesUnder(task, t), Classify(task, u))
  {
    hide Classify, ChangesUnder, ChangesOf;
    var uids := ChangesUnderAt(task, t);
    var i :| 0 <= i < |uids| && uids[i] == u;
    assert ChangesUnder(task, t)[i] == Classify(task, u);
  }

  lemma {:induction false} AllChangesInclude(task: Task, types: seq<string>, t: string, u: string)
    requires t in types && u in ListedUnder(task.current, t)
    ensures Among(AllChanges(task, types), Classify(task, u))
  {
    hide Classify, ChangesUnder, Among;
    if t == types[0] {
      ChangeUnder(task, t, u);
    } else {
      assert t in types[1..];
      AllChangesInclude(task, types[1..], t, u);
    }
    AmongAppend(ChangesUnder(task, types[0]), AllChanges(task, types[1..]), Classify(task, u));
  }

  /** Every current object gets its operation. */
  lemma AllChangesCover(cfg: Config, task: Task, types: seq<string>, t: string, u: string)
    requires t in types && u in ListedUnder(task.current, t)
    ensures exists i :: 0 <= i < |AllChanges(task, types)| && AllChanges(task, types)[i] == Classify(task, u)
  {
    hide Classify, AllChanges;
    AllChangesInclude(task, types, t, u);
  }

  // ---------- deletes ----------

  ghost predicate Gone(task: Task, types: seq<string>, o: RenderedObject) {
    o.id in task.cached && o == task.cached[o.id] && o.typ in types && o.id !in ListedUnder(task.current, o.typ)
  }

  ghost predicate OnlyDrops(task: Task, types: seq<string>, ops: seq<Op>) {
    forall i | 0 <= i < |ops| :: ops[i].DropOp? && Gone(task, types, ops[i].o)
  }

  lemma {:induction false} DropsFrom(task: Task, es: seq<RenderedObject>, typ: string)
    requires forall i | 0 <= i < |es| :: es[i].id in task.cached && task.cached[es[i].id] == es[i]
    requires forall i, j | 0 <= i < j < |es| :: es[i].id != es[j].id
    ensures OnlyDrops(task, [typ], Drops(es, ListedUnder(task.current, typ), typ))
    ensures Separate(Drops(es, ListedUnder(task.current, typ), typ))
    ensures forall i | 0 <= i < |Drops(es, ListedUnder(task.current, typ), typ)| ::
              exists j :: 0 <= j < |es| && Drops(es, ListedUnder(task.current, typ), typ)[i].o == es[j]
  {
    if es != [] {
      var rest := Drops(es[1..], ListedUnder(task.current, typ), typ);
      DropsFrom(task, es[1..], typ);
      var all := Drops(es, ListedUnder(task.current, typ), typ);
      var n := |all| - |rest|;
      assert forall i | n <= i < |all| :: all[i] == rest[i - n];
      forall i | 0 <= i < |all| ensures exists j :: 0 <= j < |es| && all[i].o == es[j] {
        if i < n {
          assert all[i].o == es[0];
        } else {
          var j :| 0 <= j < |es[1..]| && rest[i - n].o == es[1..][j];
          assert all[i].o == es[j + 1];
        }
      }
    }
  }

  lemma {:induction false} DropsCover(es: seq<RenderedObject>, listed: set<string>, typ: string, k: nat)
    requires k < |es| && es[k].typ == typ && es[k].id !in listed
    ensures exists i :: 0 <= i < |Drops(es, listed, typ)| && Drops(es, listed, typ)[i] == DropOp(es[k])
  {
    var rest := Drops(es[1..], listed, typ);
    if k > 0 {
      DropsCover(es[1..], listed, typ, k - 1);
      var i :| 0 <= i < |rest| && rest[i] == DropOp(es[k]);
      assert Drops(es, listed, typ)[|Drops(es, listed, typ)| - |rest| + i] == DropOp(es[k]);
    } else {
      assert Drops(es, listed, typ)[0] == DropOp(es[0]);
    }
  }

  lemma {:induction false} AllDropsFrom(task: Task, types: seq<string>)
    requires IdKeyed(task.cached) && Distinct(types)
    ensures OnlyDrops(task, types, AllDrops(task, types))
    ensures Separate(AllDrops(task, types))
  {
    hide Drops, Entries;
    if types != [] {
      var a := Drops(Entries(task.cached), ListedUnder(task.current, types[0]), types[0]);
      var b := AllDrops(task, types[1..]);
      assert Distinct(types[1..]);
      EntriesExact(task.cached);
      DropsFrom(task, Entries(task.cached), types[0]);
      AllDropsFrom(task, types[1..]);
      var ops := a + b;
      forall i | 0 <= i < |ops| ensures ops[i].DropOp? && Gone(task, types, ops[i].o) {
        if i >= |a| { assert ops[i] == b[i - |a|] && b[i - |a|].DropOp?; }
      }
      forall i, j | 0 <= i < |a| && 0 <= j < |b| ensures !Clash(a[i], b[j]) {
        assert a[i].DropOp? && b[j].DropOp?;
        assert types[0] !in types[1..];
      }
      SeparateAppend(a, b);
    }
  }

  lemma {:induction false} AllDropsCover(task: Task, types: seq<string>, o: RenderedObject)
    requires IdKeyed(task.cached) && Gone(task, types, o)
    ensures exists i :: 0 <= i < |AllDrops(task, types)| && AllDrops(task, types)[i] == DropOp(o)
  {
    hide Drops, Entries;
    var es := Entries(task.cached);
    var a, b := Drops(es, ListedUnder(task.current, types[0]), types[0]), AllDrops(task, types[1..]);
    var ops := AllDrops(task, types);
    assert ops == a + b;
    EntriesExact(task.cached);
    if o.typ == types[0] {
      var k :| 0 <= k < |es| && es[k].id == o.id;
      DropsCover(es, ListedUnder(task.current, types[0]), types[0], k);
      var i :| 0 <= i < |a| && a[i] == DropOp(o);
      assert ops[i] == DropOp(o);
    } else {
      assert o.typ in types[1..];
      AllDropsCover(task, types[1..], o);
      var i :| 0 <= i < |b| && b[i] == DropOp(o);
      assert ops[|a| + i] == DropOp(o);
    }
  }

  lemma ReverseTypes(types: seq<string>)
    ensures forall t :: t in Reverse(types) <==> t in types
    ensures Distinct(types) ==> Distinct(Reverse(types))
  {
    hide Reverse;
    var r := Reverse(types);
    forall t | t in types ensures t in r {
      var i :| 0 <= i < |types| && types[i] == t;
      assert r[|types| - 1 - i] == t;
    }
    forall t | t in r ensures t in types {
      var i :| 0 <= i < |r| && r[i] == t;
    }
  }

  // ---------- the normal plan ----------

  /** Every cached object that is gone gets its delete. */
  lemma DropPlannedFor(cfg: Config, task: Task, o: RenderedObject)
    requires IdKeyed(task.cached) && !task.rebuild && Gone(task, cfg.types, o)
    ensures exists k :: 0 <= k < |Plan(cfg, task)| && Plan(cfg, task)[k] == DropOp(o)
  {
    hide AllDrops, AllChanges;
    ReverseTypes(cfg.types);
    var a, b := AllChanges(task, cfg.types), AllDrops(task, Reverse(cfg.types));
    AllDropsCover(task, Reverse(cfg.types), o);
    var i :| 0 <= i < |b| && b[i] == DropOp(o);
    assert Plan(cfg, task)[|a| + i] == DropOp(o);
  }

  /** In a normal run every id gets at most one operation, as long as no id has moved. */
  lemma NormalPlanSeparate(cfg: Config, task: Task)
    requires WellFormed(cfg, task) && InPlace(cfg, task) && !task.rebuild
    ensures Separate(Plan(cfg, task))
  {
    hide Classify, AllDrops, AllChanges;
    var types := Reverse(cfg.types);
    var a, b := AllChanges(task, cfg.types), AllDrops(task, types);
    ReverseTypes(cfg.types);
    AllChangesSeparate(cfg, task, cfg.types);
    AllChangesFrom(cfg, task, cfg.types);
    AllDropsFrom(task, types);
    forall i, j | 0 <= i < |a| && 0 <= j < |b| ensures !Clash(a[i], b[j]) {
      assert ChangeFrom(cfg, task, cfg.types, a[i]);
      var t, u :| t in cfg.types && Current(cfg, task, t, u) && a[i] == Classify(task, u);
      ClassifiedId(cfg, task, t, u);
      assert b[j].DropOp? && Gone(task, types, b[j].o);
      assert b[j].o.id == u ==> StaysPut(cfg, task, t, u);
    }
    SeparateAppend(a, b);
  }

  /** The premises of a run do not depend on the network. */
  lemma OnlyNetwork(a: Config, b: Config, task: Task)
    requires b == a.(network := b.network) && WellFormed(a, task)
    ensures WellFormed(b, task)
    ensures InPlace(a, task) ==> InPlace(b, task)
    ensures forall t, u :: Current(a, task, t, u) <==> Current(b, task, t, u)
  {
    assert forall t, u :: Current(a, task, t, u) <==> Current(b, task, t, u);
    forall u | u in task.pre ensures CurrentId(b, task, u) {
      assert CurrentId(a, task, u);
      var t :| Current(a, task, t, u);
      assert Current(b, task, t, u);
    }
    if InPlace(a, task) {
      forall t, u | Current(b, task, t, u) && u in task.cached ensures StaysPut(b, task, t, u) {
        assert StaysPut(a, task, t, u);
      }
    }
  }
}
