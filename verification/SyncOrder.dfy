/** The order of the operations of a run, said by positions in the send order and in the listing. */
module SyncOrder {
  import opened Ordering
  import opened RenderedObjects
  import opened Sync
  import opened SyncPlan
  import opened SyncRebuild

  // ---------- the deletes of a rebuild ----------

  /** The last type in the send order that has the endpoint is number `n`. */
  predicate IsLast(cfg: Config, e: string, n: nat) {
    n < |cfg.types| && cfg.endpoint(cfg.types[n]) == e
    && forall m | n < m < |cfg.types| :: cfg.endpoint(cfg.types[m]) != e
  }

  /** Where the endpoint comes first in a list of types; the length of the list if it does not. */
  function First(cfg: Config, types: seq<string>, e: string): nat {
    if types == [] then 0 else if cfg.endpoint(types[0]) == e then 0 else 1 + First(cfg, types[1..], e)
  }

  lemma {:induction false} FirstIs(cfg: Config, types: seq<string>, e: string, k: nat)
    requires k < |types| && cfg.endpoint(types[k]) == e && forall m | 0 <= m < k :: cfg.endpoint(types[m]) != e
    ensures First(cfg, types, e) == k
  {
    if k > 0 {
      assert cfg.endpoint(types[0]) != e;
      forall m | 0 <= m < k - 1 ensures cfg.endpoint(types[1..][m]) != e {
        assert types[1..][m] == types[m + 1];
      }
      FirstIs(cfg, types[1..], e, k - 1);
    }
  }

  lemma LastIsFirst(cfg: Config, e: string, n: nat)
    requires IsLast(cfg, e, n)
    ensures First(cfg, Reverse(cfg.types), e) == |cfg.types| - 1 - n
  {
    hide Reverse;
    var r := Reverse(cfg.types);
    FirstIs(cfg, r, e, |r| - 1 - n);
  }

  lemma {:induction false} LastExists(cfg: Config, e: string, k: nat)
    requires k < |cfg.types| && cfg.endpoint(cfg.types[k]) == e
    ensures exists n: nat :: IsLast(cfg, e, n)
    decreases |cfg.types| - k
  {
    if m :| k < m < |cfg.types| && cfg.endpoint(cfg.types[m]) == e {
      LastExists(cfg, e, m);
    } else {
      assert IsLast(cfg, e, k);
    }
  }

  /** The endpoints come in the order of their first types, each once. */
  ghost predicate Rising(cfg: Config, types: seq<string>, seen: set<string>, es: seq<string>) {
    (forall a | 0 <= a < |es| :: es[a] !in seen && First(cfg, types, es[a]) < |types|)
    && forall a, b | 0 <= a < b < |es| :: First(cfg, types, es[a]) < First(cfg, types, es[b])
  }

  lemma {:induction false} EndpointsInOrder(cfg: Config, types: seq<string>, seen: set<string>)
    ensures Rising(cfg, types, seen, Endpoints(cfg, types, seen))
    decreases |types|
  {
    if types != [] {
      var e := cfg.endpoint(types[0]);
      if e in seen {
        EndpointsInOrder(cfg, types[1..], seen);
        RisingSeen(cfg, types, seen, Endpoints(cfg, types[1..], seen));
      } else {
        EndpointsInOrder(cfg, types[1..], seen + {e});
        RisingNew(cfg, types, seen, Endpoints(cfg, types[1..], seen + {e}));
      }
    }
  }

  lemma RisingSeen(cfg: Config, types: seq<string>, seen: set<string>, es: seq<string>)
    requires types != [] && cfg.endpoint(types[0]) in seen && Rising(cfg, types[1..], seen, es)
    ensures Rising(cfg, types, seen, es)
  {
    assert forall a | 0 <= a < |es| :: First(cfg, types, es[a]) == 1 + First(cfg, types[1..], es[a]);
  }

  lemma RisingNew(cfg: Config, types: seq<string>, seen: set<string>, rest: seq<string>)
    requires types != [] && cfg.endpoint(types[0]) !in seen
    requires Rising(cfg, types[1..], seen + {cfg.endpoint(types[0])}, rest)
    ensures Rising(cfg, types, seen, [cfg.endpoint(types[0])] + rest)
  {
    var es := [cfg.endpoint(types[0])] + rest;
    assert forall a | 0 <= a < |rest| :: First(cfg, types, rest[a]) == 1 + First(cfg, types[1..], rest[a]);
    assert forall a | 0 < a < |es| :: es[a] == rest[a - 1];
  }

  /** The surplus objects of an endpoint come in the order of the listing. */
  ghost predicate ListedBefore(listing: seq<ObjectRef>, a: ObjectRef, b: ObjectRef) {
    exists p, q :: 0 <= p < q < |listing| && listing[p] == a && listing[q] == b
  }

  ghost predicate ListingOrder(listing: seq<ObjectRef>, e: string, ops: seq<Op>) {
    (forall i | 0 <= i < |ops| :: ops[i].DropRefOp? && ops[i].ref.endpoint == e && ops[i].ref in listing)
    && forall i, j | 0 <= i < j < |ops| :: ListedBefore(listing, ops[i].ref, ops[j].ref)
  }

  lemma {:induction false} RefDropsInOrder(task: Task, listing: seq<ObjectRef>, e: string)
    ensures ListingOrder(listing, e, RefDrops(task, listing, e))
    decreases |listing|
  {
    hide HasObject, ListingOrder;
    if listing == [] {
      NothingListed(e);
    } else {
      RefDropsInOrder(task, listing[1..], e);
      OneMoreListed(listing, e, RefDrops(task, listing[1..], e));
    }
  }

  lemma NothingListed(e: string)
    ensures ListingOrder([], e, [])
  {
  }

  lemma OneMoreListed(listing: seq<ObjectRef>, e: string, rest: seq<Op>)
    requires listing != [] && ListingOrder(listing[1..], e, rest)
    ensures ListingOrder(listing, e, [] + rest)
    ensures listing[0].endpoint == e ==> ListingOrder(listing, e, [DropRefOp(listing[0])] + rest)
  {
    hide ListedBefore;
    forall i, j | 0 <= i < j < |rest| ensures ListedBefore(listing, rest[i].ref, rest[j].ref) {
      LaterListed(listing, rest[i].ref, rest[j].ref);
    }
    forall i | 0 <= i < |rest| ensures rest[i].ref in listing { assert rest[i].ref in listing[1..]; }
    assert [] + rest == rest;
    if listing[0].endpoint == e { OneMoreInFront(listing, e, rest); }
  }

  lemma OneMoreInFront(listing: seq<ObjectRef>, e: string, rest: seq<Op>)
    requires listing != [] && listing[0].endpoint == e && ListingOrder(listing, e, rest)
    requires forall i | 0 <= i < |rest| :: rest[i].DropRefOp? && rest[i].ref in listing[1..]
    ensures ListingOrder(listing, e, [DropRefOp(listing[0])] + rest)
  {
    hide ListedBefore;
    var all := [DropRefOp(listing[0])] + rest;
    assert forall i | 0 < i < |all| :: all[i] == rest[i - 1];
    forall j | 0 < j < |all| ensures ListedBefore(listing, all[0].ref, all[j].ref) {
      FirstListed(listing, rest[j - 1].ref);
    }
  }

  lemma FirstListed(listing: seq<ObjectRef>, b: ObjectRef)
    requires listing != [] && b in listing[1..]
    ensures ListedBefore(listing, listing[0], b)
  {
    var q :| 0 <= q < |listing[1..]| && listing[1..][q] == b;
    assert listing[q + 1] == b;
  }

  lemma LaterListed(listing: seq<ObjectRef>, a: ObjectRef, b: ObjectRef)
    requires listing != [] && ListedBefore(listing[1..], a, b)
    ensures ListedBefore(listing, a, b)
  {
    var p, q :| 0 <= p < q < |listing[1..]| && listing[1..][p] == a && listing[1..][q] == b;
    assert listing[p + 1] == a && listing[q + 1] == b;
  }

  /** Two deletes, in the order of their endpoints, or else in that of the listing. */
  ghost predicate Sorted(task: Task, es: seq<string>, a: Op, b: Op) {
    a.DropRefOp? && b.DropRefOp?
    && ((exists x, y :: 0 <= x < y < |es| && es[x] == a.ref.endpoint && es[y] == b.ref.endpoint)
        || (a.ref.endpoint in es && a.ref.endpoint == b.ref.endpoint && ListedBefore(task.listing, a.ref, b.ref)))
  }

  ghost predicate AllSorted(task: Task, es: seq<string>, ops: seq<Op>) {
    (forall i | 0 <= i < |ops| :: ops[i].DropRefOp? && ops[i].ref.endpoint in es)
    && forall i, j | 0 <= i < j < |ops| :: Sorted(task, es, ops[i], ops[j])
  }

  lemma {:induction false} AllRefDropsSorted(task: Task, es: seq<string>)
    ensures AllSorted(task, es, AllRefDrops(task, es))
    decreases |es|
  {
    hide RefDrops, Sorted;
    if es != [] {
      RefDropsInOrder(task, task.listing, es[0]);
      AllRefDropsSorted(task, es[1..]);
      OneMoreEndpoint(task, es, RefDrops(task, task.listing, es[0]), AllRefDrops(task, es[1..]));
    }
  }

  lemma OneMoreEndpoint(task: Task, es: seq<string>, a: seq<Op>, b: seq<Op>)
    requires es != [] && ListingOrder(task.listing, es[0], a) && AllSorted(task, es[1..], b)
    ensures AllSorted(task, es, a + b)
  {
    hide Sorted;
    var ops := a + b;
    forall i, j | 0 <= i < j < |ops| ensures Sorted(task, es, ops[i], ops[j]) {
      if |a| <= i {
        SortedLater(task, es, b[i - |a|], b[j - |a|]);
      } else if |a| <= j {
        SortedAcross(task, es, a[i], b[j - |a|]);
      } else {
        SortedWithin(task, es, a[i], a[j]);
      }
    }
  }

  lemma SortedAcross(task: Task, es: seq<string>, a: Op, b: Op)
    requires es != [] && a.DropRefOp? && a.ref.endpoint == es[0] && b.DropRefOp? && b.ref.endpoint in es[1..]
    ensures Sorted(task, es, a, b)
  {
    var y :| 0 <= y < |es[1..]| && es[1..][y] == b.ref.endpoint;
    assert es[y + 1] == b.ref.endpoint;
  }

  lemma SortedWithin(task: Task, es: seq<string>, a: Op, b: Op)
    requires es != [] && a.DropRefOp? && a.ref.endpoint == es[0] && b.DropRefOp? && b.ref.endpoint == es[0]
    requires ListedBefore(task.listing, a.ref, b.ref)
    ensures Sorted(task, es, a, b)
  {
    hide ListedBefore;
  }

  lemma SortedLater(task: Task, es: seq<string>, a: Op, b: Op)
    requires es != [] && Sorted(task, es[1..], a, b)
    ensures Sorted(task, es, a, b)
  {
    hide ListedBefore;
    if x, y :| 0 <= x < y < |es[1..]| && es[1..][x] == a.ref.endpoint && es[1..][y] == b.ref.endpoint {
      assert es[x + 1] == a.ref.endpoint && es[y + 1] == b.ref.endpoint;
    }
  }

  /** Any two deletes of a rebuild: first the endpoint whose last type is later in the send order, and under one
      endpoint the object that is listed first. */
  ghost predicate Backwards(cfg: Config, task: Task, a: Op, b: Op)
    requires a.DropRefOp? && b.DropRefOp?
  {
    (a.ref.endpoint == b.ref.endpoint && ListedBefore(task.listing, a.ref, b.ref))
    || exists m: nat, n: nat :: m > n && IsLast(cfg, a.ref.endpoint, m) && IsLast(cfg, b.ref.endpoint, n)
  }

  lemma LastOf(cfg: Config, e: string)
    requires e in Endpoints(cfg, Reverse(cfg.types), {})
    ensures exists n: nat :: IsLast(cfg, e, n)
  {
    hide Endpoints, Reverse, First;
    var r := Reverse(cfg.types);
    EndpointsInOrder(cfg, r, {});
    var k := FirstReached(cfg, r, e);
    assert r[k] == cfg.types[|r| - 1 - k];
    LastExists(cfg, e, |r| - 1 - k);
  }

  lemma {:induction false} FirstReached(cfg: Config, types: seq<string>, e: string) returns (k: nat)
    requires First(cfg, types, e) < |types|
    ensures k < |types| && cfg.endpoint(types[k]) == e
  {
    if cfg.endpoint(types[0]) == e {
      k := 0;
    } else {
      k := FirstReached(cfg, types[1..], e);
      assert types[1..][k] == types[k + 1];
      k := k + 1;
    }
  }

  lemma SortedIsBackwards(cfg: Config, task: Task, a: Op, b: Op)
    requires Sorted(task, Endpoints(cfg, Reverse(cfg.types), {}), a, b)
    ensures Backwards(cfg, task, a, b)
  {
    hide Endpoints, Reverse, First, IsLast, ListedBefore;
    var r := Reverse(cfg.types);
    var es := Endpoints(cfg, r, {});
    EndpointsInOrder(cfg, r, {});
    if x, y :| 0 <= x < y < |es| && es[x] == a.ref.endpoint && es[y] == b.ref.endpoint {
      LastOf(cfg, a.ref.endpoint);
      LastOf(cfg, b.ref.endpoint);
      var m :| IsLast(cfg, a.ref.endpoint, m);
      var n :| IsLast(cfg, b.ref.endpoint, n);
      LastIsFirst(cfg, a.ref.endpoint, m);
      LastIsFirst(cfg, b.ref.endpoint, n);
      assert m > n;
    }
  }

  /** A rebuild first creates and updates. Its deletes then run through the send order backwards, each endpoint
      being done once, with the last of its types. */
  lemma RebuildDeletesBackwards(cfg: Config, task: Task, i: nat, j: nat)
    requires task.rebuild && i < j < |Plan(cfg, task)| && Plan(cfg, task)[i].DropRefOp?
    ensures Plan(cfg, task)[j].DropRefOp? && Backwards(cfg, task, Plan(cfg, task)[i], Plan(cfg, task)[j])
  {
    hide AllChanges, AllRefDrops, Endpoints, Reverse, Backwards, Sorted;
    var es := Endpoints(cfg, Reverse(cfg.types), {});
    var a, b := AllChanges(task, cfg.types), AllRefDrops(task, es);
    NoDropsInChanges(task, cfg.types);
    AllRefDropsSorted(task, es);
    assert Plan(cfg, task)[i] == b[i - |a|] && Plan(cfg, task)[j] == b[j - |a|];
    SortedIsBackwards(cfg, task, b[i - |a|], b[j - |a|]);
  }

  ghost predicate NoDrops(ops: seq<Op>) {
    forall i | 0 <= i < |ops| :: !ops[i].DropRefOp? && !ops[i].DropOp?
  }

  lemma {:induction false} NoDropsInChanges(task: Task, types: seq<string>)
    ensures NoDrops(AllChanges(task, types))
  {
    hide ChangesUnder;
    if types != [] {
      NoDropsInChanges(task, types[1..]);
      NoDropsUnder(task, types[0]);
    }
  }

  lemma NoDropsUnder(task: Task, t: string)
    ensures NoDrops(ChangesUnder(task, t))
  {
    hide ChangesUnder, ChangesOf;
    var uids := ChangesUnderAt(task, t);
  }

  /** With a listing without repeats, no delete is sent twice. */
  lemma RebuildDeletesOnce(cfg: Config, task: Task, i: nat, j: nat)
    requires task.rebuild && Distinct(task.listing) && i < j < |Plan(cfg, task)| && Plan(cfg, task)[i].DropRefOp?
    ensures Plan(cfg, task)[i] != Plan(cfg, task)[j]
  {
    hide Plan;
    RebuildDeletesBackwards(cfg, task, i, j);
  }

  /** A surplus object is deleted before those under an endpoint that the send order is done with earlier. */
  lemma RebuildReferrerGoesFirst(cfg: Config, task: Task, o: ObjectRef, r: ObjectRef, m: nat, n: nat, j: nat)
    requires task.rebuild && o in task.listing && !HasObject(task.current, o.uuid)
    requires IsLast(cfg, r.endpoint, m) && IsLast(cfg, o.endpoint, n) && m < n
    requires j < |Plan(cfg, task)| && Plan(cfg, task)[j] == DropRefOp(r)
    ensures exists i :: 0 <= i < j && Plan(cfg, task)[i] == DropRefOp(o)
  {
    hide Plan, HasObject;
    var k :| 0 <= k < |task.listing| && task.listing[k] == o;
    assert HandledEndpoint(cfg, o.endpoint) by { assert cfg.types[n] in cfg.types; }
    SurplusPlanned(cfg, task, k);
    var i :| 0 <= i < |Plan(cfg, task)| && Plan(cfg, task)[i] == DropRefOp(o);
    if j < i { RebuildDeletesBackwards(cfg, task, j, i); }
  }

  // ---------- creates, updates and the deletes of a normal run ----------

  /** The two are for different objects: the type of the first comes earlier in the send order, or its id among
      the objects of the same type. */
  ghost predicate InSendOrder(task: Task, types: seq<string>, a: Op, b: Op) {
    exists m: nat, n: nat, u, v :: Sends(task, types, a, m, u) && Sends(task, types, b, n, v)
        && (m < n || (m == n && u != v && LexLe(u, v)))
  }

  ghost predicate Sends(task: Task, types: seq<string>, op: Op, n: nat, u: string) {
    n < |types| && u in ListedUnder(task.current, types[n]) && op == Classify(task, u)
  }

  ghost predicate SendOrder(task: Task, types: seq<string>, ops: seq<Op>) {
    (forall i | 0 <= i < |ops| :: Sent(task, types, ops[i]))
    && forall i, j | 0 <= i < j < |ops| :: InSendOrder(task, types, ops[i], ops[j])
  }

  ghost predicate Sent(task: Task, types: seq<string>, op: Op) {
    exists n: nat, u :: Sends(task, types, op, n, u)
  }

  ghost predicate SentFirst(task: Task, types: seq<string>, op: Op) {
    exists u :: Sends(task, types, op, 0, u)
  }

  lemma ChangesUnderInOrder(task: Task, types: seq<string>)
    requires types != []
    ensures SendOrder(task, types, ChangesUnder(task, types[0]))
    ensures forall i | 0 <= i < |ChangesUnder(task, types[0])| ::
      SentFirst(task, types, ChangesUnder(task, types[0])[i])
  {
    hide Classify, SendOrder, InOrder, SentFirst;
    var uids := SortedKeys(ListedUnder(task.current, types[0]));
    ChangesAt(task, uids);
    ClassifiedInOrder(task, types, uids, ChangesOf(task, uids));
  }

  lemma ClassifiedInOrder(task: Task, types: seq<string>, uids: seq<string>, ops: seq<Op>)
    requires types != [] && Distinct(uids) && InOrder(uids) && |ops| == |uids|
    requires forall i | 0 <= i < |uids| :: uids[i] in ListedUnder(task.current, types[0])
    requires forall i | 0 <= i < |uids| :: ops[i] == Classify(task, uids[i])
    ensures SendOrder(task, types, ops) && forall i | 0 <= i < |ops| :: SentFirst(task, types, ops[i])
  {
    hide Classify, LexLe, ListedUnder;
    forall i | 0 <= i < |ops| ensures Sends(task, types, ops[i], 0, uids[i]) {
    }
    forall i, j | 0 <= i < j < |ops| ensures InSendOrder(task, types, ops[i], ops[j]) {
      assert Sends(task, types, ops[i], 0, uids[i]) && Sends(task, types, ops[j], 0, uids[j]);
    }
  }

  lemma SendsLater(task: Task, types: seq<string>, op: Op, n: nat, u: string)
    requires types != [] && Sends(task, types[1..], op, n, u)
    ensures Sends(task, types, op, n + 1, u)
  {
    hide Classify;
  }

  lemma InOrderLater(task: Task, types: seq<string>, a: Op, b: Op)
    requires types != [] && InSendOrder(task, types[1..], a, b)
    ensures InSendOrder(task, types, a, b)
  {
    hide Sends, LexLe;
    var m: nat, n: nat, u, v :| Sends(task, types[1..], a, m, u) && Sends(task, types[1..], b, n, v)
        && (m < n || (m == n && u != v && LexLe(u, v)));
    SendsLater(task, types, a, m, u);
    SendsLater(task, types, b, n, v);
  }

  /** Creates and updates go through the types in the send order, and through the objects of a type by id. */
  lemma {:induction false} ChangesInOrder(task: Task, types: seq<string>)
    ensures SendOrder(task, types, AllChanges(task, types))
  {
    hide ChangesUnder, Sends, InSendOrder;
    if types != [] {
      ChangesUnderInOrder(task, types);
      ChangesInOrder(task, types[1..]);
      OneMoreType(task, types, ChangesUnder(task, types[0]), AllChanges(task, types[1..]));
    }
  }

  lemma OneMoreType(task: Task, types: seq<string>, a: seq<Op>, b: seq<Op>)
    requires types != [] && SendOrder(task, types, a) && SendOrder(task, types[1..], b)
    requires forall i | 0 <= i < |a| :: SentFirst(task, types, a[i])
    ensures SendOrder(task, types, a + b)
  {
    hide Sends, InSendOrder;
    var ops := a + b;
    forall i | 0 <= i < |ops| ensures Sent(task, types, ops[i]) {
      if |a| <= i {
        assert Sent(task, types[1..], b[i - |a|]);
        var n: nat, u :| Sends(task, types[1..], b[i - |a|], n, u);
        SendsLater(task, types, b[i - |a|], n, u);
      }
    }
    forall i, j | 0 <= i < j < |ops| ensures InSendOrder(task, types, ops[i], ops[j]) {
      if |a| <= i {
        InOrderLater(task, types, b[i - |a|], b[j - |a|]);
      } else if |a| <= j {
        assert Sent(task, types[1..], b[j - |a|]);
        InOrderAcross(task, types, a[i], b[j - |a|]);
      }
    }
  }

  lemma InOrderAcross(task: Task, types: seq<string>, a: Op, b: Op)
    requires types != [] && SentFirst(task, types, a) && Sent(task, types[1..], b)
    ensures InSendOrder(task, types, a, b)
  {
    hide Sends;
    var u :| Sends(task, types, a, 0, u);
    var n: nat, v :| Sends(task, types[1..], b, n, v);
    SendsLater(task, types, b, n, v);
    assert Sends(task, types, a, 0, u) && Sends(task, types, b, n + 1, v);
  }

  /** Two deletes of a normal run: first the type that is later in the send order, and of one type the object
      with the smaller id. */
  ghost predicate InDropOrder(types: seq<string>, a: Op, b: Op) {
    a.DropOp? && b.DropOp?
    && ((a.o.typ == b.o.typ && a.o.id != b.o.id && LexLe(a.o.id, b.o.id))
        || exists m, n :: 0 <= m < n < |types| && types[n] == a.o.typ && types[m] == b.o.typ)
  }

  ghost predicate ById(es: seq<RenderedObject>) {
    forall i, j | 0 <= i < j < |es| :: es[i].id != es[j].id && LexLe(es[i].id, es[j].id)
  }

  lemma EntriesById(m: Cache)
    requires IdKeyed(m)
    ensures ById(Entries(m))
  {
    hide Entries, LexLe;
    var keys := SortedKeys(m.Keys);
    EntriesAreUnderKeys(m);
    forall i, j | 0 <= i < j < |Entries(m)|
      ensures Entries(m)[i].id != Entries(m)[j].id && LexLe(Entries(m)[i].id, Entries(m)[j].id)
    {
      assert keys[i] != keys[j] && LexLe(keys[i], keys[j]);
    }
  }

  /** Deletes of objects of one type, by id. */
  ghost predicate DropsById(es: seq<RenderedObject>, typ: string, ops: seq<Op>) {
    (forall i | 0 <= i < |ops| :: ops[i].DropOp? && ops[i].o.typ == typ && ops[i].o in es)
    && forall i, j | 0 <= i < j < |ops| :: ops[i].o.id != ops[j].o.id && LexLe(ops[i].o.id, ops[j].o.id)
  }

  lemma {:induction false} DropsInOrder(es: seq<RenderedObject>, listed: set<string>, typ: string)
    requires ById(es)
    ensures DropsById(es, typ, Drops(es, listed, typ))
  {
    hide LexLe, DropsById;
    if es == [] {
      NothingDropped(typ);
    } else {
      DropsInOrder(es[1..], listed, typ);
      OneMoreEntry(es, typ, Drops(es[1..], listed, typ));
    }
  }

  lemma NothingDropped(typ: string)
    ensures DropsById([], typ, [])
  {
  }

  lemma OneMoreEntry(es: seq<RenderedObject>, typ: string, rest: seq<Op>)
    requires es != [] && ById(es) && DropsById(es[1..], typ, rest)
    ensures DropsById(es, typ, [] + rest)
    ensures es[0].typ == typ ==> DropsById(es, typ, [DropOp(es[0])] + rest)
  {
    hide ById, DropsById;
    StillEntries(es, typ, rest);
    assert [] + rest == rest;
    if es[0].typ == typ { DropInFront(es, typ, rest); }
  }

  lemma StillEntries(es: seq<RenderedObject>, typ: string, rest: seq<Op>)
    requires es != [] && DropsById(es[1..], typ, rest)
    ensures DropsById(es, typ, rest)
    ensures forall i | 0 <= i < |rest| :: rest[i].DropOp? && rest[i].o in es[1..]
  {
    hide LexLe;
    forall i | 0 <= i < |rest| ensures rest[i].o in es { assert rest[i].o in es[1..]; }
  }

  lemma DropInFront(es: seq<RenderedObject>, typ: string, rest: seq<Op>)
    requires es != [] && es[0].typ == typ && ById(es) && DropsById(es, typ, rest)
    requires forall i | 0 <= i < |rest| :: rest[i].DropOp? && rest[i].o in es[1..]
    ensures DropsById(es, typ, [DropOp(es[0])] + rest)
  {
    hide LexLe;
    var all := [DropOp(es[0])] + rest;
    assert forall i | 0 < i < |all| :: all[i] == rest[i - 1];
    forall j | 0 < j < |all| ensures es[0].id != all[j].o.id && LexLe(es[0].id, all[j].o.id) {
      var k :| 0 <= k < |es[1..]| && es[1..][k] == rest[j - 1].o;
      assert es[k + 1] == all[j].o;
    }
  }

  ghost predicate DropOrder(types: seq<string>, ops: seq<Op>) {
    (forall i | 0 <= i < |ops| :: ops[i].DropOp? && ops[i].o.typ in types)
    && forall i, j | 0 <= i < j < |ops| :: InDropOrder(Reverse(types), ops[i], ops[j])
  }

  /** The deletes of a normal run go through the send order backwards, and through the objects of a type by id. */
  lemma {:induction false} AllDropsInOrder(task: Task, types: seq<string>)
    requires IdKeyed(task.cached)
    ensures DropOrder(types, AllDrops(task, types))
  {
    hide Drops, Entries, InDropOrder, ById, DropsById, Reverse;
    if types != [] {
      EntriesById(task.cached);
      var es, listed := Entries(task.cached), ListedUnder(task.current, types[0]);
      DropsInOrder(es, listed, types[0]);
      AllDropsInOrder(task, types[1..]);
      OneMoreDropped(es, types, Drops(es, listed, types[0]), AllDrops(task, types[1..]));
    }
  }

  lemma OneMoreDropped(es: seq<RenderedObject>, types: seq<string>, a: seq<Op>, b: seq<Op>)
    requires types != [] && DropsById(es, types[0], a) && DropOrder(types[1..], b)
    ensures DropOrder(types, a + b)
  {
    hide InDropOrder, LexLe, Reverse;
    var ops := a + b;
    forall i, j | 0 <= i < j < |ops| ensures InDropOrder(Reverse(types), ops[i], ops[j]) {
      if |a| <= i {
        DroppedLater(types, b[i - |a|], b[j - |a|]);
      } else if |a| <= j {
        DroppedAcross(types, a[i], b[j - |a|]);
      } else {
        DroppedWithin(types, a[i], a[j]);
      }
    }
  }

  lemma DroppedLater(types: seq<string>, a: Op, b: Op)
    requires types != [] && InDropOrder(Reverse(types[1..]), a, b)
    ensures InDropOrder(Reverse(types), a, b)
  {
    hide LexLe;
    var r := Reverse(types[1..]);
    assert Reverse(types) == r + [types[0]];
    if m, n :| 0 <= m < n < |r| && r[n] == a.o.typ && r[m] == b.o.typ {
      assert Reverse(types)[n] == a.o.typ && Reverse(types)[m] == b.o.typ;
    }
  }

  lemma DroppedAcross(types: seq<string>, a: Op, b: Op)
    requires types != [] && a.DropOp? && a.o.typ == types[0] && b.DropOp? && b.o.typ in types[1..]
    ensures InDropOrder(Reverse(types), a, b)
  {
    hide Reverse, LexLe;
    var k :| 0 <= k < |types[1..]| && types[1..][k] == b.o.typ;
    var r := Reverse(types);
    assert r[|r| - 1] == types[0] && r[|r| - 2 - k] == types[k + 1];
  }

  lemma DroppedWithin(types: seq<string>, a: Op, b: Op)
    requires a.DropOp? && b.DropOp? && a.o.typ == b.o.typ && a.o.id != b.o.id && LexLe(a.o.id, b.o.id)
    ensures InDropOrder(Reverse(types), a, b)
  {
  }

  /** The deletes of a normal run go through the send order backwards. */
  lemma NormalDeletesBackwards(cfg: Config, task: Task, i: nat, j: nat)
    requires !task.rebuild && IdKeyed(task.cached) && i < j < |Plan(cfg, task)| && Plan(cfg, task)[i].DropOp?
    ensures InDropOrder(cfg.types, Plan(cfg, task)[i], Plan(cfg, task)[j])
  {
    hide AllChanges, AllDrops, Reverse, InDropOrder, DropOrder;
    var a, b := AllChanges(task, cfg.types), AllDrops(task, Reverse(cfg.types));
    NoDropsInChanges(task, cfg.types);
    AllDropsInOrder(task, Reverse(cfg.types));
    ReverseTwice(cfg.types);
    assert Plan(cfg, task)[i] == b[i - |a|] && Plan(cfg, task)[j] == b[j - |a|];
    DropOrderAt(Reverse(cfg.types), b, i - |a|, j - |a|);
  }

  lemma DropOrderAt(types: seq<string>, ops: seq<Op>, i: nat, j: nat)
    requires DropOrder(types, ops) && i < j < |ops|
    ensures InDropOrder(Reverse(types), ops[i], ops[j])
  {
    hide InDropOrder, Reverse;
  }

  /** Creates, updates and copies come before all deletes, in any run, and in the send order. */
  lemma ChangesComeFirst(cfg: Config, task: Task, i: nat, j: nat)
    requires i < j < |Plan(cfg, task)| && !Plan(cfg, task)[j].DropOp? && !Plan(cfg, task)[j].DropRefOp?
    ensures InSendOrder(task, cfg.types, Plan(cfg, task)[i], Plan(cfg, task)[j])
  {
    hide AllChanges, AllDrops, AllRefDrops, Endpoints, Reverse, InSendOrder;
    ChangesInOrder(task, cfg.types);
    DeletesLast(cfg, task);
  }

  lemma DeletesLast(cfg: Config, task: Task)
    ensures forall k | |AllChanges(task, cfg.types)| <= k < |Plan(cfg, task)| ::
      Plan(cfg, task)[k].DropOp? || Plan(cfg, task)[k].DropRefOp?
  {
    hide AllChanges, AllDrops, AllRefDrops, Endpoints, Reverse, Sorted;
    if task.rebuild {
      AllRefDropsSorted(task, Endpoints(cfg, Reverse(cfg.types), {}));
    } else {
      OnlyDropOps(task, Reverse(cfg.types));
    }
  }

  lemma {:induction false} OnlyDropOps(task: Task, types: seq<string>)
    ensures forall i | 0 <= i < |AllDrops(task, types)| :: AllDrops(task, types)[i].DropOp?
  {
    hide Drops, Entries;
    if types != [] {
      OnlyDropOps(task, types[1..]);
      DropOpsOnly(Entries(task.cached), ListedUnder(task.current, types[0]), types[0]);
    }
  }

  lemma {:induction false} DropOpsOnly(es: seq<RenderedObject>, listed: set<string>, typ: string)
    ensures forall i | 0 <= i < |Drops(es, listed, typ)| :: Drops(es, listed, typ)[i].DropOp?
  {
    if es != [] { DropOpsOnly(es[1..], listed, typ); }
  }

  lemma ReverseTwice<T>(s: seq<T>)
    ensures Reverse(Reverse(s)) == s
  {
    hide Reverse;
  }
}
