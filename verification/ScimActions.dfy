/** The program that carries a run out: `ScimActions` and its four kinds of operations. */
module ScimActions {
  import opened Ordering
  import opened RenderedObjects
  import opened ScimSender
  import opened Sync
  import opened SyncPlan
  import opened Wrappers
  import opened CacheFile
  import opened CacheStream

  /** The renderings of the given objects; an id that is not in `render` failed to render. */
  function RenderedOf(uids: seq<string>, render: Cache, m: Cache): Cache
    decreases |uids|
  {
    if uids == [] then m
    else RenderedOf(uids[1..], render, if uids[0] in render then m[render[uids[0]].id := render[uids[0]]] else m)
  }

  /** All objects of the types in send order, rendered before anything is sent. */
  function PreRendered(types: seq<string>, current: map<string, set<string>>, render: Cache, m: Cache): Cache
    decreases |types|
  {
    if types == [] then m
    else PreRendered(types[1..], current, render, RenderedOf(SortedKeys(ListedUnder(current, types[0])), render, m))
  }

  lemma {:induction false} RenderedOfExact(uids: seq<string>, render: Cache, m: Cache)
    requires IdKeyed(render)
    ensures forall u :: u in RenderedOf(uids, render, m) <==> u in m || (u in uids && u in render)
    ensures forall u | u in uids && u in render :: RenderedOf(uids, render, m)[u] == render[u]
    ensures forall u | u in m && (u !in uids || u !in render) :: RenderedOf(uids, render, m)[u] == m[u]
    decreases |uids|
  {
    if uids != [] {
      assert uids == [uids[0]] + uids[1..];
      RenderedOfExact(uids[1..], render, if uids[0] in render then m[render[uids[0]].id := render[uids[0]]] else m);
    }
  }

  lemma {:induction false} PreRenderedExact(types: seq<string>, current: map<string, set<string>>, render: Cache,
                                            m: Cache)
    requires IdKeyed(render) && forall u | u in m :: u in render && m[u] == render[u]
    ensures forall u | u in PreRendered(types, current, render, m) ::
        u in render && PreRendered(types, current, render, m)[u] == render[u]
    ensures forall u | u in PreRendered(types, current, render, m) ::
        u in m || exists t :: t in types && u in ListedUnder(current, t)
    ensures forall u | u in m :: u in PreRendered(types, current, render, m)
    ensures forall t, u | t in types && u in ListedUnder(current, t) && u in render ::
        u in PreRendered(types, current, render, m)
    decreases |types|
  {
    hide InOrder, RenderedOf;
    if types != [] {
      var uids := SortedKeys(ListedUnder(current, types[0]));
      var m' := RenderedOf(uids, render, m);
      RenderedOfExact(uids, render, m);
      PreRenderedExact(types[1..], current, render, m');
      var r := PreRendered(types, current, render, m);
      assert types == [types[0]] + types[1..];
      forall u | u in r && u !in m ensures exists t :: t in types && u in ListedUnder(current, t) {
        if u in m' { assert u in uids && types[0] in types; }
      }
    }
  }

  /** When renderings carry the id and type of their objects, what is rendered beforehand is what a run
      expects of it. */
  lemma PreRenderedWellFormed(cfg: Config, task: Task, render: Cache)
    requires task.pre == PreRendered(cfg.types, task.current, render, map[])
    requires IdKeyed(render) && IdKeyed(task.cached) && "" !in task.cached && Distinct(cfg.types)
    requires forall t1, t2, u | Current(cfg, task, t1, u) && Current(cfg, task, t2, u) :: t1 == t2
    requires forall t, u | Current(cfg, task, t, u) :: u != "" && (u in render ==> render[u].typ == t)
    ensures WellFormed(cfg, task)
    ensures forall t, u | Current(cfg, task, t, u) :: u in task.pre <==> u in render
  {
    hide PreRendered;
    PreRenderedExact(cfg.types, task.current, render, map[]);
    forall u | u in task.pre ensures CurrentId(cfg, task, u) {
      var t :| t in cfg.types && u in ListedUnder(task.current, t);
      assert Current(cfg, task, t, u);
    }
    forall t, u | Current(cfg, task, t, u) ensures u in task.pre <==> u in render {
    }
  }

  /** What the file system lets a run do: reserve room for the new cache file, write it, cut off what is left
      of the room, and put it in place of the old one. */
  datatype Disk = Disk(reserves: bool, writes: bool, truncates: bool, installs: bool)

  class Actions {
    const cfg: Config
    const sender: Sender
    const newCache: RenderedObjectList

    ghost predicate Valid() {
      sender.wire.network == cfg.network && sender.maxTimeouts == cfg.maxTimeouts
    }

    ghost function Current(): State
      reads sender, sender.wire, newCache
    {
      State(sender.State(), newCache.objects)
    }

    constructor (cfg: Config, wire: Wire)
      requires wire.network == cfg.network
      ensures Valid() && this.cfg == cfg && sender.wire == wire && fresh(sender) && fresh(newCache)
      ensures Current() == State(Link(wire.server, 0, false, wire.sent), map[])
    {
      this.cfg := cfg;
      sender := new Sender(wire, cfg.maxTimeouts);
      newCache := new RenderedObjectList();
    }

    method CopyFunc(cached: RenderedObject) returns (err: int)
      requires Valid()
      modifies newCache
      ensures Current() == ExecuteOne(cfg, CopyOp(cached), old(Current()))
      ensures err == if cached.id == "" then -1 else 0
    {
      if cached.id == "" { return -1; }
      newCache.AddObject(cached);
      err := 0;
    }

    method CreateFunc(create: RenderedObject) returns (err: int, conflict: bool)
      requires Valid()
      modifies sender, sender.wire, newCache
      ensures Current() == ExecuteOne(cfg, PostOp(create), old(Current()))
      ensures conflict == (ReplyTo(cfg, PostOp(create), old(Current())) == Http(409))
      ensures err == 0 <==> create.id in newCache.objects && newCache.objects[create.id] == create
                            && ReplyTo(cfg, PostOp(create), old(Current())) in {Http(200), Http(201)}
      ensures var was, reply := old(newCache.objects), ReplyTo(cfg, PostOp(create), old(Current()));
        newCache.objects
        == if reply in {Http(200), Http(201)} then was[create.id := create]
           else if reply == Http(409) then was[create.id := create.(json := DummyJson(create.id, "create conflict"))]
           else was
    {
      var ok;
      ok, conflict := sender.SendCreate(cfg.endpoint(create.typ), create.id, create.json);
      if ok {
        newCache.AddObject(create);
        return 0, conflict;
      }
      if conflict {
        newCache.AddObject(Dummy(create, CREATE_CONFLICT));
      }
      err := -1;
    }

    method UpdateFunc(obj: RenderedObject) returns (err: int, nonExistent: bool)
      requires Valid()
      modifies sender, sender.wire, newCache
      ensures Current() == ExecuteOne(cfg, PutOp(obj), old(Current()))
      ensures err == 0 <==> ReplyTo(cfg, PutOp(obj), old(Current())) == Http(200)
      ensures nonExistent == (ReplyTo(cfg, PutOp(obj), old(Current())) == Http(404))
      ensures var was, reply := old(newCache.objects), ReplyTo(cfg, PutOp(obj), old(Current()));
        newCache.objects
        == if obj.id == "" || reply == Http(404) then was
           else if reply == Http(200) then was[obj.id := obj]
           else was[obj.id := obj.(json := DummyJson(obj.id, "failed update"))]
    {
      nonExistent := false;
      if obj.id == "" { return -1, false; }
      var ok;
      ok, nonExistent := sender.SendUpdate(cfg.endpoint(obj.typ), obj.id, obj.json);
      if ok {
        newCache.AddObject(obj);
        return 0, nonExistent;
      }
      if !nonExistent {
        newCache.AddObject(Dummy(obj, FAILED_UPDATE));
      }
      err := -1;
    }

    method DeleteFunc(obj: RenderedObject) returns (err: int, nonExistent: bool)
      requires Valid()
      modifies sender, sender.wire, newCache
      ensures Current() == ExecuteOne(cfg, DropOp(obj), old(Current()))
      ensures err == 0 <==> ReplyTo(cfg, DropOp(obj), old(Current())) == Http(204)
      ensures nonExistent == (ReplyTo(cfg, DropOp(obj), old(Current())) == Http(404))
      ensures var was, reply := old(newCache.objects), ReplyTo(cfg, DropOp(obj), old(Current()));
        newCache.objects == if obj.id == "" || reply in {Http(204), Http(404)} then was else was[obj.id := obj]
    {
      nonExistent := false;
      if obj.id == "" { return -1, false; }
      err := sender.SendDelete(cfg.endpoint(obj.typ), obj.id);
      if err != 0 && err != 404 {
        newCache.AddObject(obj);
      }
      if err == 404 {
        nonExistent := true;
      }
    }

    /** Copies, creates or updates one current object. */
    method ProcessChange(task: Task, uid: string, pre: RenderedObjectList, cache: RenderedObjectList)
      requires Valid()
      requires pre != newCache && cache != newCache
      requires pre.objects == task.pre && cache.objects == task.cached
      modifies sender, sender.wire, newCache
      ensures Current() == ExecuteOne(cfg, Classify(task, uid), old(Current()))
    {
      var obj := pre.GetObject(uid);
      var cachedObject: Option<RenderedObject> := None;
      var create := false;
      if task.rebuild {
        create := !IsListed(task.listing, uid);
      } else {
        cachedObject := cache.GetObject(uid);
        create := cachedObject.None?;
      }
      if create {
        if obj.Some? {
          var err, conflict := CreateFunc(obj.value);
        }
      } else {
        var copy := if task.rebuild then false else obj.None? || obj.value == cachedObject.value;
        if copy {
          var err := CopyFunc(cachedObject.value);
        } else if obj.Some? {
          var err, nonExistent := UpdateFunc(obj.value);
        }
      }
    }

    /** Copies, creates or updates the current objects of one type. */
    method ProcessChanges(task: Task, uids: set<string>, pre: RenderedObjectList, cache: RenderedObjectList)
      requires Valid()
      requires pre != newCache && cache != newCache
      requires pre.objects == task.pre && cache.objects == task.cached
      modifies sender, sender.wire, newCache
      ensures Current() == Execute(cfg, ChangesOf(task, SortedKeys(uids)), old(Current()))
    {
      hide Execute, ExecuteOne, Classify, InOrder, ChangesOf;
      var keys := SortedKeys(uids);
      ghost var done, todo := [], ChangesOf(task, keys);
      ExecuteNone(cfg, old(Current()));
      for i := 0 to |keys|
        invariant done + ChangesOf(task, keys[i..]) == todo
        invariant Current() == Execute(cfg, done, old(Current()))
      {
        ghost var op := Classify(task, keys[i]);
        ChangesStep(task, keys, i);
        ExecuteSnoc(cfg, done, op, old(Current()));
        ProcessChange(task, keys[i], pre, cache);
        done := done + [op];
      }
      ChangesNone(task, keys[|keys|..]);
      assert done + [] == done;
    }

    /** Deletes the cached objects of one type that are no longer current. */
    method ProcessDeletes(listed: set<string>, cache: RenderedObjectList, typ: string)
      requires Valid() && cache != newCache
      modifies sender, sender.wire, newCache
      ensures Current() == Execute(cfg, Drops(Entries(cache.objects), listed, typ), old(Current()))
    {
      hide Execute, ExecuteOne, Entries, Drops;
      var es := Entries(cache.objects);
      ghost var done, todo := [], Drops(es, listed, typ);
      ExecuteNone(cfg, old(Current()));
      for i := 0 to |es|
        invariant done + Drops(es[i..], listed, typ) == todo
        invariant Current() == Execute(cfg, done, old(Current()))
      {
        DropsStep(es, i, listed, typ);
        if es[i].typ == typ && es[i].id !in listed {
          ExecuteSnoc(cfg, done, DropOp(es[i]), old(Current()));
          var err, nonExistent := DeleteFunc(es[i]);
          done := done + [DropOp(es[i])];
        }
      }
      DropsNone(es[|es|..], listed, typ);
      assert done + [] == done;
    }

    /** Deletes the listed objects of one endpoint that are not current, when the cache is rebuilt. */
    method ProcessDeletesPerEndpoint(task: Task, endpoint: string)
      requires Valid()
      modifies sender, sender.wire
      ensures Current() == Execute(cfg, RefDrops(task, task.listing, endpoint), old(Current()))
    {
      hide Execute, HasObject, RefDrops;
      ghost var done, todo := [], RefDrops(task, task.listing, endpoint);
      ExecuteNone(cfg, old(Current()));
      for i := 0 to |task.listing|
        invariant done + RefDrops(task, task.listing[i..], endpoint) == todo
        invariant Current() == Execute(cfg, done, old(Current()))
      {
        var ref := task.listing[i];
        RefDropsStep(task, i, endpoint);
        if ref.endpoint == endpoint && !HasObject(task.current, ref.uuid) {
          ExecuteSnoc(cfg, done, DropRefOp(ref), old(Current()));
          var err := sender.SendDelete(ref.endpoint, ref.uuid);
          done := done + [DropRefOp(ref)];
        }
      }
      RefDropsNone(task, task.listing[|task.listing|..], endpoint);
      assert done + [] == done;
    }

    method PreRender(current: map<string, set<string>>, render: Cache) returns (pre: RenderedObjectList)
      ensures fresh(pre) && pre.objects == PreRendered(cfg.types, current, render, map[])
    {
      hide RenderedOf, InOrder, PreRendered;
      pre := new RenderedObjectList();
      assert cfg.types[0..] == cfg.types;
      ghost var all := PreRendered(cfg.types, current, render, map[]);
      for i := 0 to |cfg.types|
        invariant fresh(pre) && PreRendered(cfg.types[i..], current, render, pre.objects) == all
      {
        PreRenderedStep(cfg.types, i, current, render, pre.objects);
        RenderType(SortedKeys(ListedUnder(current, cfg.types[i])), render, pre);
      }
      PreRenderedNone(cfg.types[|cfg.types|..], current, render, pre.objects);
    }

    method RenderType(uids: seq<string>, render: Cache, pre: RenderedObjectList)
      modifies pre
      ensures pre.objects == RenderedOf(uids, render, old(pre.objects))
    {
      ghost var all := RenderedOf(uids, render, pre.objects);
      for i := 0 to |uids|
        invariant RenderedOf(uids[i..], render, pre.objects) == all
      {
        assert uids[i..][1..] == uids[i + 1..] && uids[i..][0] == uids[i];
        if uids[i] in render {
          pre.AddObject(render[uids[i]]);
        }
      }
      assert uids[|uids|..] == [];
    }

    /** The whole of a run: render, reserve room, change, delete, save. Without room for the new cache nothing
        is sent; when it cannot be written, or not be put in place of the old one, the run has been made
        nevertheless, and -1 is returned. */
    method Perform(current: map<string, set<string>>, render: Cache, cached: RenderedObjectList,
                   rebuild: bool, listing: seq<ObjectRef>, file: OutputFile, disk: Disk) returns (err: int)
      requires Valid() && cached != newCache && newCache.objects == map[]
      requires file.data == "" && file.pos == 0
      modifies sender, sender.wire, newCache, file
      ensures err == if disk.reserves && disk.writes && disk.installs then 0 else -1
      ensures !disk.reserves ==> Current() == old(Current())
      ensures var pre := PreRendered(cfg.types, current, render, map[]);
              var task := Task(current, pre, old(cached.objects), rebuild, listing);
              disk.reserves ==>
                && Current() == Execute(cfg, Plan(cfg, task), old(Current()))
                && (disk.writes ==>
                      var bytes, reserved := SaveBytes(newCache.objects), Reserved(SizeEstimate(pre, task.cached));
                      var written := Overwrite(reserved, 0, bytes);
                      file.data == if disk.truncates then written[..|bytes|] else written)
    {
      hide Execute, SizeEstimate, SaveBytes, Overwrite, PreRendered, Plan, Reserved, EstimateObjects, InOrder;
      var pre := PreRender(current, render);
      var estimate := EstimateObjectsLoop(pre, cached);
      if !disk.reserves { return -1; }
      file.Begin(HEADER_SIZE + estimate);
      EstimateWithHeader(pre.objects, cached.objects);
      var task := Task(current, pre.objects, cached.objects, rebuild, listing);
      Synchronise(task, pre, cached);
      if !disk.writes { return -1; }
      SaveNewCache(file, disk.truncates);
      if !disk.installs { return -1; }
      return 0;
    }

    method SaveNewCache(file: OutputFile, truncated: bool)
      requires file.Valid() && file.pos == 0
      modifies file
      ensures var bytes, was := SaveBytes(newCache.objects), old(file.data);
        file.data == if truncated then Overwrite(was, 0, bytes)[..|bytes|] else Overwrite(was, 0, bytes)
    {
      hide SaveBytes, Overwrite;
      file.Save(newCache);
      NonEmptySave(newCache.objects);
      file.Finalize(truncated);
    }

    /** All changes in the order of the types, then all deletes in reverse. */
    method Synchronise(task: Task, pre: RenderedObjectList, cached: RenderedObjectList)
      requires Valid() && pre != newCache && cached != newCache
      requires pre.objects == task.pre && cached.objects == task.cached
      modifies sender, sender.wire, newCache
      ensures Current() == Execute(cfg, Plan(cfg, task), old(Current()))
    {
      hide Execute, AllChanges, AllDrops, AllRefDrops;
      ghost var start := Current();
      ProcessAllChanges(task, pre, cached);
      var reversed := Reverse(cfg.types);
      if task.rebuild {
        ProcessAllRefDeletes(task, reversed);
        ExecuteAppend(cfg, AllChanges(task, cfg.types), AllRefDrops(task, Endpoints(cfg, reversed, {})), start);
      } else {
        ProcessAllDeletes(task, reversed, cached);
        ExecuteAppend(cfg, AllChanges(task, cfg.types), AllDrops(task, reversed), start);
      }
    }

    method ProcessAllChanges(task: Task, pre: RenderedObjectList, cached: RenderedObjectList)
      requires Valid() && pre != newCache && cached != newCache
      requires pre.objects == task.pre && cached.objects == task.cached
      modifies sender, sender.wire, newCache
      ensures Current() == Execute(cfg, AllChanges(task, cfg.types), old(Current()))
    {
      hide Execute, ChangesOf, InOrder, AllChanges;
      ghost var done, all := [], AllChanges(task, cfg.types);
      ExecuteNone(cfg, Current());
      for i := 0 to |cfg.types|
        invariant done + AllChanges(task, cfg.types[i..]) == all
        invariant Current() == Execute(cfg, done, old(Current()))
      {
        var typ := cfg.types[i];
        AllChangesStep(task, cfg.types, i);
        ghost var ops := ChangesUnder(task, typ);
        ExecuteAppend(cfg, done, ops, old(Current()));
        ProcessChanges(task, ListedUnder(task.current, typ), pre, cached);
        assert done + ops + AllChanges(task, cfg.types[i + 1..]) == all;
        done := done + ops;
      }
      AllChangesNone(task, cfg.types[|cfg.types|..]);
      assert done + [] == done;
    }

    method ProcessAllDeletes(task: Task, types: seq<string>, cached: RenderedObjectList)
      requires Valid() && cached != newCache && cached.objects == task.cached
      modifies sender, sender.wire, newCache
      ensures Current() == Execute(cfg, AllDrops(task, types), old(Current()))
    {
      hide Execute, Drops, Entries;
      ghost var done, all := [], AllDrops(task, types);
      ExecuteNone(cfg, Current());
      for i := 0 to |types|
        invariant done + AllDrops(task, types[i..]) == all
        invariant Current() == Execute(cfg, done, old(Current()))
      {
        assert types[i..][1..] == types[i + 1..] && types[i..][0] == types[i];
        ghost var ops := Drops(Entries(task.cached), ListedUnder(task.current, types[i]), types[i]);
        ExecuteAppend(cfg, done, ops, old(Current()));
        ProcessDeletes(ListedUnder(task.current, types[i]), cached, types[i]);
        assert done + ops + AllDrops(task, types[i + 1..]) == all;
        done := done + ops;
      }
      assert types[|types|..] == [] && done + [] == done;
    }

    /** Goes through the endpoints of the types, each endpoint once. */
    method ProcessAllRefDeletes(task: Task, types: seq<string>)
      requires Valid()
      modifies sender, sender.wire
      ensures Current() == Execute(cfg, AllRefDrops(task, Endpoints(cfg, types, {})), old(Current()))
    {
      hide Execute, RefDrops;
      ghost var done, all := [], AllRefDrops(task, Endpoints(cfg, types, {}));
      ExecuteNone(cfg, Current());
      var endpoints := {};
      for i := 0 to |types|
        invariant done + AllRefDrops(task, Endpoints(cfg, types[i..], endpoints)) == all
        invariant Current() == Execute(cfg, done, old(Current()))
      {
        var e := cfg.endpoint(types[i]);
        assert types[i..][1..] == types[i + 1..] && types[i..][0] == types[i];
        if e !in endpoints {
          ghost var ops := RefDrops(task, task.listing, e);
          EndpointFirst(task, e, Endpoints(cfg, types[i + 1..], endpoints + {e}));
          ExecuteAppend(cfg, done, ops, old(Current()));
          endpoints := endpoints + {e};
          ProcessDeletesPerEndpoint(task, e);
          assert done + ops + AllRefDrops(task, Endpoints(cfg, types[i + 1..], endpoints)) == all;
          done := done + ops;
        }
      }
      assert types[|types|..] == [] && done + [] == done;
    }
  }

  lemma PreRenderedStep(types: seq<string>, i: nat, current: map<string, set<string>>, render: Cache, m: Cache)
    requires i < |types|
    ensures PreRendered(types[i..], current, render, m)
         == PreRendered(types[i + 1..], current, render,
                        RenderedOf(SortedKeys(ListedUnder(current, types[i])), render, m))
  {
    hide RenderedOf, InOrder;
    assert types[i..][1..] == types[i + 1..] && types[i..][0] == types[i];
  }

  lemma PreRenderedNone(types: seq<string>, current: map<string, set<string>>, render: Cache, m: Cache)
    ensures types == [] ==> PreRendered(types, current, render, m) == m
  {
  }

  lemma DropsStep(es: seq<RenderedObject>, i: nat, listed: set<string>, typ: string)
    requires i < |es|
    ensures Drops(es[i..], listed, typ)
         == (if es[i].typ == typ && es[i].id !in listed then [DropOp(es[i])] else []) + Drops(es[i + 1..], listed, typ)
  {
    assert es[i..][1..] == es[i + 1..] && es[i..][0] == es[i];
  }

  lemma DropsNone(es: seq<RenderedObject>, listed: set<string>, typ: string)
    ensures es == [] ==> Drops(es, listed, typ) == []
  {
  }

  lemma RefDropsStep(task: Task, i: nat, endpoint: string)
    requires i < |task.listing|
    ensures var ref := task.listing[i];
      RefDrops(task, task.listing[i..], endpoint)
      == (if ref.endpoint == endpoint && !HasObject(task.current, ref.uuid) then [DropRefOp(ref)] else [])
         + RefDrops(task, task.listing[i + 1..], endpoint)
  {
    hide HasObject;
    assert task.listing[i..][1..] == task.listing[i + 1..] && task.listing[i..][0] == task.listing[i];
  }

  lemma RefDropsNone(task: Task, listing: seq<ObjectRef>, endpoint: string)
    ensures listing == [] ==> RefDrops(task, listing, endpoint) == []
  {
  }

  lemma ChangesStep(task: Task, keys: seq<string>, i: nat)
    requires i < |keys|
    ensures ChangesOf(task, keys[i..]) == [Classify(task, keys[i])] + ChangesOf(task, keys[i + 1..])
  {
    hide Classify;
    assert keys[i..][1..] == keys[i + 1..] && keys[i..][0] == keys[i];
  }

  lemma ChangesNone(task: Task, keys: seq<string>)
    ensures keys == [] ==> ChangesOf(task, keys) == []
  {
  }

  lemma AllChangesStep(task: Task, types: seq<string>, i: nat)
    requires i < |types|
    ensures AllChanges(task, types[i..])
         == ChangesUnder(task, types[i]) + AllChanges(task, types[i + 1..])
  {
    hide ChangesUnder;
    assert types[i..][1..] == types[i + 1..] && types[i..][0] == types[i];
  }

  lemma AllChangesNone(task: Task, types: seq<string>)
    ensures types == [] ==> AllChanges(task, types) == []
  {
  }

  lemma EndpointFirst(task: Task, e: string, rest: seq<string>)
    ensures AllRefDrops(task, [e] + rest) == RefDrops(task, task.listing, e) + AllRefDrops(task, rest)
  {
    assert ([e] + rest)[1..] == rest;
  }

  lemma EstimateWithHeader(current: Cache, cached: Cache)
    ensures HEADER_SIZE + EstimateObjects(current, cached) == SizeEstimate(current, cached)
  {
  }

  lemma NonEmptySave(m: Cache)
    ensures |SaveBytes(m)| > 0
  {
  }
}
