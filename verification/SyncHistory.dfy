/** Truth over any sequence of runs, and exactly when a single run can lose it. */
module SyncHistory {
  import opened RenderedObjects
  import opened ScimSender
  import opened Sync
  import opened SyncPlan
  import opened SyncTruth
  import opened SyncConvergence
  import opened SyncRebuild

  // ---------- forced updates and creates ----------

  /** `--force-update`: the listed entries become dummies. */
  function MadeDirty(m: Cache, uuids: seq<string>): Cache
    decreases |uuids|
  {
    if uuids == [] then m
    else
      var id := uuids[0];
      MadeDirty(if id in m then m[id := Dummy(m[id], FORCE_UPDATE)] else m, uuids[1..])
  }

  /** `--force-create`: the listed entries are removed, unless the data source does not have the object. */
  function Forgotten(m: Cache, uuids: seq<string>, current: map<string, set<string>>): Cache {
    if uuids == [] then m
    else Forgotten(if HasObject(current, uuids[0]) then m - {uuids[0]} else m, uuids[1..], current)
  }

  /** The dummy that takes the place of an entry: its own id and type, and a text that no rendering equals. */
  function ForcedDummy(o: RenderedObject): RenderedObject {
    RenderedObject(o.id, o.typ, "{\"externalId\":\"" + o.id + "\",\"dbg\":\"force update\"}")
  }

  lemma DummyText(o: RenderedObject)
    ensures Dummy(o, FORCE_UPDATE) == ForcedDummy(o)
  {
    var head, text := "{\"externalId\":\"" + o.id, "\",\"dbg\":\"force update\"}";
    assert "\",\"dbg\":\"" + FORCE_UPDATE + "\"}" == text;
    assert DummyJson(o.id, FORCE_UPDATE) == head + ("\",\"dbg\":\"" + FORCE_UPDATE + "\"}");
    assert head + text == ForcedDummy(o).json;
  }

  /** Exactly the listed entries have become dummies; nothing is added or lost. */
  lemma {:induction false} MadeDirtyIs(m: Cache, uuids: seq<string>)
    requires IdKeyed(m)
    ensures forall id :: id in MadeDirty(m, uuids) <==> id in m
    ensures forall id | id in m :: MadeDirty(m, uuids)[id] == if id in uuids then ForcedDummy(m[id]) else m[id]
    decreases |uuids|
  {
    hide Dummy, ForcedDummy;
    if uuids != [] {
      var u := uuids[0];
      assert forall id :: id in uuids <==> id == u || id in uuids[1..];
      if u in m {
        DummyText(m[u]);
        DummyTwice(m[u]);
        MadeDirtyIs(m[u := Dummy(m[u], FORCE_UPDATE)], uuids[1..]);
      } else {
        MadeDirtyIs(m, uuids[1..]);
      }
    }
  }

  lemma DummyTwice(o: RenderedObject)
    ensures ForcedDummy(ForcedDummy(o)) == ForcedDummy(o) && ForcedDummy(o).id == o.id
  {
  }

  /** Exactly the listed entries that the data source has are gone, and the others are as they were. */
  lemma {:induction false} ForgottenIs(m: Cache, uuids: seq<string>, current: map<string, set<string>>)
    ensures forall id :: id in Forgotten(m, uuids, current) <==> id in m && !(id in uuids && HasObject(current, id))
    ensures forall id | id in Forgotten(m, uuids, current) :: Forgotten(m, uuids, current)[id] == m[id]
  {
    hide HasObject;
    if uuids != [] {
      assert forall id :: id in uuids <==> id == uuids[0] || id in uuids[1..];
      ForgottenIs(if HasObject(current, uuids[0]) then m - {uuids[0]} else m, uuids[1..], current);
    }
  }

  method ForceCreate(objects: RenderedObjectList, uuids: seq<string>, current: map<string, set<string>>)
    modifies objects
    ensures objects.objects == Forgotten(old(objects.objects), uuids, current)
    ensures forall id :: id in objects.objects <==>
      id in old(objects.objects) && !(id in uuids && exists t | t in current :: id in current[t])
    ensures forall id | id in objects.objects :: objects.objects[id] == old(objects.objects)[id]
  {
    ghost var target := Forgotten(objects.objects, uuids, current);
    ForgottenIs(objects.objects, uuids, current);
    for i := 0 to |uuids|
      invariant Forgotten(objects.objects, uuids[i..], current) == target
    {
      assert uuids[i..][0] == uuids[i] && uuids[i..][1..] == uuids[i + 1..];
      if HasObject(current, uuids[i]) { objects.RemoveObject(uuids[i]); }
    }
    assert uuids[|uuids|..] == [];
  }

  method MakeDirty(objects: RenderedObjectList, uuids: seq<string>)
    requires IdKeyed(objects.objects)
    modifies objects
    ensures objects.objects == MadeDirty(old(objects.objects), uuids) && IdKeyed(objects.objects)
    ensures forall id :: id in objects.objects <==> id in old(objects.objects)
    ensures forall id | id in objects.objects ::
      objects.objects[id] == if id in uuids then ForcedDummy(old(objects.objects)[id]) else old(objects.objects)[id]
  {
    ghost var target := MadeDirty(objects.objects, uuids);
    MadeDirtyIs(objects.objects, uuids);
    for i := 0 to |uuids|
      invariant MadeDirty(objects.objects, uuids[i..]) == target
      invariant IdKeyed(objects.objects)
    {
      assert uuids[i..][0] == uuids[i] && uuids[i..][1..] == uuids[i + 1..];
      var obj := objects.GetObject(uuids[i]);
      hide Dummy, ForcedDummy;
      if obj.Some? {
        ghost var m := objects.objects;
        DummyText(obj.value);
        DummyTwice(obj.value);
        objects.RemoveObject(uuids[i]);
        objects.AddObject(Dummy(obj.value, FORCE_UPDATE));
        assert objects.objects == m[uuids[i] := Dummy(obj.value, FORCE_UPDATE)];
      }
    }
  }

  /** Dummies and omissions do not make a truthful cache untruthful, and change no type. */
  lemma {:induction false} DirtyTruthful(cfg: Config, s: Server, m: Cache, uuids: seq<string>)
    requires Truthful(cfg, s, m)
    ensures Truthful(cfg, s, MadeDirty(m, uuids))
    ensures forall id | id in MadeDirty(m, uuids) :: id in m && MadeDirty(m, uuids)[id].typ == m[id].typ
    decreases |uuids|
  {
    if uuids != [] {
      var id := uuids[0];
      if id in m {
        var m' := m[id := Dummy(m[id], FORCE_UPDATE)];
        forall x | x in m' ensures TruthAt(cfg, s, m', x) {
          assert TruthAt(cfg, s, m, x);
        }
        DirtyTruthful(cfg, s, m', uuids[1..]);
      } else {
        DirtyTruthful(cfg, s, m, uuids[1..]);
      }
    }
  }

  lemma ForgottenTruthful(cfg: Config, s: Server, m: Cache, uuids: seq<string>, current: map<string, set<string>>)
    requires Truthful(cfg, s, m)
    ensures Truthful(cfg, s, Forgotten(m, uuids, current))
    ensures forall id | id in Forgotten(m, uuids, current) :: id in m && Forgotten(m, uuids, current)[id] == m[id]
  {
    ForgottenIs(m, uuids, current);
    forall x | x in Forgotten(m, uuids, current) ensures TruthAt(cfg, s, Forgotten(m, uuids, current), x) {
      assert TruthAt(cfg, s, m, x);
    }
  }

  // ---------- sequences of runs ----------

  /** What may differ from one run to the next: the configuration apart from the endpoints, the network,
      the data, the ids given on the command line, and whether the cache is rebuilt, from which listing. */
  datatype Round = Round(types: seq<string>, maxTimeouts: int, network: Network,
                         current: map<string, set<string>>, pre: Cache,
                         forceUpdate: seq<string>, forceCreate: seq<string>,
                         rebuild: bool, listing: seq<ObjectRef>)

  function ConfigOf(endpoint: string -> string, r: Round): Config {
    Config(endpoint, r.types, r.maxTimeouts, r.network)
  }

  function TaskOf(r: Round, cache: Cache): Task {
    Task(r.current, r.pre, Forgotten(MadeDirty(cache, r.forceUpdate), r.forceCreate, r.current), r.rebuild, r.listing)
  }

  datatype World = World(server: Server, cache: Cache)

  function OneRound(endpoint: string -> string, r: Round, w: World): World {
    var st := Run(ConfigOf(endpoint, r), TaskOf(r, w.cache), w.server);
    World(st.link.server, st.cache)
  }

  function History(endpoint: string -> string, rounds: seq<Round>, w: World): World
    decreases |rounds|
  {
    if rounds == [] then w else OneRound(endpoint, rounds[|rounds| - 1], History(endpoint, rounds[..|rounds| - 1], w))
  }

  /** Every id keeps its type for ever. */
  ghost predicate Typed(typeOf: string -> string, m: Cache) {
    forall id | id in m :: m[id].typ == typeOf(id)
  }

  /** What every round relies on, whatever the server. */
  ghost predicate SoundRound(endpoint: string -> string, typeOf: string -> string, r: Round) {
    var cfg, bare := ConfigOf(endpoint, r), TaskOf(r, map[]);
    && Honest(r.network) && WellFormed(cfg, bare)
    && (forall t, u | Current(cfg, bare, t, u) :: typeOf(u) == t)
  }

  /** A rebuild relies also on listed objects being at home. */
  ghost predicate GoodRound(endpoint: string -> string, typeOf: string -> string, r: Round, server: Server) {
    && SoundRound(endpoint, typeOf, r)
    && (r.rebuild ==> forall u | u in r.pre :: AtHome(ConfigOf(endpoint, r), TaskOf(r, map[]), server, u))
  }

  ghost predicate TypedOp(typeOf: string -> string, op: Op) {
    match op
    case CopyOp(o) => o.typ == typeOf(o.id)
    case PostOp(o) => o.typ == typeOf(o.id)
    case PutOp(o) => o.typ == typeOf(o.id)
    case SkipOp => true
    case DropOp(o) => o.typ == typeOf(o.id)
    case DropRefOp(_) => true
  }

  lemma {:induction false} TypesKept(cfg: Config, typeOf: string -> string, ops: seq<Op>, st: State)
    requires Typed(typeOf, st.cache) && forall i | 0 <= i < |ops| :: TypedOp(typeOf, ops[i])
    ensures Typed(typeOf, Execute(cfg, ops, st).cache)
    decreases |ops|
  {
    if ops != [] {
      TypesKept(cfg, typeOf, ops[..|ops| - 1], st);
      assert TypedOp(typeOf, ops[|ops| - 1]);
    }
  }

  /** The premises of a run on a truthful, typed cache, once the command line has been applied to it. */
  lemma RoundPremises(endpoint: string -> string, typeOf: string -> string, r: Round, w: World)
    requires GoodRound(endpoint, typeOf, r, w.server) && Typed(typeOf, w.cache)
    requires Truthful(ConfigOf(endpoint, r), w.server, w.cache)
    ensures var cfg, task := ConfigOf(endpoint, r), TaskOf(r, w.cache);
            WellFormed(cfg, task) && InPlace(cfg, task) && Truthful(cfg, w.server, task.cached)
            && Typed(typeOf, task.cached)
            && forall t, u | Current(cfg, task, t, u) :: typeOf(u) == t
  {
    hide Held, MadeDirty, Forgotten;
    var cfg, task, bare := ConfigOf(endpoint, r), TaskOf(r, w.cache), TaskOf(r, map[]);
    DirtyTruthful(cfg, w.server, w.cache, r.forceUpdate);
    ForgottenTruthful(cfg, w.server, MadeDirty(w.cache, r.forceUpdate), r.forceCreate, r.current);
    assert forall id | id in task.cached :: TruthAt(cfg, w.server, task.cached, id);
    assert forall t, u :: Current(cfg, task, t, u) <==> Current(cfg, bare, t, u);
    forall u | u in task.pre ensures CurrentId(cfg, task, u) {
      assert CurrentId(cfg, bare, u);
      var t :| Current(cfg, bare, t, u);
      assert Current(cfg, task, t, u);
    }
  }

  lemma PlanTyped(cfg: Config, typeOf: string -> string, task: Task)
    requires WellFormed(cfg, task) && Typed(typeOf, task.cached)
    requires forall t, u | Current(cfg, task, t, u) :: typeOf(u) == t
    ensures forall i | 0 <= i < |Plan(cfg, task)| :: TypedOp(typeOf, Plan(cfg, task)[i])
  {
    hide Plan, IsListed;
    var ops := Plan(cfg, task);
    if task.rebuild { RebuildPlan(cfg, task); } else { NoRefDrops(cfg, task); }
    forall i | 0 <= i < |ops| ensures TypedOp(typeOf, ops[i]) {
      assert if task.rebuild then PlannedForRebuild(cfg, task, ops[i]) else PlannedNormally(cfg, task, ops[i]);
      if ChangeFrom(cfg, task, cfg.types, ops[i]) {
        var t, u :| t in cfg.types && Current(cfg, task, t, u) && ops[i] == Classify(task, u);
      }
    }
  }

  lemma RoundKeepsTruth(endpoint: string -> string, typeOf: string -> string, r: Round, w: World)
    requires GoodRound(endpoint, typeOf, r, w.server) && Typed(typeOf, w.cache)
    requires Truthful(ConfigOf(endpoint, r), w.server, w.cache)
    ensures var after := OneRound(endpoint, r, w);
            Typed(typeOf, after.cache) && Truthful(ConfigOf(endpoint, r), after.server, after.cache)
  {
    hide Plan, Execute, WellFormed, InPlace, Truthful, Honest, IsListed;
    var cfg, task := ConfigOf(endpoint, r), TaskOf(r, w.cache);
    RoundPremises(endpoint, typeOf, r, w);
    if r.rebuild {
      assert forall u | u in task.pre :: AtHome(cfg, TaskOf(r, map[]), w.server, u);
      RebuildKeepsTruth(cfg, task, w.server);
    } else {
      RunKeepsTruth(cfg, task, w.server, 0);
    }
    PlanTyped(cfg, typeOf, task);
    TypesKept(cfg, typeOf, Plan(cfg, task), Start(w.server));
  }

  /** Every round finds what it relies on. */
  ghost predicate GoodHistory(endpoint: string -> string, typeOf: string -> string, rounds: seq<Round>, w: World) {
    forall i | 0 <= i < |rounds| :: GoodRound(endpoint, typeOf, rounds[i], History(endpoint, rounds[..i], w).server)
  }

  lemma GoodBefore(endpoint: string -> string, typeOf: string -> string, rounds: seq<Round>, w: World)
    requires rounds != [] && GoodHistory(endpoint, typeOf, rounds, w)
    ensures var before := rounds[..|rounds| - 1];
            GoodHistory(endpoint, typeOf, before, w)
            && GoodRound(endpoint, typeOf, rounds[|rounds| - 1], History(endpoint, before, w).server)
  {
    hide GoodRound, OneRound;
    var before := rounds[..|rounds| - 1];
    forall i | 0 <= i < |before|
      ensures GoodRound(endpoint, typeOf, before[i], History(endpoint, before[..i], w).server)
    {
      assert before[..i] == rounds[..i];
    }
  }

  /** However many runs and rebuilds there are, however the data changes, and whatever goes wrong in each of
      them, the cache is truthful at the end of every one. */
  lemma {:induction false} EveryRunKeepsTruth(endpoint: string -> string, typeOf: string -> string,
                                              rounds: seq<Round>, w: World, cfg: Config)
    requires GoodHistory(endpoint, typeOf, rounds, w)
    requires Typed(typeOf, w.cache) && cfg.endpoint == endpoint && Truthful(cfg, w.server, w.cache)
    ensures var after := History(endpoint, rounds, w);
            Typed(typeOf, after.cache) && Truthful(cfg, after.server, after.cache)
    decreases |rounds|
  {
    if rounds != [] {
      hide OneRound, GoodRound, GoodHistory, Truthful, Typed;
      var r, before := rounds[|rounds| - 1], History(endpoint, rounds[..|rounds| - 1], w);
      GoodBefore(endpoint, typeOf, rounds, w);
      EveryRunKeepsTruth(endpoint, typeOf, rounds[..|rounds| - 1], w, cfg);
      SameEndpoints(cfg, ConfigOf(endpoint, r), before.server, before.cache);
      RoundKeepsTruth(endpoint, typeOf, r, before);
      var after := OneRound(endpoint, r, before);
      SameEndpoints(ConfigOf(endpoint, r), cfg, after.server, after.cache);
    }
  }

  // ---------- when listed objects are at home ----------

  /** The server has every id under the endpoint of its type only. */
  ghost predicate AllHome(endpoint: string -> string, typeOf: string -> string, s: Server) {
    forall k: ResourceKey | k in s :: k.endpoint == endpoint(typeOf(k.id))
  }

  /** The listing of a rebuild names what the server has. */
  ghost predicate OrderlyRound(endpoint: string -> string, typeOf: string -> string, r: Round, server: Server) {
    && SoundRound(endpoint, typeOf, r)
    && (r.rebuild ==> forall i | 0 <= i < |r.listing| :: RefKey(r.listing[i]) in server)
  }

  /** Then all listed objects are at home. */
  lemma ListedAtHome(endpoint: string -> string, typeOf: string -> string, r: Round, server: Server)
    requires AllHome(endpoint, typeOf, server) && OrderlyRound(endpoint, typeOf, r, server)
    ensures GoodRound(endpoint, typeOf, r, server)
  {
    var cfg, bare := ConfigOf(endpoint, r), TaskOf(r, map[]);
    forall u | r.rebuild && u in r.pre ensures AtHome(cfg, bare, server, u) {
      assert CurrentId(cfg, bare, u);
      var t :| Current(cfg, bare, t, u);
      if IsListed(r.listing, u) {
        var i :| 0 <= i < |r.listing| && r.listing[i].uuid == u;
        assert RefKey(r.listing[i]) in server;
      }
    }
  }

  lemma {:induction false} HomeKept(cfg: Config, typeOf: string -> string, ops: seq<Op>, st: State)
    requires AllHome(cfg.endpoint, typeOf, st.link.server) && forall i | 0 <= i < |ops| :: TypedOp(typeOf, ops[i])
    ensures AllHome(cfg.endpoint, typeOf, Execute(cfg, ops, st).link.server)
    decreases |ops|
  {
    if ops != [] {
      HomeKept(cfg, typeOf, ops[..|ops| - 1], st);
      assert TypedOp(typeOf, ops[|ops| - 1]);
    }
  }

  /** Runs and rebuilds keep it so. */
  lemma RoundKeepsHome(endpoint: string -> string, typeOf: string -> string, r: Round, w: World)
    requires GoodRound(endpoint, typeOf, r, w.server) && Typed(typeOf, w.cache)
    requires Truthful(ConfigOf(endpoint, r), w.server, w.cache) && AllHome(endpoint, typeOf, w.server)
    ensures AllHome(endpoint, typeOf, OneRound(endpoint, r, w).server)
  {
    hide Plan, Execute, WellFormed, InPlace, Truthful, AllHome, GoodRound;
    var cfg, task := ConfigOf(endpoint, r), TaskOf(r, w.cache);
    RoundPremises(endpoint, typeOf, r, w);
    PlanTyped(cfg, typeOf, task);
    HomeKept(cfg, typeOf, Plan(cfg, task), Start(w.server));
  }

  /** What is known of the world between two rounds. */
  ghost predicate Orderly(cfg: Config, typeOf: string -> string, w: World) {
    Typed(typeOf, w.cache) && Truthful(cfg, w.server, w.cache) && AllHome(cfg.endpoint, typeOf, w.server)
  }

  ghost predicate OrderlyHistory(endpoint: string -> string, typeOf: string -> string, rounds: seq<Round>, w: World) {
    forall i | 0 <= i < |rounds| :: OrderlyRound(endpoint, typeOf, rounds[i], History(endpoint, rounds[..i], w).server)
  }

  lemma OrderlyBefore(endpoint: string -> string, typeOf: string -> string, rounds: seq<Round>, w: World)
    requires rounds != [] && OrderlyHistory(endpoint, typeOf, rounds, w)
    ensures var before := rounds[..|rounds| - 1];
            OrderlyHistory(endpoint, typeOf, before, w)
            && OrderlyRound(endpoint, typeOf, rounds[|rounds| - 1], History(endpoint, before, w).server)
  {
    hide OrderlyRound, OneRound;
    var before := rounds[..|rounds| - 1];
    forall i | 0 <= i < |before|
      ensures OrderlyRound(endpoint, typeOf, before[i], History(endpoint, before[..i], w).server)
    {
      assert before[..i] == rounds[..i];
    }
  }

  lemma RoundKeepsOrder(cfg: Config, typeOf: string -> string, r: Round, w: World)
    requires Orderly(cfg, typeOf, w) && OrderlyRound(cfg.endpoint, typeOf, r, w.server)
    ensures Orderly(cfg, typeOf, OneRound(cfg.endpoint, r, w))
  {
    hide OneRound, GoodRound, OrderlyRound, Truthful, AllHome;
    var here, after := ConfigOf(cfg.endpoint, r), OneRound(cfg.endpoint, r, w);
    ListedAtHome(cfg.endpoint, typeOf, r, w.server);
    SameEndpoints(cfg, here, w.server, w.cache);
    RoundKeepsTruth(cfg.endpoint, typeOf, r, w);
    RoundKeepsHome(cfg.endpoint, typeOf, r, w);
    SameEndpoints(here, cfg, after.server, after.cache);
  }

  /** From a truthful cache, and a server with every id under the endpoint of its type only, any sequence of
      runs, and of rebuilds whose listings name what the server then has, leads to such a cache and server. */
  lemma {:induction false} OrderIsKept(cfg: Config, typeOf: string -> string, rounds: seq<Round>, w: World)
    requires Orderly(cfg, typeOf, w) && OrderlyHistory(cfg.endpoint, typeOf, rounds, w)
    ensures Orderly(cfg, typeOf, History(cfg.endpoint, rounds, w))
    decreases |rounds|
  {
    if rounds != [] {
      hide OneRound, OrderlyRound, OrderlyHistory, Orderly;
      OrderlyBefore(cfg.endpoint, typeOf, rounds, w);
      OrderIsKept(cfg, typeOf, rounds[..|rounds| - 1], w);
      RoundKeepsOrder(cfg, typeOf, rounds[|rounds| - 1], History(cfg.endpoint, rounds[..|rounds| - 1], w));
    }
  }

  // ---------- settling after any history ----------

  /** The same data once more, on another network and with nothing forced. */
  function OnceMore(r: Round, net: Network): Round {
    r.(network := net, forceUpdate := [], forceCreate := [])
  }

  /** A normal, fault-free round on a cache of which all types are handled. */
  ghost predicate HealthyRound(endpoint: string -> string, r: Round, w: World) {
    !r.rebuild && FaultFree(r.network) && NoDummies(r.pre) && AllHandled(ConfigOf(endpoint, r), w.cache)
  }

  lemma HealthyPremises(endpoint: string -> string, typeOf: string -> string, r: Round, w: World)
    requires GoodRound(endpoint, typeOf, r, w.server) && HealthyRound(endpoint, r, w) && Typed(typeOf, w.cache)
    requires Truthful(ConfigOf(endpoint, r), w.server, w.cache)
    ensures Premises(ConfigOf(endpoint, r), TaskOf(r, w.cache), w.server)
  {
    hide Truthful, WellFormed, InPlace, FaultFree, NoDummies, MadeDirty, Forgotten;
    RoundPremises(endpoint, typeOf, r, w);
    DirtyTruthful(ConfigOf(endpoint, r), w.server, w.cache, r.forceUpdate);
    ForgottenTruthful(ConfigOf(endpoint, r), w.server, MadeDirty(w.cache, r.forceUpdate), r.forceCreate, r.current);
  }

  lemma NothingForced(r: Round, net: Network, before: Cache, cache: Cache)
    ensures TaskOf(OnceMore(r, net), cache) == Again(TaskOf(r, before), cache)
  {
  }

  lemma RoundsSettle(endpoint: string -> string, r: Round, w: World, net2: Network, net3: Network)
    requires Premises(ConfigOf(endpoint, r), TaskOf(r, w.cache), w.server) && FaultFree(net2) && FaultFree(net3)
    ensures var cfg, task := ConfigOf(endpoint, r), TaskOf(r, w.cache);
            var two := OneRound(endpoint, OnceMore(r, net2), OneRound(endpoint, r, w));
            Settled(cfg, task, two.cache) && ServerMatches(cfg, task, two.server)
            && OneRound(endpoint, OnceMore(r, net3), two) == two
  {
    hide Run, Premises, Settled, ServerMatches, FaultFree, TaskOf, OnceMore;
    var cfg, task := ConfigOf(endpoint, r), TaskOf(r, w.cache);
    var one := OneRound(endpoint, r, w);
    var two := OneRound(endpoint, OnceMore(r, net2), one);
    NothingForced(r, net2, w.cache, one.cache);
    NothingForced(r, net3, w.cache, two.cache);
    OnceMoreConfig(endpoint, r, net2);
    OnceMoreConfig(endpoint, r, net3);
    TwoRunsSettle(cfg, task, w.server, net2);
    ThirdRunIsQuiet(cfg, task, w.server, net2, net3);
  }

  lemma OnceMoreConfig(endpoint: string -> string, r: Round, net: Network)
    ensures ConfigOf(endpoint, OnceMore(r, net)) == ConfigOf(endpoint, r).(network := net)
  {
  }

  /** Whatever has happened before: two fault-free rounds on the same data settle cache and server, and a third
      changes nothing. */
  lemma SettledAfterAnyHistory(endpoint: string -> string, typeOf: string -> string, rounds: seq<Round>, w: World,
                               r: Round, net2: Network, net3: Network)
    requires GoodHistory(endpoint, typeOf, rounds, w) && Typed(typeOf, w.cache)
    requires Truthful(ConfigOf(endpoint, r), w.server, w.cache)
    requires var now := History(endpoint, rounds, w);
      GoodRound(endpoint, typeOf, r, now.server) && HealthyRound(endpoint, r, now) && FaultFree(net2) && FaultFree(net3)
    ensures var now := History(endpoint, rounds, w);
            var two := History(endpoint, rounds + [r, OnceMore(r, net2)], w);
            Settled(ConfigOf(endpoint, r), TaskOf(r, now.cache), two.cache)
            && ServerMatches(ConfigOf(endpoint, r), TaskOf(r, now.cache), two.server)
            && History(endpoint, rounds + [r, OnceMore(r, net2), OnceMore(r, net3)], w) == two
  {
    hide OneRound, GoodRound, GoodHistory, HealthyRound, Truthful, Typed, Settled, ServerMatches, FaultFree, Premises,
         OnceMore, TaskOf, History;
    var now := History(endpoint, rounds, w);
    EveryRunKeepsTruth(endpoint, typeOf, rounds, w, ConfigOf(endpoint, r));
    HealthyPremises(endpoint, typeOf, r, now);
    RoundsSettle(endpoint, r, now, net2, net3);
    HistorySnoc(endpoint, rounds, r, w);
    HistorySnoc(endpoint, rounds + [r], OnceMore(r, net2), w);
    HistorySnoc(endpoint, rounds + [r, OnceMore(r, net2)], OnceMore(r, net3), w);
    assert rounds + [r] + [OnceMore(r, net2)] == rounds + [r, OnceMore(r, net2)];
    assert rounds + [r, OnceMore(r, net2)] + [OnceMore(r, net3)] == rounds + [r, OnceMore(r, net2), OnceMore(r, net3)];
  }

  lemma HistorySnoc(endpoint: string -> string, rounds: seq<Round>, r: Round, w: World)
    ensures History(endpoint, rounds + [r], w) == OneRound(endpoint, r, History(endpoint, rounds, w))
  {
    hide OneRound;
    assert (rounds + [r])[..|rounds|] == rounds;
  }
}
