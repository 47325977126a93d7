/** Asking the server for everything it has, before a rebuild. */
module ServerListing {
  import opened Ordering
  import opened ScimSender
  import opened Sync
  import opened SyncRebuild
  import opened Wrappers
  import opened Pagination

  /** How an endpoint is reached, how it answers, and the "id" of a resource, if it has one. */
  datatype Site = Site(url: string -> string, remote: string -> Remote, idOf: string -> Option<string>)

  function RefsOf(site: Site, e: string, resources: seq<string>, acc: seq<ObjectRef>): Option<seq<ObjectRef>>
    decreases |resources|
  {
    if resources == [] then Some(acc)
    else
      match site.idOf(resources[0])
      case None => None
      case Some(id) => RefsOf(site, e, resources[1..], acc + [ObjectRef(id, e)])
  }

  function Asked(site: Site, e: string): Outcome {
    QueryAll(site.remote(e), site.url(e))
  }

  /** The references from some endpoints in turn; None if a request fails or a resource has no id. */
  function Gathered(site: Site, es: seq<string>, acc: seq<ObjectRef>): Option<seq<ObjectRef>>
    decreases |es|
  {
    if es == [] then Some(acc)
    else
      var o := Asked(site, es[0]);
      if o.error.Some? then None
      else
        match RefsOf(site, es[0], o.resources, acc)
        case None => None
        case Some(next) => Gathered(site, es[1..], next)
  }

  function HandledEndpoints(cfg: Config): set<string> {
    set t | t in cfg.types :: cfg.endpoint(t)
  }

  method GetAllObjectsFromScimServer(cfg: Config, site: Site) returns (refs: Option<seq<ObjectRef>>)
    ensures refs == Gathered(site, SortedKeys(HandledEndpoints(cfg)), [])
  {
    hide Query, RefsOf, InOrder, Gathered;
    var endpoints := CollectEndpoints(cfg);
    var es := SortedKeys(endpoints);
    var results: seq<ObjectRef> := [];
    for i := 0 to |es|
      invariant Gathered(site, es[i..], results) == Gathered(site, es, [])
    {
      GatheredStep(site, es, i, results);
      var getter := new Getter(site.remote(es[i]));
      var resources := new Resources();
      var error := QueryImpl(site.url(es[i]), resources, getter, 1);
      if error.Some? { return None; }
      var next := AppendRefs(site, es[i], resources.list, results);
      if next == None { return None; }
      results := next.value;
    }
    GatheredNone(site, es[|es|..], results);
    return Some(results);
  }

  method CollectEndpoints(cfg: Config) returns (endpoints: set<string>)
    ensures endpoints == HandledEndpoints(cfg)
  {
    endpoints := {};
    for i := 0 to |cfg.types|
      invariant endpoints == set t | t in cfg.types[..i] :: cfg.endpoint(t)
    {
      assert cfg.types[..i + 1] == cfg.types[..i] + [cfg.types[i]];
      endpoints := endpoints + {cfg.endpoint(cfg.types[i])};
    }
    assert cfg.types[..|cfg.types|] == cfg.types;
  }

  lemma GatheredStep(site: Site, es: seq<string>, i: nat, acc: seq<ObjectRef>)
    requires i < |es|
    ensures var o := Asked(site, es[i]);
      Gathered(site, es[i..], acc)
      == if o.error.Some? then None
         else match RefsOf(site, es[i], o.resources, acc)
              case None => None
              case Some(next) => Gathered(site, es[i + 1..], next)
  {
    hide Asked, RefsOf;
    assert es[i..][0] == es[i] && es[i..][1..] == es[i + 1..];
  }

  lemma GatheredNone(site: Site, es: seq<string>, acc: seq<ObjectRef>)
    ensures es == [] ==> Gathered(site, es, acc) == Some(acc)
  {
  }

  method AppendRefs(site: Site, e: string, resources: seq<string>, before: seq<ObjectRef>)
      returns (refs: Option<seq<ObjectRef>>)
    ensures refs == RefsOf(site, e, resources, before)
  {
    var results := before;
    for i := 0 to |resources|
      invariant RefsOf(site, e, resources[i..], results) == RefsOf(site, e, resources, before)
    {
      assert resources[i..][0] == resources[i] && resources[i..][1..] == resources[i + 1..];
      var id := site.idOf(resources[i]);
      if id == None { return None; }
      results := results + [ObjectRef(id.value, e)];
    }
    return Some(results);
  }

  // ---------- a server that shows what it has ----------

  /** The resources listed under an endpoint are, by their ids, those the server holds there. */
  ghost predicate Shows(site: Site, server: Server, e: string, all: seq<string>) {
    && (forall i | 0 <= i < |all| :: site.idOf(all[i]).Some? && ResourceKey(e, site.idOf(all[i]).value) in server)
    && (forall k: ResourceKey | k in server && k.endpoint == e ::
          exists i :: 0 <= i < |all| && site.idOf(all[i]) == Some(k.id))
  }

  /** The endpoint pages through what it has, without an empty page, and answers long enough. */
  ghost predicate Forthcoming(site: Site, server: Server, e: string, all: seq<string>, size: nat -> nat) {
    && Stable(site.remote(e), site.url(e), all, size)
    && site.remote(e).patience >= Max(1, |all|)
    && NoEmptyPage(|all|, size, 1)
    && Shows(site, server, e, all)
  }

  ghost predicate ListedSoFar(server: Server, es: seq<string>, refs: seq<ObjectRef>) {
    && (forall i | 0 <= i < |refs| :: RefKey(refs[i]) in server && refs[i].endpoint in es)
    && (forall k: ResourceKey | k in server && k.endpoint in es :: ListedKey(refs, k))
  }

  lemma {:induction false} RefsExact(site: Site, e: string, resources: seq<string>, acc: seq<ObjectRef>)
    requires forall i | 0 <= i < |resources| :: site.idOf(resources[i]).Some?
    ensures var r := RefsOf(site, e, resources, acc);
      r.Some? && |r.value| == |acc| + |resources| && acc <= r.value
      && forall i | 0 <= i < |resources| :: r.value[|acc| + i] == ObjectRef(site.idOf(resources[i]).value, e)
    decreases |resources|
  {
    if resources != [] {
      var first := ObjectRef(site.idOf(resources[0]).value, e);
      RefsExact(site, e, resources[1..], acc + [first]);
      var r := RefsOf(site, e, resources, acc).value;
      assert r[|acc|] == (acc + [first])[|acc|];
      forall i | 0 <= i < |resources| ensures r[|acc| + i] == ObjectRef(site.idOf(resources[i]).value, e) {
        if i > 0 { assert r[|acc + [first]| + (i - 1)] == ObjectRef(site.idOf(resources[1..][i - 1]).value, e); }
      }
    }
  }

  lemma EndpointListed(site: Site, server: Server, e: string, all: seq<string>, size: nat -> nat, done: seq<string>,
                       acc: seq<ObjectRef>)
    requires Forthcoming(site, server, e, all, size) && ListedSoFar(server, done, acc)
    ensures Asked(site, e).error == None
    ensures var r := RefsOf(site, e, Asked(site, e).resources, acc); r.Some? && ListedSoFar(server, done + [e], r.value)
  {
    hide Query, NoEmptyPage, Stable, RefsOf;
    CollectsAllIff(site.remote(e), site.url(e), all, size);
    RefsExact(site, e, all, acc);
    ListedMore(site, server, e, all, done, acc, RefsOf(site, e, all, acc).value);
  }

  lemma ListedMore(site: Site, server: Server, e: string, all: seq<string>, done: seq<string>, acc: seq<ObjectRef>,
                   refs: seq<ObjectRef>)
    requires Shows(site, server, e, all) && ListedSoFar(server, done, acc)
    requires |refs| == |acc| + |all| && acc <= refs
    requires forall i | 0 <= i < |all| :: refs[|acc| + i] == ObjectRef(site.idOf(all[i]).value, e)
    ensures ListedSoFar(server, done + [e], refs)
  {
    forall i | 0 <= i < |refs| ensures RefKey(refs[i]) in server && refs[i].endpoint in done + [e] {
      if i < |acc| {
        assert refs[i] == acc[i];
      } else {
        assert refs[|acc| + (i - |acc|)] == ObjectRef(site.idOf(all[i - |acc|]).value, e);
      }
    }
    forall k: ResourceKey | k in server && k.endpoint in done + [e] ensures ListedKey(refs, k) {
      if k.endpoint in done {
        var i :| 0 <= i < |acc| && RefKey(acc[i]) == k;
        assert RefKey(refs[i]) == k;
      } else {
        var i :| 0 <= i < |all| && site.idOf(all[i]) == Some(k.id);
        assert RefKey(refs[|acc| + i]) == k;
      }
    }
  }

  lemma {:induction false} AllListed(site: Site, server: Server, es: seq<string>, all: string -> seq<string>,
                                     size: string -> (nat -> nat), done: seq<string>, acc: seq<ObjectRef>)
    requires forall e | e in es :: Forthcoming(site, server, e, all(e), size(e))
    requires ListedSoFar(server, done, acc)
    ensures Gathered(site, es, acc).Some? && ListedSoFar(server, done + es, Gathered(site, es, acc).value)
    decreases |es|
  {
    hide Forthcoming, ListedSoFar, RefsOf, Asked;
    if es == [] {
      assert done + es == done;
    } else {
      EndpointListed(site, server, es[0], all(es[0]), size(es[0]), done, acc);
      var next := RefsOf(site, es[0], Asked(site, es[0]).resources, acc).value;
      AllListed(site, server, es[1..], all, size, done + [es[0]], next);
      assert done + [es[0]] + es[1..] == done + es;
    }
  }

  /** From endpoints that page through what they hold, a rebuild gets exactly the listing that it needs. */
  lemma ListingIsExact(cfg: Config, site: Site, server: Server, all: string -> seq<string>,
                       size: string -> (nat -> nat))
    requires forall e | HandledEndpoint(cfg, e) :: Forthcoming(site, server, e, all(e), size(e))
    ensures var refs := Gathered(site, SortedKeys(HandledEndpoints(cfg)), []);
      refs.Some? && Listing(cfg, server, refs.value)
  {
    hide Forthcoming, InOrder, Gathered, HandledEndpoints, HandledEndpoint, ListedSoFar, Listing;
    var es := SortedKeys(HandledEndpoints(cfg));
    forall e ensures e in es <==> HandledEndpoint(cfg, e) { HandledBoth(cfg, e); }
    NothingListed(server);
    AllListed(site, server, es, all, size, [], []);
    assert [] + es == es;
    AllIsListing(cfg, server, es, Gathered(site, es, []).value);
  }

  lemma HandledBoth(cfg: Config, e: string)
    ensures e in HandledEndpoints(cfg) <==> HandledEndpoint(cfg, e)
  {
  }

  lemma NothingListed(server: Server)
    ensures ListedSoFar(server, [], [])
  {
  }

  lemma AllIsListing(cfg: Config, server: Server, es: seq<string>, refs: seq<ObjectRef>)
    requires ListedSoFar(server, es, refs) && forall e :: e in es <==> HandledEndpoint(cfg, e)
    ensures Listing(cfg, server, refs)
  {
    hide HandledEndpoint;
  }

  // ---------- when the listing fails ----------

  /** The endpoint answered without an error, and all its resources have an id. */
  predicate Listable(site: Site, e: string) {
    Asked(site, e).error == None
    && forall i | 0 <= i < |Asked(site, e).resources| :: site.idOf(Asked(site, e).resources[i]).Some?
  }

  lemma {:induction false} MissingIdFails(site: Site, e: string, resources: seq<string>, acc: seq<ObjectRef>)
    ensures RefsOf(site, e, resources, acc).Some? <==> forall i | 0 <= i < |resources| :: site.idOf(resources[i]).Some?
    decreases |resources|
  {
    if resources != [] && site.idOf(resources[0]).Some? {
      MissingIdFails(site, e, resources[1..], acc + [ObjectRef(site.idOf(resources[0]).value, e)]);
      assert forall i | 1 <= i < |resources| :: resources[i] == resources[1..][i - 1];
    }
  }

  /** A listing is had if and only if every endpoint could be queried, and every resource it gave has an id. */
  lemma {:induction false} ListingFailsIff(site: Site, es: seq<string>, acc: seq<ObjectRef>)
    ensures Gathered(site, es, acc).Some? <==> forall i | 0 <= i < |es| :: Listable(site, es[i])
    decreases |es|
  {
    hide Asked, RefsOf;
    if es != [] {
      var o := Asked(site, es[0]);
      MissingIdFails(site, es[0], o.resources, acc);
      if Listable(site, es[0]) {
        ListingFailsIff(site, es[1..], RefsOf(site, es[0], o.resources, acc).value);
        assert forall i | 1 <= i < |es| :: es[i] == es[1..][i - 1];
      }
    }
  }
}
