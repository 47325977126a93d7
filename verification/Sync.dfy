/** One run of the synchronisation: a list of operations that is fixed beforehand, and that is executed
    one request at a time. */
module Sync {
  import opened Ordering
  import opened RenderedObjects
  import opened ScimSender
  import opened Wrappers

  /** An object that the server listed, when the cache is being rebuilt. */
  datatype ObjectRef = ObjectRef(uuid: string, endpoint: string)

  datatype Config = Config(endpoint: string -> string, types: seq<string>, maxTimeouts: int, network: Network)

  /** The inputs of a run: the current ids by type, the objects that could be rendered, the old cache. */
  datatype Task = Task(current: map<string, set<string>>, pre: Cache, cached: Cache,
                       rebuild: bool, listing: seq<ObjectRef>)

  /** The new cache while it is being built, and the state of the sender. */
  datatype State = State(link: Link, cache: Cache)

  function ListedUnder(current: map<string, set<string>>, typ: string): set<string> {
    if typ in current then current[typ] else {}
  }

  predicate HasObject(current: map<string, set<string>>, uuid: string) {
    exists t | t in current :: uuid in current[t]
  }

  // ---------- what is to be done ----------

  datatype Op =
    | CopyOp(o: RenderedObject)
    | PostOp(o: RenderedObject)
    | PutOp(o: RenderedObject)
    | SkipOp
    | DropOp(o: RenderedObject)
    | DropRefOp(ref: ObjectRef)

  predicate IsListed(listing: seq<ObjectRef>, uuid: string) {
    exists i | 0 <= i < |listing| :: listing[i].uuid == uuid
  }

  /** The operation for a current object; one that failed to render is copied if it is cached. */
  function Classify(task: Task, uid: string): Op {
    var obj := Lookup(task.pre, uid);
    if (if task.rebuild then !IsListed(task.listing, uid) else uid !in task.cached) then
      if obj.Some? then PostOp(obj.value) else SkipOp
    else if !task.rebuild && (obj.None? || obj.value == task.cached[uid]) then
      CopyOp(task.cached[uid])
    else if obj.Some? then PutOp(obj.value)
    else SkipOp
  }

  function ChangesOf(task: Task, uids: seq<string>): seq<Op> {
    if uids == [] then [] else [Classify(task, uids[0])] + ChangesOf(task, uids[1..])
  }

  /** The changes for the objects of one type, in the order of their uids. */
  function ChangesUnder(task: Task, typ: string): seq<Op> {
    ChangesOf(task, SortedKeys(ListedUnder(task.current, typ)))
  }

  function AllChanges(task: Task, types: seq<string>): seq<Op> {
    if types == [] then []
    else ChangesUnder(task, types[0]) + AllChanges(task, types[1..])
  }

  /** The cached objects of one type that are no longer listed under that type. */
  function Drops(es: seq<RenderedObject>, listed: set<string>, typ: string): seq<Op> {
    if es == [] then []
    else (if es[0].typ == typ && es[0].id !in listed then [DropOp(es[0])] else []) + Drops(es[1..], listed, typ)
  }

  function AllDrops(task: Task, types: seq<string>): seq<Op> {
    if types == [] then []
    else Drops(Entries(task.cached), ListedUnder(task.current, types[0]), types[0]) + AllDrops(task, types[1..])
  }

  function Reverse<T>(s: seq<T>): (r: seq<T>)
    ensures |r| == |s| && forall i | 0 <= i < |s| :: r[i] == s[|s| - 1 - i]
  {
    if s == [] then [] else Reverse(s[1..]) + [s[0]]
  }

  /** Each endpoint once, in the order in which its first type comes. */
  function Endpoints(cfg: Config, types: seq<string>, seen: set<string>): seq<string>
    decreases |types|
  {
    if types == [] then []
    else
      var e := cfg.endpoint(types[0]);
      if e in seen then Endpoints(cfg, types[1..], seen) else [e] + Endpoints(cfg, types[1..], seen + {e})
  }

  function RefDrops(task: Task, listing: seq<ObjectRef>, endpoint: string): seq<Op>
    decreases |listing|
  {
    if listing == [] then []
    else
      (if listing[0].endpoint == endpoint && !HasObject(task.current, listing[0].uuid) then [DropRefOp(listing[0])]
       else [])
      + RefDrops(task, listing[1..], endpoint)
  }

  function AllRefDrops(task: Task, endpoints: seq<string>): seq<Op>
    decreases |endpoints|
  {
    if endpoints == [] then []
    else RefDrops(task, task.listing, endpoints[0]) + AllRefDrops(task, endpoints[1..])
  }

  /** Creates and updates in send order, then deletes in the reverse order. */
  function Plan(cfg: Config, task: Task): seq<Op> {
    AllChanges(task, cfg.types)
    + if task.rebuild then AllRefDrops(task, Endpoints(cfg, Reverse(cfg.types), {}))
      else AllDrops(task, Reverse(cfg.types))
  }

  // ---------- doing it ----------

  function RequestOf(cfg: Config, op: Op): Option<Request> {
    match op
    case CopyOp(_) => None
    case SkipOp => None
    case PostOp(o) => Some(Create(cfg.endpoint(o.typ), o.id, o.json))
    case PutOp(o) => if o.id == "" then None else Some(Update(cfg.endpoint(o.typ), o.id, o.json))
    case DropOp(o) => if o.id == "" then None else Some(Delete(cfg.endpoint(o.typ), o.id))
    case DropRefOp(ref) => Some(Delete(ref.endpoint, ref.uuid))
  }

  /** What an operation puts into the new cache once its reply is known. */
  function Record(op: Op, reply: Reply, cache: Cache): Cache {
    match op
    case CopyOp(o) => if o.id == "" then cache else cache[o.id := o]
    case SkipOp => cache
    case PostOp(o) =>
      if reply == Http(201) || reply == Http(200) then cache[o.id := o]
      else if reply == Http(409) then cache[o.id := Dummy(o, CREATE_CONFLICT)]
      else cache
    case PutOp(o) =>
      if o.id == "" || reply == Http(404) then cache
      else if reply == Http(200) then cache[o.id := o]
      else cache[o.id := Dummy(o, FAILED_UPDATE)]
    case DropOp(o) =>
      if o.id == "" || reply == Http(204) || reply == Http(404) then cache else cache[o.id := o]
    case DropRefOp(_) => cache
  }

  function ReplyTo(cfg: Config, op: Op, st: State): Reply {
    match RequestOf(cfg, op)
    case None => NotSent
    case Some(r) => Reply1(cfg.network, st.link, r)
  }

  function ExecuteOne(cfg: Config, op: Op, st: State): State {
    match RequestOf(cfg, op)
    case None => State(st.link, Record(op, NotSent, st.cache))
    case Some(r) =>
      State(Send(cfg.network, cfg.maxTimeouts, st.link, r), Record(op, Reply1(cfg.network, st.link, r), st.cache))
  }

  /** The state after all the operations; after `k` of them it is `Execute(cfg, ops[..k], st)`. */
  function Execute(cfg: Config, ops: seq<Op>, st: State): State
    decreases |ops|
  {
    if ops == [] then st else ExecuteOne(cfg, ops[|ops| - 1], Execute(cfg, ops[..|ops| - 1], st))
  }

  lemma ExecuteNone(cfg: Config, st: State)
    ensures Execute(cfg, [], st) == st
  {
  }

  lemma ExecuteSnoc(cfg: Config, ops: seq<Op>, op: Op, st: State)
    ensures Execute(cfg, ops + [op], st) == ExecuteOne(cfg, op, Execute(cfg, ops, st))
  {
    assert (ops + [op])[..|ops|] == ops;
  }

  lemma {:induction false} ExecuteAppend(cfg: Config, a: seq<Op>, b: seq<Op>, st: State)
    ensures Execute(cfg, a + b, st) == Execute(cfg, b, Execute(cfg, a, st))
    decreases |b|
  {
    if b == [] {
      assert a + b == a;
    } else {
      var front := b[..|b| - 1];
      assert (a + b)[..|a + b| - 1] == a + front;
      ExecuteAppend(cfg, a, front, st);
    }
  }

  function Start(server: Server): State {
    State(Connected(server), map[])
  }

  /** A whole run against a server. */
  function Run(cfg: Config, task: Task, server: Server): State {
    Execute(cfg, Plan(cfg, task), Start(server))
  }
}
