/** The sender of requests, and a remote server that may also fail in any way and at any time. */
module ScimSender {

  datatype Request =
    | Create(endpoint: string, id: string, json: string)
    | Update(endpoint: string, id: string, json: string)
    | Delete(endpoint: string, id: string)
  {
    function Key(): ResourceKey { ResourceKey(endpoint, id) }
  }

  datatype ResourceKey = ResourceKey(endpoint: string, id: string)

  /** What the server holds: the JSON last accepted for each resource. */
  type Server = map<ResourceKey, string>

  /** The outcome of one call. `NotSent` is the answer of an aborted sender. */
  datatype Reply = Http(code: int) | TimedOut | PermanentFailure | TransportError | NotSent

  /** How the network and the server treat one request: properly (and then a create may be answered
      with 200 instead of 201), or with a failure that may or may not have been applied. */
  datatype Behaviour = Healthy(plainOk: bool) | Faulty(reply: Reply, applied: bool)

  /** The behaviour met by the n-th request. */
  type Network = (nat, Request) -> Behaviour

  datatype Exchange = Exchange(request: Request, reply: Reply)

  // ---------- the server ----------

  function Apply(r: Request, s: Server): Server {
    match r
    case Create(_, _, json) => if r.Key() in s then s else s[r.Key() := json]
    case Update(_, _, json) => if r.Key() in s then s[r.Key() := json] else s
    case Delete(_, _) => s - {r.Key()}
  }

  function ProperReply(r: Request, plainOk: bool, s: Server): Reply {
    match r
    case Create(_, _, _) => Http(if r.Key() in s then 409 else if plainOk then 200 else 201)
    case Update(_, _, _) => Http(if r.Key() in s then 200 else 404)
    case Delete(_, _) => Http(if r.Key() in s then 204 else 404)
  }

  predicate Succeeded(r: Request, reply: Reply) {
    match r
    case Create(_, _, _) => reply == Http(201) || reply == Http(200)
    case Update(_, _, _) => reply == Http(200)
    case Delete(_, _) => reply == Http(204)
  }

  /** The error codes that the client acts on. */
  predicate Telling(r: Request, reply: Reply) {
    if r.Create? then reply == Http(409) else reply == Http(404)
  }

  /** A failure is not mistaken for a success, a conflict or an absence, and an HTTP code is one. */
  function FaultyReply(r: Request, reply: Reply): (f: Reply)
    ensures f != NotSent && !Succeeded(r, f) && !Telling(r, f)
    ensures f.Http? ==> 100 <= f.code < 600
  {
    if Succeeded(r, reply) || Telling(r, reply) then Http(500)
    else if reply.Http? && !(100 <= reply.code < 600) then Http(500)
    else if reply == NotSent then TransportError
    else reply
  }

  function ReplyOf(b: Behaviour, r: Request, s: Server): Reply {
    match b
    case Healthy(plainOk) => ProperReply(r, plainOk, s)
    case Faulty(reply, _) => FaultyReply(r, reply)
  }

  function ServerAfter(b: Behaviour, r: Request, s: Server): Server {
    if b.Healthy? || b.applied then Apply(r, s) else s
  }

  /** No delete is applied without being acknowledged. */
  ghost predicate Honest(net: Network) {
    forall n: nat, r: Request | r.Delete? && net(n, r).Faulty? :: !net(n, r).applied
  }

  ghost predicate FaultFree(net: Network) {
    forall n: nat, r: Request :: net(n, r).Healthy?
  }

  // ---------- the sender ----------

  /** The sender, the wire and the server behind it. */
  datatype Link = Link(server: Server, timeouts: int, aborted: bool, sent: seq<Exchange>)

  function Reply1(net: Network, l: Link, r: Request): Reply {
    if l.aborted then NotSent else ReplyOf(net(|l.sent|, r), r, l.server)
  }

  function Send(net: Network, maxTimeouts: int, l: Link, r: Request): Link {
    if l.aborted then l
    else
      var reply := Reply1(net, l, r);
      var timeouts := if reply == TimedOut then l.timeouts + 1 else l.timeouts;
      Link(ServerAfter(net(|l.sent|, r), r, l.server),
           timeouts,
           reply == PermanentFailure || (reply == TimedOut && timeouts > maxTimeouts),
           l.sent + [Exchange(r, reply)])
  }

  function Connected(server: Server): Link {
    Link(server, 0, false, [])
  }

  // ---------- the sender as the program has it ----------

  /** Stands for the HTTP layer and everything behind it. */
  class Wire {
    const network: Network
    var server: Server
    var sent: seq<Exchange>

    constructor (network: Network, server: Server)
      ensures this.network == network && this.server == server && sent == []
    {
      this.network, this.server, this.sent := network, server, [];
    }

    method Perform(r: Request) returns (reply: Reply)
      modifies this
      ensures reply == ReplyOf(network(|old(sent)|, r), r, old(server)) && reply != NotSent
      ensures server == ServerAfter(network(|old(sent)|, r), r, old(server))
      ensures sent == old(sent) + [Exchange(r, reply)]
    {
      var b := network(|sent|, r);
      reply := ReplyOf(b, r, server);
      server := ServerAfter(b, r, server);
      sent := sent + [Exchange(r, reply)];
    }
  }

  class Sender {
    const wire: Wire
    const maxTimeouts: int
    var numberOfTimeouts: int
    var aborted: bool

    ghost function State(): Link
      reads this, wire
    {
      Link(wire.server, numberOfTimeouts, aborted, wire.sent)
    }

    constructor (wire: Wire, maxTimeouts: int)
      ensures this.wire == wire && this.maxTimeouts == maxTimeouts
      ensures numberOfTimeouts == 0 && !aborted
    {
      this.wire, this.maxTimeouts := wire, maxTimeouts;
      numberOfTimeouts, aborted := 0, false;
    }

    method RegisterTimeout()
      modifies this
      ensures numberOfTimeouts == old(numberOfTimeouts) + 1
      ensures aborted == (old(aborted) || numberOfTimeouts > maxTimeouts)
    {
      numberOfTimeouts := numberOfTimeouts + 1;
      if numberOfTimeouts > maxTimeouts {
        aborted := true;
      }
    }

    /** The part that the three kinds of requests have in common. */
    method Transmit(r: Request) returns (reply: Reply)
      modifies this, wire
      ensures reply == Reply1(wire.network, old(State()), r)
      ensures State() == Send(wire.network, maxTimeouts, old(State()), r)
    {
      if aborted { return NotSent; }
      reply := wire.Perform(r);
      if reply == TimedOut {
        RegisterTimeout();
      }
      if reply == PermanentFailure {
        aborted := true;
      }
    }

    method SendCreate(endpoint: string, id: string, body: string) returns (ok: bool, conflict: bool)
      modifies this, wire
      ensures State() == Send(wire.network, maxTimeouts, old(State()), Create(endpoint, id, body))
      ensures var reply := Reply1(wire.network, old(State()), Create(endpoint, id, body));
              ok == Succeeded(Create(endpoint, id, body), reply) && conflict == (reply == Http(409))
    {
      conflict := false;
      var reply := Transmit(Create(endpoint, id, body));
      if !reply.Http? { return false, false; }
      if reply.code != 201 && reply.code != 200 {
        if reply.code == 409 {
          conflict := true;
        }
        return false, conflict;
      }
      ok := true;
    }

    method SendUpdate(endpoint: string, id: string, body: string) returns (ok: bool, nonExistent: bool)
      modifies this, wire
      ensures State() == Send(wire.network, maxTimeouts, old(State()), Update(endpoint, id, body))
      ensures var reply := Reply1(wire.network, old(State()), Update(endpoint, id, body));
              ok == Succeeded(Update(endpoint, id, body), reply) && nonExistent == (reply == Http(404))
    {
      nonExistent := false;
      var reply := Transmit(Update(endpoint, id, body));
      if !reply.Http? { return false, false; }
      if reply.code != 200 {
        if reply.code == 404 {
          nonExistent := true;
        }
        return false, nonExistent;
      }
      ok := true;
    }

    /** 0 for success, -1 when there was no HTTP answer, otherwise the HTTP code. */
    method SendDelete(endpoint: string, id: string) returns (err: int)
      modifies this, wire
      ensures State() == Send(wire.network, maxTimeouts, old(State()), Delete(endpoint, id))
      ensures var reply := Reply1(wire.network, old(State()), Delete(endpoint, id));
              err == (if reply == Http(204) then 0 else if reply.Http? then reply.code else -1)
              && (err == 0 <==> Succeeded(Delete(endpoint, id), reply)) && (err == 404 <==> reply == Http(404))
    {
      var reply := Transmit(Delete(endpoint, id));
      if !reply.Http? { return -1; }
      err := if reply.code != 204 then reply.code else 0;
    }
  }
}
