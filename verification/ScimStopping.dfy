/** When the sender stops, and that it does so in every run. */
module ScimStopping {
  import opened ScimSender
  import opened Sync

  function Timeouts(sent: seq<Exchange>): (n: nat)
    ensures n <= |sent|
  {
    if sent == [] then 0
    else Timeouts(sent[..|sent| - 1]) + if sent[|sent| - 1].reply == TimedOut then 1 else 0
  }

  /** Nothing was sent after a permanent failure, nor after more timeouts than allowed. */
  ghost predicate StoppedInTime(sent: seq<Exchange>, maxTimeouts: int) {
    forall i | 0 <= i < |sent| - 1 ::
      sent[i].reply != PermanentFailure && (sent[i].reply == TimedOut ==> Timeouts(sent[..i + 1]) <= maxTimeouts)
  }

  ghost predicate LastOneStops(l: Link, maxTimeouts: int) {
    l.sent != []
    && var last := l.sent[|l.sent| - 1].reply;
       last == PermanentFailure || (last == TimedOut && l.timeouts > maxTimeouts)
  }

  /** The counter and the flag say exactly what has happened on the wire. */
  ghost predicate SenderInvariant(l: Link, maxTimeouts: int) {
    l.timeouts == Timeouts(l.sent)
    && StoppedInTime(l.sent, maxTimeouts)
    && (l.aborted <==> LastOneStops(l, maxTimeouts))
  }

  lemma SendKeepsInvariant(net: Network, maxTimeouts: int, l: Link, r: Request)
    requires SenderInvariant(l, maxTimeouts)
    ensures SenderInvariant(Send(net, maxTimeouts, l, r), maxTimeouts)
  {
    hide StoppedInTime, Timeouts;
    if !l.aborted {
      var sent := Send(net, maxTimeouts, l, r).sent;
      assert sent[..|sent| - 1] == l.sent;
      TimeoutsSnoc(sent);
      StoppedSnoc(l, sent, maxTimeouts);
    }
  }

  lemma TimeoutsSnoc(sent: seq<Exchange>)
    requires sent != []
    ensures Timeouts(sent) == Timeouts(sent[..|sent| - 1]) + if sent[|sent| - 1].reply == TimedOut then 1 else 0
  {
  }

  lemma StoppedSnoc(l: Link, sent: seq<Exchange>, maxTimeouts: int)
    requires SenderInvariant(l, maxTimeouts) && !l.aborted && sent != [] && sent[..|sent| - 1] == l.sent
    ensures StoppedInTime(sent, maxTimeouts)
  {
    hide Timeouts;
    forall i | 0 <= i < |sent| - 1
      ensures sent[i].reply != PermanentFailure
      ensures sent[i].reply == TimedOut ==> Timeouts(sent[..i + 1]) <= maxTimeouts
    {
      assert sent[i] == l.sent[i];
      assert sent[..i + 1] == l.sent[..i + 1];
      if i == |l.sent| - 1 { assert l.sent[..i + 1] == l.sent; }
    }
  }

  // ---------- the sender during a run ----------

  /** No request is sent after a permanent failure or after more timeouts than allowed. */
  lemma {:induction false} SenderStops(cfg: Config, ops: seq<Op>, st: State)
    requires SenderInvariant(st.link, cfg.maxTimeouts)
    ensures SenderInvariant(Execute(cfg, ops, st).link, cfg.maxTimeouts)
    decreases |ops|
  {
    hide SenderInvariant, Send;
    if ops != [] {
      var before := Execute(cfg, ops[..|ops| - 1], st);
      SenderStops(cfg, ops[..|ops| - 1], st);
      match RequestOf(cfg, ops[|ops| - 1])
      case None =>
      case Some(r) => SendKeepsInvariant(cfg.network, cfg.maxTimeouts, before.link, r);
    }
  }

  lemma RunStopsInTime(cfg: Config, task: Task, server: Server)
    ensures StoppedInTime(Run(cfg, task, server).link.sent, cfg.maxTimeouts)
  {
    SenderStops(cfg, Plan(cfg, task), Start(server));
  }
}
