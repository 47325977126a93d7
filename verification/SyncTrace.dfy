/** Nothing is forgotten or remembered falsely, whatever is answered and whenever the sender gives up. */
module SyncTrace {
  import opened RenderedObjects
  import opened ScimSender
  import opened Sync
  import opened SyncPlan
  import opened SyncTruth
  import opened SyncConvergence
  import opened SyncMemory

  /** On any network a cached id stays in the new cache unless the server has confirmed that it is absent;
      the one exception, on every network, is an id that nobody attends to. */
  lemma ForgetsExactlyTheUnattended(cfg: Config, task: Task, server: Server, id: string)
    requires WellFormed(cfg, task) && !task.rebuild && id in task.cached
    ensures Remembered(Run(cfg, task, server), id) <==> Attended(cfg, task, id)
  {
    hide Run, Remembered, Attended;
    if Attended(cfg, task, id) {
      AttendedIsRemembered(cfg, task, server, id);
    } else {
      UnattendedIsForgotten(cfg, task, server, id);
    }
  }

  // ---------- no false memory ----------

  /** The server accepted exactly this object during the run. */
  predicate Acknowledgement(cfg: Config, e: Exchange, o: RenderedObject) {
    (e.request == Create(cfg.endpoint(o.typ), o.id, o.json) && (e.reply == Http(201) || e.reply == Http(200)))
    || (e.request == Update(cfg.endpoint(o.typ), o.id, o.json) && e.reply == Http(200))
  }

  ghost predicate Acknowledged(cfg: Config, sent: seq<Exchange>, o: RenderedObject) {
    exists i :: 0 <= i < |sent| && Acknowledgement(cfg, sent[i], o)
  }

  /** An entry of the new cache: a dummy, an unchanged old entry, or an object accepted in this run. */
  ghost predicate Justified(cfg: Config, cached: Cache, st: State, id: string)
    requires id in st.cache
  {
    IsDummy(st.cache[id])
    || (id in cached && st.cache[id] == cached[id])
    || Acknowledged(cfg, st.link.sent, st.cache[id])
  }

  /** Only cached objects are ever copied or put back. */
  ghost predicate FromCache(cached: Cache, op: Op) {
    (op.CopyOp? || op.DropOp?) ==> op.o.id in cached && op.o == cached[op.o.id]
  }

  lemma JustifiedStep(cfg: Config, cached: Cache, op: Op, st: State, id: string)
    requires FromCache(cached, op) && id in ExecuteOne(cfg, op, st).cache
    requires id in st.cache ==> Justified(cfg, cached, st, id)
    ensures Justified(cfg, cached, ExecuteOne(cfg, op, st), id)
  {
    var sent, next := st.link.sent, ExecuteOne(cfg, op, st).link.sent;
    assert |sent| <= |next| && forall i | 0 <= i < |sent| :: next[i] == sent[i];
    if op.SkipOp? || op.DropRefOp? || IdOf(op) != id {
      StepLocal(cfg, op, st);
      var o := st.cache[id];
      if Acknowledged(cfg, sent, o) {
        var i :| 0 <= i < |sent| && Acknowledgement(cfg, sent[i], o);
        assert Acknowledgement(cfg, next[i], o);
      }
    } else {
      JustifiedHere(cfg, cached, op, st);
    }
  }

  lemma JustifiedHere(cfg: Config, cached: Cache, op: Op, st: State)
    requires FromCache(cached, op) && !op.SkipOp? && !op.DropRefOp?
    requires IdOf(op) in ExecuteOne(cfg, op, st).cache
    requires IdOf(op) in st.cache ==> Justified(cfg, cached, st, IdOf(op))
    ensures Justified(cfg, cached, ExecuteOne(cfg, op, st), IdOf(op))
  {
    var sent, next := st.link.sent, ExecuteOne(cfg, op, st);
    if |next.link.sent| > |sent| {
      assert next.link.sent[|sent|] == Exchange(RequestOf(cfg, op).value, ReplyTo(cfg, op, st));
    }
    if IdOf(op) in st.cache && Acknowledged(cfg, sent, st.cache[IdOf(op)]) {
      var i :| 0 <= i < |sent| && Acknowledgement(cfg, sent[i], st.cache[IdOf(op)]);
      assert Acknowledgement(cfg, next.link.sent[i], st.cache[IdOf(op)]);
    }
  }

  lemma {:induction false} AllJustified(cfg: Config, cached: Cache, ops: seq<Op>, st: State)
    requires st.cache == map[] && forall i | 0 <= i < |ops| :: FromCache(cached, ops[i])
    ensures forall id | id in Execute(cfg, ops, st).cache :: Justified(cfg, cached, Execute(cfg, ops, st), id)
    decreases |ops|
  {
    hide ExecuteOne, Justified, FromCache;
    if ops != [] {
      var n := |ops| - 1;
      var before, after := Execute(cfg, ops[..n], st), Execute(cfg, ops, st);
      AllJustified(cfg, cached, ops[..n], st);
      assert FromCache(cached, ops[n]);
      forall id | id in after.cache ensures Justified(cfg, cached, after, id) {
        JustifiedStep(cfg, cached, ops[n], before, id);
      }
    }
  }

  /** On any network every entry of the new cache is a dummy, or unchanged, or was accepted by the server in
      this very run. */
  lemma NoFalseMemory(cfg: Config, task: Task, server: Server)
    requires WellFormed(cfg, task) && !task.rebuild
    ensures var st := Run(cfg, task, server);
            forall id | id in st.cache :: Justified(cfg, task.cached, st, id)
  {
    hide Plan, Execute, Justified;
    var ops := Plan(cfg, task);
    NoRefDrops(cfg, task);
    forall i | 0 <= i < |ops| ensures FromCache(task.cached, ops[i]) {
      assert PlannedNormally(cfg, task, ops[i]);
      if ChangeFrom(cfg, task, cfg.types, ops[i]) {
        var t, u :| t in cfg.types && Current(cfg, task, t, u) && ops[i] == Classify(task, u);
      }
    }
    AllJustified(cfg, task.cached, ops, Start(server));
  }
}
