/** Cached ids that stay in the new cache, or that the server has confirmed to be absent: operation by
    operation, and for a whole plan. */
module SyncMemory {
  import opened ScimSender
  import opened Sync
  import opened SyncPlan
  import opened SyncConvergence

  /** The server said that it does not have the id (any more). */
  predicate Absence(e: Exchange, id: string) {
    e.request.id == id
    && ((e.request.Delete? && (e.reply == Http(204) || e.reply == Http(404)))
        || (e.request.Update? && e.reply == Http(404)))
  }

  ghost predicate ConfirmedAbsent(sent: seq<Exchange>, id: string) {
    exists i :: 0 <= i < |sent| && Absence(sent[i], id)
  }

  ghost predicate Remembered(st: State, id: string) {
    id in st.cache || ConfirmedAbsent(st.link.sent, id)
  }

  lemma RememberedStep(cfg: Config, op: Op, st: State, id: string)
    ensures Remembered(st, id) ==> Remembered(ExecuteOne(cfg, op, st), id)
    ensures !op.SkipOp? && !op.PostOp? && !op.DropRefOp? && IdOf(op) == id != ""
        ==> Remembered(ExecuteOne(cfg, op, st), id)
  {
    var sent, next := st.link.sent, ExecuteOne(cfg, op, st).link.sent;
    assert |sent| <= |next| && forall i | 0 <= i < |sent| :: next[i] == sent[i];
    if ConfirmedAbsent(sent, id) {
      var i :| 0 <= i < |sent| && Absence(sent[i], id);
      assert Absence(next[i], id);
    }
    if |next| > |sent| {
      assert next[|sent|] == Exchange(RequestOf(cfg, op).value, ReplyTo(cfg, op, st));
    }
  }

  lemma {:induction false} RememberedThroughout(cfg: Config, ops: seq<Op>, st: State, id: string, k: nat)
    requires k < |ops| && id != "" && IdOf(ops[k]) == id
    requires !ops[k].SkipOp? && !ops[k].PostOp? && !ops[k].DropRefOp?
    ensures Remembered(Execute(cfg, ops, st), id)
    decreases |ops|
  {
    hide ExecuteOne, IdOf, Remembered;
    var n := |ops| - 1;
    RememberedStep(cfg, ops[n], Execute(cfg, ops[..n], st), id);
    if k < n { RememberedThroughout(cfg, ops[..n], st, id, k); }
  }

  /** Every cached id is looked after: it is current, or its type is handled. */
  ghost predicate Attended(cfg: Config, task: Task, id: string)
    requires id in task.cached
  {
    CurrentId(cfg, task, id) || task.cached[id].typ in cfg.types
  }

  lemma AttendedIsRemembered(cfg: Config, task: Task, server: Server, id: string)
    requires WellFormed(cfg, task) && !task.rebuild && id in task.cached && Attended(cfg, task, id)
    ensures Remembered(Run(cfg, task, server), id)
  {
    hide Plan, Execute, Remembered;
    var ops, o := Plan(cfg, task), task.cached[id];
    if CurrentId(cfg, task, id) {
      var t :| Current(cfg, task, t, id);
      ChangePlanned(cfg, task, t, id);
      var k :| 0 <= k < |ops| && ops[k] == Classify(task, id);
      RememberedThroughout(cfg, ops, Start(server), id, k);
    } else {
      assert id in ListedUnder(task.current, o.typ) ==> Current(cfg, task, o.typ, id);
      DropPlannedFor(cfg, task, o);
      var k :| 0 <= k < |ops| && ops[k] == DropOp(o);
      RememberedThroughout(cfg, ops, Start(server), id, k);
    }
  }

  ghost predicate Unmentioned(st: State, id: string) {
    id !in st.cache && forall i | 0 <= i < |st.link.sent| :: st.link.sent[i].request.id != id
  }

  lemma {:induction false} NeverMentioned(cfg: Config, ops: seq<Op>, st: State, id: string)
    requires Unmentioned(st, id) && forall i | 0 <= i < |ops| :: ops[i].SkipOp? || IdOf(ops[i]) != id
    ensures Unmentioned(Execute(cfg, ops, st), id)
    decreases |ops|
  {
    if ops != [] {
      NeverMentioned(cfg, ops[..|ops| - 1], st, id);
      assert ops[|ops| - 1].SkipOp? || IdOf(ops[|ops| - 1]) != id;
    }
  }

  lemma UnattendedIsForgotten(cfg: Config, task: Task, server: Server, id: string)
    requires WellFormed(cfg, task) && !task.rebuild && id in task.cached && !Attended(cfg, task, id)
    ensures !Remembered(Run(cfg, task, server), id)
  {
    hide Plan, Execute, Classify;
    var ops := Plan(cfg, task);
    NoRefDrops(cfg, task);
    forall i | 0 <= i < |ops| ensures ops[i].SkipOp? || IdOf(ops[i]) != id {
      assert PlannedNormally(cfg, task, ops[i]);
      if ChangeFrom(cfg, task, cfg.types, ops[i]) {
        var t, u :| t in cfg.types && Current(cfg, task, t, u) && ops[i] == Classify(task, u);
        ClassifiedId(cfg, task, t, u);
      }
    }
    NeverMentioned(cfg, ops, Start(server), id);
  }
}
