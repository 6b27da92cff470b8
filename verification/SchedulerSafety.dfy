// The rows of the execution table, and mutual exclusion on every run.
module SchedulerSafety {
  import opened Wrappers
  import opened ExecutionTable
  import opened SchedulerModel
  import opened SchedulerSystem

  // ---- Rows ----

  /** Every row: in progress only while its `isRunning` is still 1, and numbered by its
      fingerprint when it is an exclusive claim. */
  ghost predicate RowsSound(hash: string -> nat, t: Table) {
    && Unique(t)
    && (forall id :: id in t && t[id].inProgress ==> t[id].isRunning == 1)
    && (forall id :: id in t && t[id].exclusive ==>
          t[id].fingerprint != "" && t[id].number == ExecutionNumber(hash, t[id].fingerprint, 0))
  }

  /** An execution that no finish call was made for is still in progress. */
  ghost predicate OpenUntilCalled(s: System) {
    forall id :: id in s.table && id !in s.calls ==> s.table[id].inProgress
  }

  lemma FinishKeepsRows(hash: string -> nat, t: Table, id: Option<ExecId>, workflowId: string, env: Env)
    requires RowsSound(hash, t)
    ensures RowsSound(hash, CallFinish(t, id, workflowId, env).0)
    ensures var t' := CallFinish(t, id, workflowId, env).0;
            t'.Keys == t.Keys && forall i :: i in t && Some(i) != id ==> t'[i] == t[i]
  {}

  lemma ClaimKeepsRows(hash: string -> nat, e: Entry, t: Table, env: Env)
    requires RowsSound(hash, t) && !NeedsLoad(e, env) && Claim(hash, e, t, env).Some?
    ensures RowsSound(hash, Claim(hash, e, t, env).value)
    ensures var t' := Claim(hash, e, t, env).value;
            && env.newId !in t && t'.Keys == t.Keys + {env.newId}
            && (forall i :: i in t ==> t'[i] == t[i]) && t'[env.newId].inProgress
  {}

  /** One change of a pass touches no row but the one it finishes, and the row it adds
      is in progress. */
  lemma AdvanceKeepsRows(hash: string -> nat, e: Entry, turn: Turn, t: Table, env: Env)
    requires RowsSound(hash, t)
    ensures var (t', n) := Advance(hash, e, turn, t, env);
            && RowsSound(hash, t') && t.Keys <= t'.Keys
            && (forall id :: id in t && (n.On? || id !in HandledCalls(n.verdict)) ==> t'[id] == t[id])
            && (forall id :: id in t' && id !in t ==> t'[id].inProgress)
  {
    hide RowsSound, CallFinish, Claim, StrategyOf, ExecutionNumber, Exclusive;
    match turn {
      case Claimed(id) => FinishKeepsRows(hash, t, Some(id), e.workflowId, env);
      case Collided =>
      case Fresh =>
        FinishKeepsRows(hash, t, e.execution, e.workflowId, env);
        if !NeedsLoad(e, env) && e.execution.None? && !env.createFails && Claim(hash, e, t, env).Some? {
          ClaimKeepsRows(hash, e, t, env);
        }
    }
  }

  lemma InsertKeepsRows(hash: string -> nat, t: Table, id: ExecId, workflowId: string, number: nat, slot: int,
                        fingerprint: string)
    requires RowsSound(hash, t)
    ensures var r := Insert(t, id, workflowId, number, slot, fingerprint, false);
            r.Some? ==> RowsSound(hash, r.value)
  {}

  /** Only rows with a new finish call change, and rows are added in progress. */
  lemma StaysOpen(s: System, s': System)
    requires OpenUntilCalled(s) && s.calls <= s'.calls
    requires forall id :: id in s'.table && id !in s'.calls && id in s.table ==> s'.table[id] == s.table[id]
    requires forall id :: id in s'.table && id !in s.table ==> s'.table[id].inProgress
    ensures OpenUntilCalled(s')
  {
    forall id | id in s'.table && id !in s'.calls ensures s'.table[id].inProgress {
      assert s.calls[id] <= s'.calls[id];
    }
  }

  lemma HandleKeepsRows(hash: string -> nat, s: System, sid: nat, env: Env)
    requires RowsSound(hash, s.table) && OpenUntilCalled(s) && sid < |s.scheds| && s.scheds[sid].held != []
    ensures RowsSound(hash, DoHandle(hash, s, sid, env).table) && OpenUntilCalled(DoHandle(hash, s, sid, env))
  {
    hide Advance, RowsSound, OpenUntilCalled, HandledFates, HandledLeaks, HandledWorkers, HandledLocal, HandledCalls;
    var l := s.scheds[sid];
    var (t, n) := Advance(hash, l.held[0], l.turn, s.table, env);
    AdvanceKeepsRows(hash, l.held[0], l.turn, s.table, env);
    var s' := DoHandle(hash, s, sid, env);
    if n.Over? {
      forall id | id !in s'.calls ensures id !in HandledCalls(n.verdict) {
        assert (s.calls + HandledCalls(n.verdict))[id] == s.calls[id] + HandledCalls(n.verdict)[id];
      }
    }
    StaysOpen(s, s');
  }

  lemma StepKeepsRows(hash: string -> nat, s: System, a: Action)
    requires RowsSound(hash, s.table) && OpenUntilCalled(s) && Enabled(s, a)
    ensures RowsSound(hash, Apply(hash, s, a).table) && OpenUntilCalled(Apply(hash, s, a))
  {
    hide RowsSound, OpenUntilCalled, DoHandle, CallFinish, FingerprintOf;
    match a
    case Enqueue(sid, workflowId, strategy, event) => StaysOpen(s, Apply(hash, s, a));
    case AskManual(workflowId, event, env) =>
      var number := env.randomNumber % (MAX_SIZE_SIGNED_INT + 1);
      InsertKeepsRows(hash, s.table, env.newId, workflowId, number, env.slot, FingerprintOf(event));
      StaysOpen(s, Apply(hash, s, a));
    case QueueManual(sid, k) => StaysOpen(s, Apply(hash, s, a));
    case Swap(sid) => StaysOpen(s, Apply(hash, s, a));
    case HandleNext(sid, env) => HandleKeepsRows(hash, s, sid, env);
    case QueryInterval(sid, workflowId, number, env) =>
      InsertKeepsRows(hash, s.table, env.newId, workflowId, number, env.slot, "");
      StaysOpen(s, Apply(hash, s, a));
    case StartInterval(sid, env) =>
      var w := s.scheds[sid].handed[0];
      CallKeepsRows(hash, s, w, env, DoInterval(s, sid, env));
    case WorkerEnds(k, outcome, env) =>
      CallKeepsRows(hash, s, s.workers[k], env, DoEnd(s, k, outcome, env));
  }

  /** A step that finishes one execution, or none. */
  lemma CallKeepsRows(hash: string -> nat, s: System, w: Worker, env: Env, s': System)
    requires RowsSound(hash, s.table) && OpenUntilCalled(s)
    requires || (s'.table == s.table && s'.calls == s.calls)
             || (s'.table == CallFinish(s.table, Some(w.id), w.workflowId, env).0 && s'.calls == s.calls + multiset{w.id})
    ensures RowsSound(hash, s'.table) && OpenUntilCalled(s')
  {
    FinishKeepsRows(hash, s.table, Some(w.id), w.workflowId, env);
    hide RowsSound, OpenUntilCalled, CallFinish;
    StaysOpen(s, s');
  }

  // ---- Mutual exclusion ----

  /** Two different executions in progress for the same workflow and fingerprint, both
      claimed under a non-parallel strategy. */
  ghost predicate Conflict(t: Table, i: ExecId, j: ExecId) {
    && i in t && j in t && i != j && t[i].inProgress && t[j].inProgress && t[i].exclusive && t[j].exclusive
    && t[i].workflowId == t[j].workflowId && t[i].fingerprint == t[j].fingerprint
  }

  ghost predicate MutuallyExclusive(t: Table) {
    forall i, j :: !Conflict(t, i, j)
  }

  /** On sound rows, two such executions can only come from different two-minute slots:
      the unique constraint keeps them apart within a slot. */
  lemma ConflictsCrossSlots(hash: string -> nat, t: Table, i: ExecId, j: ExecId)
    requires RowsSound(hash, t) && Conflict(t, i, j)
    ensures t[i].slot != t[j].slot
  {
    assert Key(t[i]) == Key(t[j]) || t[i].slot != t[j].slot;
  }

  /** An execution for this workflow and fingerprint is still in progress from another
      slot than the current one. */
  ghost predicate Overdue(t: Table, workflowId: string, fingerprint: string, slot: int) {
    exists id :: id in t && t[id].inProgress && t[id].exclusive && t[id].workflowId == workflowId
                 && t[id].fingerprint == fingerprint && t[id].slot != slot
  }

  /** The exact condition for one claim: a table without conflicts stays without them if
      and only if the claim is not accepted past an execution from another slot. */
  lemma ClaimExclusionIff(hash: string -> nat, e: Entry, t: Table, env: Env)
    requires RowsSound(hash, t) && MutuallyExclusive(t)
    requires !NeedsLoad(e, env) && Exclusive(e, env) && Claim(hash, e, t, env).Some?
    ensures MutuallyExclusive(Claim(hash, e, t, env).value)
        <==> !Overdue(t, e.workflowId, FingerprintOf(e.event), env.slot)
  {
    var t' := Claim(hash, e, t, env).value;
    ClaimKeepsRows(hash, e, t, env);
    if Overdue(t, e.workflowId, FingerprintOf(e.event), env.slot) {
      var id :| id in t && t[id].inProgress && t[id].exclusive && t[id].workflowId == e.workflowId
                && t[id].fingerprint == FingerprintOf(e.event) && t[id].slot != env.slot;
      assert Conflict(t', id, env.newId);
    } else {
      forall i, j ensures !Conflict(t', i, j) {
        assert !Conflict(t, i, j);
        if Conflict(t', i, j) {
          ConflictsCrossSlots(hash, t', i, j);
        }
      }
    }
  }

  /** Changes that cannot make a conflict: rows only stop being in progress, and new
      rows are not exclusive. */
  lemma NoNewConflicts(t: Table, t': Table)
    requires MutuallyExclusive(t) && t.Keys <= t'.Keys
    requires forall id :: id in t ==> t'[id] == t[id] || !t'[id].inProgress
    requires forall id :: id in t' && id !in t ==> !t'[id].exclusive
    ensures MutuallyExclusive(t')
  {
    forall i, j ensures !Conflict(t', i, j) {
      assert !Conflict(t, i, j);
    }
  }

  /** The next change of the pass claims an execution while one from another slot is
      still in progress. */
  ghost predicate Untimely(hash: string -> nat, e: Entry, turn: Turn, t: Table, env: Env) {
    && turn.Fresh? && !NeedsLoad(e, env) && e.execution.None? && !env.createFails && Exclusive(e, env)
    && Claim(hash, e, t, env).Some?
    && Overdue(t, e.workflowId, FingerprintOf(e.event), env.slot)
  }

  /** A finish call leaves each row as it is or no longer in progress. */
  lemma FinishOnlyEnds(t: Table, id: Option<ExecId>, workflowId: string, env: Env)
    ensures var t' := CallFinish(t, id, workflowId, env).0;
            t'.Keys == t.Keys && forall i :: i in t ==> t'[i] == t[i] || !t'[i].inProgress
  {}

  lemma FinishExclusion(t: Table, id: Option<ExecId>, workflowId: string, env: Env)
    requires MutuallyExclusive(t)
    ensures MutuallyExclusive(CallFinish(t, id, workflowId, env).0)
  {
    FinishOnlyEnds(t, id, workflowId, env);
    NoNewConflicts(t, CallFinish(t, id, workflowId, env).0);
  }

  /** A claim that is not exclusive does no harm. */
  lemma OtherClaimExclusion(hash: string -> nat, e: Entry, t: Table, env: Env)
    requires MutuallyExclusive(t) && !NeedsLoad(e, env) && !Exclusive(e, env) && Claim(hash, e, t, env).Some?
    ensures MutuallyExclusive(Claim(hash, e, t, env).value)
  {
    NoNewConflicts(t, Claim(hash, e, t, env).value);
  }

  lemma AdvanceExclusionIff(hash: string -> nat, e: Entry, turn: Turn, t: Table, env: Env)
    requires RowsSound(hash, t) && MutuallyExclusive(t)
    ensures MutuallyExclusive(Advance(hash, e, turn, t, env).0) <==> !Untimely(hash, e, turn, t, env)
  {
    hide RowsSound, MutuallyExclusive, CallFinish, Claim, StrategyOf, Exclusive, Overdue;
    match turn {
      case Claimed(id) => FinishExclusion(t, Some(id), e.workflowId, env);
      case Collided =>
      case Fresh =>
        FinishExclusion(t, e.execution, e.workflowId, env);
        if !NeedsLoad(e, env) && e.execution.None? && !env.createFails && Claim(hash, e, t, env).Some? {
          if Exclusive(e, env) {
            ClaimExclusionIff(hash, e, t, env);
          } else {
            OtherClaimExclusion(hash, e, t, env);
          }
        }
    }
  }

  ghost predicate UntimelyStep(hash: string -> nat, s: System, a: Action) {
    && a.HandleNext? && Enabled(s, a)
    && Untimely(hash, s.scheds[a.sid].held[0], s.scheds[a.sid].turn, s.table, a.env)
  }

  lemma InsertExclusion(t: Table, id: ExecId, workflowId: string, number: nat, slot: int, fingerprint: string)
    requires MutuallyExclusive(t)
    ensures var r := Insert(t, id, workflowId, number, slot, fingerprint, false);
            r.Some? ==> MutuallyExclusive(r.value)
  {
    var r := Insert(t, id, workflowId, number, slot, fingerprint, false);
    if r.Some? {
      NoNewConflicts(t, r.value);
    }
  }

  lemma StepExclusionIff(hash: string -> nat, s: System, a: Action)
    requires RowsSound(hash, s.table) && MutuallyExclusive(s.table) && Enabled(s, a)
    ensures MutuallyExclusive(Apply(hash, s, a).table) <==> !UntimelyStep(hash, s, a)
  {
    hide RowsSound, MutuallyExclusive, Advance, CallFinish, Insert, Untimely, FingerprintOf;
    match a
    case Enqueue(sid, workflowId, strategy, event) =>
    case AskManual(workflowId, event, env) =>
      var number := env.randomNumber % (MAX_SIZE_SIGNED_INT + 1);
      InsertExclusion(s.table, env.newId, workflowId, number, env.slot, FingerprintOf(event));
    case QueueManual(sid, k) =>
    case Swap(sid) =>
    case HandleNext(sid, env) =>
      AdvanceExclusionIff(hash, s.scheds[sid].held[0], s.scheds[sid].turn, s.table, env);
    case QueryInterval(sid, workflowId, number, env) =>
      InsertExclusion(s.table, env.newId, workflowId, number, env.slot, "");
    case StartInterval(sid, env) =>
      var w := s.scheds[sid].handed[0];
      FinishExclusion(s.table, Some(w.id), w.workflowId, env);
    case WorkerEnds(k, outcome, env) =>
      FinishExclusion(s.table, Some(s.workers[k].id), s.workers[k].workflowId, env);
  }

  /** No conflict at any moment of a run. */
  ghost predicate ExclusiveThroughout(hash: string -> nat, s: System, actions: seq<Action>)
    decreases actions
  {
    && MutuallyExclusive(s.table)
    && (actions != [] ==> Enabled(s, actions[0]) && ExclusiveThroughout(hash, Apply(hash, s, actions[0]), actions[1..]))
  }

  /** No step of the run claims past an execution from another slot. */
  ghost predicate TimelyThroughout(hash: string -> nat, s: System, actions: seq<Action>)
    decreases actions
  {
    actions != [] ==>
      && Enabled(s, actions[0]) && !UntimelyStep(hash, s, actions[0])
      && TimelyThroughout(hash, Apply(hash, s, actions[0]), actions[1..])
  }

  /** Mutual exclusion holds all through a run if and only if no claim of the run is
      accepted past an execution that is still in progress from another slot. */
  lemma {:induction false} RunExclusionIff(hash: string -> nat, s: System, actions: seq<Action>, s': System)
    requires RowsSound(hash, s.table) && OpenUntilCalled(s) && MutuallyExclusive(s.table)
    requires Run(hash, s, actions, s')
    ensures ExclusiveThroughout(hash, s, actions) <==> TimelyThroughout(hash, s, actions)
    decreases actions
  {
    if actions != [] {
      var next := Apply(hash, s, actions[0]);
      StepKeepsRows(hash, s, actions[0]);
      StepExclusionIff(hash, s, actions[0]);
      hide Apply, UntimelyStep, RowsSound, OpenUntilCalled, MutuallyExclusive, Enabled;
      if MutuallyExclusive(next.table) {
        RunExclusionIff(hash, next, actions[1..], s');
      } else {
        assert !ExclusiveThroughout(hash, next, actions[1..]);
      }
    }
  }
}
