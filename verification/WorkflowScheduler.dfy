// The scheduler as the object the program runs: shared fields, a loop over the swapped
// batch, and finish calls on the shared table
// (keep/workflowmanager/workflowscheduler.py, WorkflowScheduler).
module WorkflowScheduler {
  import opened Wrappers
  import opened ExecutionTable
  import opened SchedulerModel
  import opened SchedulerInterval

  /** The database table all schedulers write to. */
  class ExecutionStore {
    var rows: Table

    constructor ()
      ensures rows == map[]
    {
      rows := map[];
    }

    /** `create_workflow_execution`; false stands for the IntegrityError. */
    method Create(id: ExecId, workflowId: string, number: nat, slot: int, fingerprint: string, exclusive: bool)
      returns (created: bool)
      modifies this
      ensures var r := Insert(old(rows), id, workflowId, number, slot, fingerprint, exclusive);
              created == r.Some? && rows == if r.Some? then r.value else old(rows)
    {
      var row := Row(workflowId, number, 1, slot, true, fingerprint, exclusive);
      created := !(id in rows || Taken(rows, row, {}));
      if created {
        rows := rows[id := row];
      }
    }
  }

  class WorkflowScheduler {
    const store: ExecutionStore
    var workflowsToRun: seq<Entry>
    var threads: seq<Worker>
    ghost var calls: seq<FinishCall>    // the finish calls made so far
    ghost var fates: seq<(nat, Fate)>   // what became of entries so far

    constructor (store: ExecutionStore)
      ensures this.store == store && workflowsToRun == [] && threads == [] && calls == [] && fates == []
    {
      this.store := store;
      workflowsToRun, threads, calls, fates := [], [], [], [];
    }

    ghost function Now(): Desk
      reads this, store
    {
      Desk(workflowsToRun, store.rows, threads, calls, fates)
    }

    /** A producer's append, under the lock. */
    method Enqueue(e: Entry)
      modifies this`workflowsToRun
      ensures workflowsToRun == old(workflowsToRun) + [e]
    {
      workflowsToRun := workflowsToRun + [e];
    }

    /** `handle_manual_event_workflow`: the execution is created first, so that the caller
        can track it; if that fails the error goes to the caller and nothing is queued. */
    method HandleManualEvent(ticket: nat, workflowId: string, event: Event, env: Env) returns (id: Option<ExecId>)
      modifies this`workflowsToRun, store
      ensures var number := env.randomNumber % (MAX_SIZE_SIGNED_INT + 1);
              match Insert(old(store.rows), env.newId, workflowId, number, env.slot, FingerprintOf(event), false)
              case None => id == None && store.rows == old(store.rows) && workflowsToRun == old(workflowsToRun)
              case Some(t) =>
                && id == Some(env.newId) && store.rows == t
                && workflowsToRun == old(workflowsToRun) + [Entry(ticket, workflowId, None, id, event, false)]
    {
      var number := env.randomNumber % (MAX_SIZE_SIGNED_INT + 1);
      var created := store.Create(env.newId, workflowId, number, env.slot, FingerprintOf(event), false);
      if !created {
        return None;
      }
      id := Some(env.newId);
      Enqueue(Entry(ticket, workflowId, None, id, event, false));
    }

    /** `_finish_workflow_execution`: one finish call with a status, which may raise. */
    method FinishWorkflowExecution(id: Option<ExecId>, workflowId: string, status: Status, env: Env)
      returns (raised: bool)
      modifies this`calls, store
      ensures (store.rows, raised) == CallFinish(old(store.rows), id, workflowId, env)
      ensures calls == old(calls) + [FinishCall(id, status)]
    {
      calls := calls + [FinishCall(id, status)];
      if id.None? || id.value !in store.rows || store.rows[id.value].workflowId != workflowId {
        return true;
      }
      var row := store.rows[id.value].(isRunning := env.draw, inProgress := false);
      if Taken(store.rows, row, {id.value}) {
        return true;
      }
      store.rows := store.rows[id.value := row];
      raised := env.afterFails;
    }

    /** `_run_workflow`: exactly one finish call, whatever the workflow does; it records
        success only for a workflow that returned without errors. */
    method RunWorkflow(w: Worker, outcome: Outcome, env: Env) returns (raised: bool)
      modifies this`calls, store
      ensures (store.rows, raised) == CallFinish(old(store.rows), Some(w.id), w.workflowId, env)
      ensures calls == old(calls) + [FinishCall(Some(w.id), if outcome == Ran(false) then Status.Success else Error)]
    {
      if outcome.RunRaised? {
        raised := FinishWorkflowExecution(Some(w.id), w.workflowId, Error, env);
        return;
      }
      if outcome.errors {
        raised := FinishWorkflowExecution(Some(w.id), w.workflowId, Error, env);
      } else {
        raised := FinishWorkflowExecution(Some(w.id), w.workflowId, Status.Success, env);
      }
    }

    /** One pass of the loop of `_handle_event_workflows`. */
    method HandleOne(hash: string -> nat, e: Entry, env: Env) returns (raised: bool)
      modifies this, store
      ensures var (t, v) := Handle(hash, e, old(store.rows), env);
              Now() == Record(old(Now()), e, t, v) && raised == Raises(v)
    {
      hide CallFinish, FingerprintOf, ExecutionNumber, Taken;
      NoFinish(store.rows, e.workflowId, env);
      var strategy: Strategy;
      if e.workflow.None? {
        if !env.load.Loaded? {
          raised := FinishWorkflowExecution(e.execution, e.workflowId, LoadStatus(env.load), env);
          fates := fates + [(e.ticket, WasFailed)];
          return;
        }
        strategy := env.load.strategy;
      } else {
        strategy := e.workflow.value;
      }
      var fingerprint := FingerprintOf(e.event);
      var executionId := e.execution;
      if executionId.None? {
        var number := if strategy.Parallel? then ExecutionNumber(hash, "", env.randomNumber)
                      else ExecutionNumber(hash, fingerprint, env.randomNumber);
        if env.createFails {
          fates := fates + [(e.ticket, WasDropped)];
          return false;
        }
        var created := store.Create(env.newId, e.workflowId, number, env.slot, fingerprint,
                                    !strategy.Parallel? && fingerprint != "");
        if !created {
          match strategy {
            case NonParallelWithRetry =>
              workflowsToRun := workflowsToRun + [Retried(e)];
              raised := false;
            case NonParallel =>
              raised := FinishWorkflowExecution(None, e.workflowId, Error, env);
              fates := fates + [(e.ticket, WasFailed)];
            case Parallel =>
              fates := fates + [(e.ticket, WasDropped)];
              raised := false;
          }
          return;
        }
        executionId := Some(env.newId);
      }
      if e.retry && e.event.Alert? && env.enrichFails {
        raised := FinishWorkflowExecution(executionId, e.workflowId, Error, env);
        fates := fates + [(e.ticket, WasFailed)];
        return;
      }
      threads := threads + [Worker(executionId.value, e.workflowId)];
      fates := fates + [(e.ticket, WasStarted)];
      return false;
    }

    /** `_handle_event_workflows`: swaps the queue out and handles what was in it. When a
        finish call raises, the error leaves the loop and the rest of the batch is gone. */
    method HandleEventWorkflows(hash: string -> nat, envs: seq<Env>) returns (raised: bool)
      requires |envs| == |workflowsToRun|
      modifies this, store
      ensures (Now(), raised) == Drain(hash, old(workflowsToRun), old(Now()).(queue := []), envs)
    {
      var batch := workflowsToRun;
      workflowsToRun := [];
      ghost var start := Now();
      var i := 0;
      while i < |batch|
        invariant 0 <= i <= |batch|
        invariant Drain(hash, batch, start, envs) == Drain(hash, batch[i..], Now(), envs[i..])
      {
        ghost var before := Now();
        assert batch[i..][1..] == batch[i + 1..] && envs[i..][1..] == envs[i + 1..];
        raised := HandleOne(hash, batch[i], envs[i]);
        if raised {
          fates := fates + Losses(batch[i + 1..]);
          return;
        }
        i := i + 1;
      }
      raised := false;
    }

    /** The loop of `_handle_interval_workflows` over the executions that were handed over.
        When a finish call raises, the error leaves the loop. */
    method HandleIntervalWorkflows(handed: seq<Worker>, envs: seq<Env>) returns (raised: bool)
      requires |envs| == |handed|
      modifies this`threads, this`calls, store
      ensures var r := HandOver(handed, old(store.rows), envs);
              && store.rows == r.table && raised == r.raised
              && threads == old(threads) + r.threads && calls == old(calls) + r.calls
    {
      ghost var before, started, called := HandOver(handed, store.rows, envs), threads, calls;
      ghost var newThreads: seq<Worker>, newCalls: seq<FinishCall> := [], [];
      var i := 0;
      assert handed[0..] == handed && envs[0..] == envs;
      while i < |handed|
        invariant 0 <= i <= |handed|
        invariant threads == started + newThreads && calls == called + newCalls
        invariant before == After(newThreads, newCalls, HandOver(handed[i..], store.rows, envs[i..]))
      {
        AfterStep(newThreads, newCalls, handed[i..], store.rows, envs[i..]);
        assert handed[i..][1..] == handed[i + 1..] && envs[i..][1..] == envs[i + 1..];
        if envs[i].load.Loaded? {
          threads := threads + [handed[i]];
          newThreads := newThreads + [handed[i]];
        } else {
          raised := FinishWorkflowExecution(Some(handed[i].id), handed[i].workflowId, LoadStatus(envs[i].load), envs[i]);
          newCalls := newCalls + [Ended(handed[i], envs[i])];
          if raised {
            return;
          }
        }
        i := i + 1;
      }
      raised := false;
    }
  }
}
