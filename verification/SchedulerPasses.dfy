// What one claim, one finish call and one whole pass come to, said on rows and entries
// (keep/api/core/db.py, create_workflow_execution and finish_workflow_execution;
// keep/workflowmanager/workflowscheduler.py, _handle_event_workflows).
module SchedulerPasses {
  import opened Wrappers
  import opened ExecutionTable
  import opened SchedulerModel

  // ---- The table ----

  /** Some row other than `except` has this workflow, number, running mark and slot. */
  ghost predicate Blocks(t: Table, workflowId: string, number: nat, isRunning: nat, slot: int, except: set<ExecId>) {
    exists id :: id in t && id !in except
                 && t[id].workflowId == workflowId && t[id].number == number && t[id].isRunning == isRunning
                 && t[id].slot == slot
  }

  lemma TakenIff(t: Table, r: Row, except: set<ExecId>)
    ensures Taken(t, r, except) <==> Blocks(t, r.workflowId, r.number, r.isRunning, r.slot, except)
  {
    if Taken(t, r, except) {
      var id :| id in t && id !in except && Key(t[id]) == Key(r);
    }
    if Blocks(t, r.workflowId, r.number, r.isRunning, r.slot, except) {
      var id :| id in t && id !in except && t[id].workflowId == r.workflowId && t[id].number == r.number
                && t[id].isRunning == r.isRunning && t[id].slot == r.slot;
      assert Key(t[id]) == Key(r);
    }
  }

  /** A row is added, marked as running, unless its id is taken or a running row has its
      workflow, number and slot. */
  lemma InsertIff(t: Table, id: ExecId, workflowId: string, number: nat, slot: int, fingerprint: string, exclusive: bool)
    ensures var r := Insert(t, id, workflowId, number, slot, fingerprint, exclusive);
            && (r.None? <==> id in t || Blocks(t, workflowId, number, 1, slot, {}))
            && (r.Some? ==> r.value == t[id := Row(workflowId, number, 1, slot, true, fingerprint, exclusive)])
  {
    TakenIff(t, Row(workflowId, number, 1, slot, true, fingerprint, exclusive), {});
  }

  /** Finishing raises for an execution that is not there, or not the workflow's, and when the
      drawn number is taken by another row of its workflow, number and slot; otherwise it
      changes this row only, which is then closed and running no more but for the draw. */
  lemma FinishIff(t: Table, id: Option<ExecId>, workflowId: string, draw: nat)
    ensures var r := Finish(t, id, workflowId, draw);
            && (r.NotFound? <==> id.None? || id.value !in t || t[id.value].workflowId != workflowId)
            && (!r.NotFound? ==>
                  var row := t[id.value];
                  && (r.Clash? <==> Blocks(t, workflowId, row.number, draw, row.slot, {id.value}))
                  && (r.Finished? ==>
                        r.table == t[id.value := Row(workflowId, row.number, draw, row.slot, false, row.fingerprint,
                                                     row.exclusive)]))
  {
    if id.Some? && id.value in t && t[id.value].workflowId == workflowId {
      TakenIff(t, t[id.value].(isRunning := draw, inProgress := false), {id.value});
    }
  }

  /** Once a running execution is finished, its workflow, number and slot are free for the next
      one, if and only if the number drawn is not 1. */
  lemma FreedIff(t: Table, id: ExecId, workflowId: string, draw: nat, next: ExecId, fingerprint: string, exclusive: bool)
    requires Unique(t) && id in t && t[id].isRunning == 1 && next !in t
    requires Finish(t, Some(id), workflowId, draw).Finished?
    ensures var t' := Finish(t, Some(id), workflowId, draw).table;
            Insert(t', next, workflowId, t[id].number, t[id].slot, fingerprint, exclusive).Some? <==> draw != 1
  {
    var t' := Finish(t, Some(id), workflowId, draw).table;
    FinishIff(t, Some(id), workflowId, draw);
    InsertIff(t', next, workflowId, t[id].number, t[id].slot, fingerprint, exclusive);
    forall other | other in t && other != id ensures Key(t[other]) != Key(t[id]) {}
  }

  /** A row that is closed and blocks all the same. */
  lemma DrawOfOneBlocks()
    ensures var t: Table := map[0 := Row("w", 7, 1, 0, true, "f", true)];
            var r := Finish(t, Some(0), "w", 1);
            r.Finished? && !r.table[0].inProgress && Insert(r.table, 1, "w", 7, 0, "f", true) == None
  {
    var t: Table := map[0 := Row("w", 7, 1, 0, true, "f", true)];
    FreedIff(t, 0, "w", 1, 1, "f", true);
  }

  // ---- A claim ----

  /** The fingerprint an event is claimed under. */
  function Under(event: Event): string {
    match event
    case Alert(fingerprint) => fingerprint
    case Incident(id) => "incident:" + id
  }

  function Decides(e: Entry, env: Env): Option<Strategy> {
    if e.workflow.Some? then e.workflow
    else if env.load.Loaded? then Some(env.load.strategy)
    else None
  }

  /** The number a claim is made with: the hash of the fingerprint under a strategy that is not
      parallel, if there is a fingerprint, and a random one otherwise. */
  function Number(hash: string -> nat, e: Entry, strategy: Strategy, random: nat): nat {
    (if strategy != Parallel && Under(e.event) != "" then hash(Under(e.event)) else random) % 2147483648
  }

  /** A claim is refused if and only if its id is taken or a running row has its workflow,
      number and slot; otherwise its row is added, which is exclusive if the number is a hash. */
  lemma ClaimIff(hash: string -> nat, e: Entry, t: Table, env: Env, strategy: Strategy)
    requires Decides(e, env) == Some(strategy)
    ensures var n := Number(hash, e, strategy, env.randomNumber);
            var claimed := Claim(hash, e, t, env);
            && (claimed.None? <==> env.newId in t || Blocks(t, e.workflowId, n, 1, env.slot, {}))
            && (claimed.Some? ==>
                  claimed.value == t[env.newId := Row(e.workflowId, n, 1, env.slot, true, Under(e.event),
                                                      strategy != Parallel && Under(e.event) != "")])
  {
    assert FingerprintOf(e.event) == Under(e.event) && StrategyOf(e, env) == strategy;
    InsertIff(t, env.newId, e.workflowId, Number(hash, e, strategy, env.randomNumber), env.slot, Under(e.event),
              strategy != Parallel && Under(e.event) != "");
  }

  // ---- A whole pass ----

  /** What decides how a pass ends: the workflow does not load; an execution has to be claimed
      and can be; the claim is refused; the refresh of a retried alert fails. */
  datatype Case = Case(unloaded: bool, claims: bool, refused: bool, refreshFails: bool)

  ghost function CaseOf(hash: string -> nat, e: Entry, t: Table, env: Env): Case {
    match Decides(e, env)
    case None => Case(true, false, false, false)
    case Some(strategy) =>
      Case(false, e.execution.None? && !env.createFails,
           env.newId in t || Blocks(t, e.workflowId, Number(hash, e, strategy, env.randomNumber), 1, env.slot, {}),
           e.retry && e.event.Alert? && env.enrichFails)
  }

  /** How a pass ends, for every entry and whatever the outside answers. */
  lemma PassEnds(hash: string -> nat, e: Entry, t: Table, env: Env)
    ensures var (c, v) := (CaseOf(hash, e, t, env), Handle(hash, e, t, env).1);
            var has := e.execution.Some? || (c.claims && !c.refused);
            && (v.Started? <==> !c.unloaded && has && !c.refreshFails)
            && (v.Requeued? <==> c.claims && c.refused && Decides(e, env) == Some(NonParallelWithRetry))
            && (v.Dropped? <==> !c.unloaded && e.execution.None?
                                && (env.createFails || (c.refused && Decides(e, env) == Some(Parallel))))
            && (v.Failed? <==> c.unloaded || (has && c.refreshFails)
                               || (c.claims && c.refused && Decides(e, env) == Some(NonParallel)))
            && (v.Started? ==> v.worker == Worker(if e.execution.Some? then e.execution.value else env.newId, e.workflowId))
  {
    if Decides(e, env).Some? {
      ClaimIff(hash, e, t, env, Decides(e, env).value);
    }
    hide Claim, CallFinish, Number, Blocks;
  }

  /** What a pass does to the table: a claim that goes through adds its row, and a finish call
      for an execution closes the row as `Finish` does; nothing else changes. */
  lemma PassWrites(hash: string -> nat, e: Entry, t: Table, env: Env)
    ensures var (c, r) := (CaseOf(hash, e, t, env), Handle(hash, e, t, env));
            var claimed := if c.claims && !c.refused then Claim(hash, e, t, env).GetOr(t) else t;
            r.0 == if r.1.Failed? && r.1.call.id.Some? then
                     match Finish(claimed, r.1.call.id, e.workflowId, env.draw)
                     case Finished(t') => t'
                     case _ => claimed
                   else claimed
  {
    if Decides(e, env).Some? {
      ClaimIff(hash, e, t, env, Decides(e, env).value);
    }
    hide Claim, Number, Blocks, Finish;
  }

  /** What a pass leaves behind: an entry put back is the same event, marked as a retry, with
      its workflow to be loaded again; any other entry has its fate, a thread or a finish call. */
  lemma PassRecords(d: Desk, e: Entry, t: Table, v: Verdict)
    ensures var d' := Record(d, e, t, v);
            && d'.table == t
            && d'.queue == d.queue + (if v.Requeued? then [Entry(e.ticket, e.workflowId, None, e.execution, e.event, true)] else [])
            && d'.threads == d.threads + (if v.Started? then [v.worker] else [])
            && d'.calls == d.calls + (if v.Failed? then [v.call] else [])
            && d'.fates == d.fates + (match v
                                      case Requeued => []
                                      case Started(_) => [(e.ticket, WasStarted)]
                                      case Failed(_, _) => [(e.ticket, WasFailed)]
                                      case Dropped => [(e.ticket, WasDropped)])
  {
    assert d.queue + [] == d.queue && d.threads + [] == d.threads && d.calls + [] == d.calls && d.fates + [] == d.fates;
  }
}
