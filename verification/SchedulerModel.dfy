// One event entry, from the scheduler's queue to its fate
// (keep/workflowmanager/workflowscheduler.py, _handle_event_workflows).
module SchedulerModel {
  import opened Wrappers
  import opened ExecutionTable

  datatype Strategy = Parallel | NonParallel | NonParallelWithRetry

  datatype Event = Alert(fingerprint: string) | Incident(id: string)

  function FingerprintOf(e: Event): string {
    match e
    case Alert(fingerprint) => fingerprint
    case Incident(id) => "incident:" + id
  }

  /** A queued entry. Events carry their loaded workflow, whose strategy is all that
      matters here; manual runs and retries carry none. Manual runs carry an execution
      created beforehand. The ticket only names the entry. */
  datatype Entry = Entry(ticket: nat, workflowId: string, workflow: Option<Strategy>, execution: Option<ExecId>,
                         event: Event, retry: bool)

  /** A thread running a workflow. */
  datatype Worker = Worker(id: ExecId, workflowId: string)

  datatype Load = Loaded(strategy: Strategy) | ProvidersMissing | LoadError

  /** What the outside answers while one entry is handled: the workflow store, the
      clock, the random numbers, fresh ids, and which calls fail. */
  datatype Env = Env(load: Load, slot: int, randomNumber: nat, newId: ExecId, createFails: bool, enrichFails: bool,
                     draw: nat, afterFails: bool)

  const MAX_SIZE_SIGNED_INT: nat := 2147483647

  /** `_get_unique_execution_number`: the hash of a fingerprint, or a random number. */
  function ExecutionNumber(hash: string -> nat, fingerprint: string, random: nat): (n: nat)
    ensures n <= MAX_SIZE_SIGNED_INT
  {
    (if fingerprint != "" then hash(fingerprint) else random) % (MAX_SIZE_SIGNED_INT + 1)
  }

  /** `_finish_workflow_execution`: the table after it, and whether it raises. It may
      also raise after the row is written, while it looks up the previous execution. */
  function CallFinish(t: Table, id: Option<ExecId>, workflowId: string, env: Env): (Table, bool) {
    match Finish(t, id, workflowId, env.draw)
    case NotFound => (t, true)
    case Clash => (t, true)
    case Finished(t') => (t', env.afterFails)
  }

  /** Without an execution there is nothing to finish. */
  lemma NoFinish(t: Table, workflowId: string, env: Env)
    ensures CallFinish(t, None, workflowId, env) == (t, true)
  {}

  /** The status a finish call records; an error text goes with every status but success. */
  datatype Status = Success | Error | ProvidersNotConfigured

  /** What running a workflow comes to: it raises, or returns its list of errors. */
  datatype Outcome = RunRaised | Ran(errors: bool)

  /** A finish call: for which execution, and with which status. */
  datatype FinishCall = FinishCall(id: Option<ExecId>, status: Status)

  datatype Verdict =
    | Requeued
    | Started(worker: Worker)
    | Failed(call: FinishCall, raised: bool)  // ended by a finish call, which may raise
    | Dropped                                 // logged and forgotten

  /** The entry that a collision puts back: the workflow has to be loaded again. */
  function Retried(e: Entry): Entry {
    e.(workflow := None, retry := true)
  }

  predicate NeedsLoad(e: Entry, env: Env) {
    e.workflow.None? && !env.load.Loaded?
  }

  /** The status of an execution whose workflow does not load. */
  function LoadStatus(load: Load): Status {
    if load.ProvidersMissing? then ProvidersNotConfigured else Error
  }

  /** The finish call for an interval execution whose workflow does not load. */
  function Ended(w: Worker, env: Env): FinishCall {
    FinishCall(Some(w.id), LoadStatus(env.load))
  }

  function StrategyOf(e: Entry, env: Env): Strategy
    requires !NeedsLoad(e, env)
  {
    if e.workflow.Some? then e.workflow.value else env.load.strategy
  }

  /** An event claim that other events of the same fingerprint must wait for. */
  predicate Exclusive(e: Entry, env: Env)
    requires !NeedsLoad(e, env)
  {
    !StrategyOf(e, env).Parallel? && FingerprintOf(e.event) != ""
  }

  /** The row that claims an execution for an event. */
  function Claim(hash: string -> nat, e: Entry, t: Table, env: Env): Option<Table>
    requires !NeedsLoad(e, env)
  {
    var fingerprint := FingerprintOf(e.event);
    var number := ExecutionNumber(hash, if StrategyOf(e, env).Parallel? then "" else fingerprint, env.randomNumber);
    Insert(t, env.newId, e.workflowId, number, env.slot, fingerprint, Exclusive(e, env))
  }

  /** From a claimed execution to a running thread; a retried alert is refreshed first. */
  function Launch(e: Entry, id: ExecId, t: Table, env: Env): (Table, Verdict) {
    if e.retry && e.event.Alert? && env.enrichFails then
      var (t', raised) := CallFinish(t, Some(id), e.workflowId, env);
      (t', Failed(FinishCall(Some(id), Error), raised))
    else (t, Started(Worker(id, e.workflowId)))
  }

  /** One pass of the drain's loop: the table afterwards and what became of the entry. */
  function Handle(hash: string -> nat, e: Entry, t: Table, env: Env): (Table, Verdict) {
    if NeedsLoad(e, env) then
      var (t', raised) := CallFinish(t, e.execution, e.workflowId, env);
      (t', Failed(FinishCall(e.execution, LoadStatus(env.load)), raised))
    else if e.execution.Some? then Launch(e, e.execution.value, t, env)
    else if env.createFails then (t, Dropped)
    else
      match Claim(hash, e, t, env)
      case Some(t') => Launch(e, env.newId, t', env)
      case None =>
        match StrategyOf(e, env)
        case NonParallelWithRetry => (t, Requeued)
        case NonParallel => (t, Failed(FinishCall(None, Error), CallFinish(t, None, e.workflowId, env).1))
        case Parallel => (t, Dropped)
  }

  // ---- The same pass, one change of shared state at a time ----

  /** How far the pass over the first held entry has come: nothing yet, its execution is
      claimed and in the table, or its claim collided and it is about to be put back. */
  datatype Turn = Fresh | Claimed(id: ExecId) | Collided

  /** The pass is over, or goes on. */
  datatype Next = Over(verdict: Verdict) | On(turn: Turn)

  /** The next change: a claim is one transaction, and what follows it is another. */
  function Advance(hash: string -> nat, e: Entry, turn: Turn, t: Table, env: Env): (Table, Next) {
    match turn
    case Claimed(id) => var (t', v) := Launch(e, id, t, env); (t', Over(v))
    case Collided => (t, Over(Requeued))
    case Fresh =>
      if NeedsLoad(e, env) then
        var (t', raised) := CallFinish(t, e.execution, e.workflowId, env);
        (t', Over(Failed(FinishCall(e.execution, LoadStatus(env.load)), raised)))
      else if e.execution.Some? then var (t', v) := Launch(e, e.execution.value, t, env); (t', Over(v))
      else if env.createFails then (t, Over(Dropped))
      else
        match Claim(hash, e, t, env)
        case Some(t') => (t', On(Claimed(env.newId)))
        case None =>
          match StrategyOf(e, env)
          case NonParallelWithRetry => (t, On(Collided))
          case NonParallel =>
            (t, Over(Failed(FinishCall(None, Error), CallFinish(t, None, e.workflowId, env).1)))
          case Parallel => (t, Over(Dropped))
  }

  /** Undisturbed, the changes of a pass come to the whole pass. */
  lemma AdvancesAreHandle(hash: string -> nat, e: Entry, t: Table, env: Env)
    ensures var (t1, n) := Advance(hash, e, Fresh, t, env);
            match n
            case Over(v) => Handle(hash, e, t, env) == (t1, v)
            case On(turn) =>
              var (t2, n2) := Advance(hash, e, turn, t1, env);
              n2.Over? && Handle(hash, e, t, env) == (t2, n2.verdict)
  {}

  predicate Raises(v: Verdict) {
    v.Failed? && v.raised
  }

  datatype Fate = WasStarted | WasFailed | WasDropped | WasLost

  function FateOf(v: Verdict): Fate
    requires !v.Requeued?
  {
    match v
    case Started(_) => WasStarted
    case Failed(_, _) => WasFailed
    case Dropped => WasDropped
  }

  // ---- A whole drain, nothing else running ----

  /** What a drain works on: the shared queue, the table, the threads it started, the
      finish calls it made, and the fates of the entries it is done with. */
  datatype Desk = Desk(queue: seq<Entry>, table: Table, threads: seq<Worker>, calls: seq<FinishCall>,
                       fates: seq<(nat, Fate)>)

  function Record(d: Desk, e: Entry, t: Table, v: Verdict): Desk {
    match v
    case Requeued => d.(table := t, queue := d.queue + [Retried(e)])
    case Started(w) => d.(table := t, threads := d.threads + [w], fates := d.fates + [(e.ticket, WasStarted)])
    case Failed(call, _) => d.(table := t, calls := d.calls + [call], fates := d.fates + [(e.ticket, WasFailed)])
    case Dropped => d.(table := t, fates := d.fates + [(e.ticket, WasDropped)])
  }

  /** Entries whose drain was cut short by an error. */
  function Losses(held: seq<Entry>): (r: seq<(nat, Fate)>)
    ensures |r| == |held|
  {
    seq(|held|, k requires 0 <= k < |held| => (held[k].ticket, WasLost))
  }

  /** The fates recorded so far, with more recorded after them. */
  function WithFates(m: map<nat, Fate>, fates: seq<(nat, Fate)>): map<nat, Fate>
    decreases fates
  {
    if fates == [] then m else WithFates(m[fates[0].0 := fates[0].1], fates[1..])
  }

  /** Handles the held entries in order; an error that escapes ends the drain, and the
      entries not yet looked at go with it. */
  function Drain(hash: string -> nat, held: seq<Entry>, d: Desk, envs: seq<Env>): (Desk, bool)
    requires |envs| == |held|
    decreases |held|
  {
    if held == [] then (d, false)
    else
      var (t, v) := Handle(hash, held[0], d.table, envs[0]);
      var d' := Record(d, held[0], t, v);
      if Raises(v) then (d'.(fates := d'.fates + Losses(held[1..])), true)
      else Drain(hash, held[1..], d', envs[1..])
  }
}
