// Several schedulers sharing one table, their producers and their worker threads, as
// a transition system: any interleaving of the steps below is a run
// (keep/workflowmanager/workflowscheduler.py, keep/workflowmanager/workflowmanager.py).
module SchedulerSystem {
  import opened Wrappers
  import opened ExecutionTable
  import opened SchedulerModel

  /** One scheduler: its shared queue, the batch its current drain swapped out with the
      part of it still to handle, how far the pass over the first of these has come, and
      the interval executions still to start. */
  datatype Local = Local(queue: seq<Entry>, batch: seq<Entry>, held: seq<Entry>, turn: Turn, handed: seq<Worker>)

  /** The whole system. `asked` are the manual runs whose execution is created but not
      queued yet, `workers` are the running threads, `calls` counts the finish calls made
      for each execution, `leaked` holds executions whose carrier was lost in a drain cut
      short, and `fates` records every entry that is done with; `log` lists the finish calls
      as they were made. */
  datatype System = System(scheds: seq<Local>, asked: seq<Entry>, table: Table, workers: seq<Worker>,
                           calls: multiset<ExecId>, leaked: multiset<ExecId>, fates: map<nat, Fate>, nextTicket: nat,
                           log: seq<FinishCall>)

  /** Each step changes shared state once: a producer's append, the creation of a manual
      run's execution, its append, the swap, one change of a drain's pass, the creation of
      an interval execution, its start or finish, or the finish call of a worker. */
  datatype Action =
    | Enqueue(sid: nat, workflowId: string, strategy: Strategy, event: Event)
    | AskManual(workflowId: string, event: Event, env: Env)
    | QueueManual(sid: nat, k: nat)
    | Swap(sid: nat)
    | HandleNext(sid: nat, env: Env)
    | QueryInterval(sid: nat, workflowId: string, number: nat, env: Env)
    | StartInterval(sid: nat, env: Env)
    | WorkerEnds(worker: nat, outcome: Outcome, env: Env)

  predicate Enabled(s: System, a: Action) {
    match a
    case WorkerEnds(k, _, _) => k < |s.workers|
    case Swap(sid) => sid < |s.scheds| && s.scheds[sid].held == []
    case HandleNext(sid, _) => sid < |s.scheds| && s.scheds[sid].held != []
    case StartInterval(sid, _) => sid < |s.scheds| && s.scheds[sid].handed != []
    case Enqueue(sid, _, _, _) => sid < |s.scheds|
    case AskManual(_, _, _) => true
    case QueueManual(sid, k) => sid < |s.scheds| && k < |s.asked|
    case QueryInterval(sid, _, _, _) => sid < |s.scheds|
  }

  function Calls(id: Option<ExecId>): multiset<ExecId> {
    if id.Some? then multiset{id.value} else multiset{}
  }

  /** The executions that finish calls were made for. */
  function CallsOf(calls: seq<FinishCall>): multiset<ExecId> {
    if calls == [] then multiset{} else Calls(calls[0].id) + CallsOf(calls[1..])
  }

  function Carried(es: seq<Entry>): multiset<ExecId> {
    if es == [] then multiset{} else Calls(es[0].execution) + Carried(es[1..])
  }

  function Executions(ws: seq<Worker>): multiset<ExecId> {
    if ws == [] then multiset{} else multiset{ws[0].id} + Executions(ws[1..])
  }

  /** An event entry joins a scheduler's queue (insert_events, insert_incident). */
  function DoEnqueue(s: System, sid: nat, workflowId: string, strategy: Strategy, event: Event): System
    requires sid < |s.scheds|
  {
    var l := s.scheds[sid];
    var e := Entry(s.nextTicket, workflowId, Some(strategy), None, event, false);
    s.(scheds := s.scheds[sid := l.(queue := l.queue + [e])], nextTicket := s.nextTicket + 1)
  }

  /** A manual run creates its execution, under a random number, before it is queued;
      if that fails nothing is queued. */
  function DoAsk(s: System, workflowId: string, event: Event, env: Env): System {
    var number := env.randomNumber % (MAX_SIZE_SIGNED_INT + 1);
    match Insert(s.table, env.newId, workflowId, number, env.slot, FingerprintOf(event), false)
    case None => s
    case Some(t) => s.(asked := s.asked + [Entry(0, workflowId, None, Some(env.newId), event, false)], table := t)
  }

  /** Some manual run is queued; only then it gets its ticket. */
  function DoQueue(s: System, sid: nat, k: nat): System
    requires sid < |s.scheds| && k < |s.asked|
  {
    var l := s.scheds[sid];
    s.(scheds := s.scheds[sid := l.(queue := l.queue + [s.asked[k].(ticket := s.nextTicket)])],
       asked := s.asked[..k] + s.asked[k + 1..], nextTicket := s.nextTicket + 1)
  }

  /** The drain takes everything that is queued. */
  function DoSwap(s: System, sid: nat): System
    requires sid < |s.scheds|
  {
    var l := s.scheds[sid];
    s.(scheds := s.scheds[sid := l.(queue := [], batch := l.queue, held := l.queue, turn := Fresh)])
  }

  /** The scheduler after its drain handled one entry; an error that escapes drops the
      rest of the batch. */
  function HandledLocal(l: Local, v: Verdict): Local
    requires l.held != []
  {
    l.(held := if Raises(v) then [] else l.held[1..], turn := Fresh,
       queue := if v.Requeued? then l.queue + [Retried(l.held[0])] else l.queue)
  }

  function HandledFates(fates: map<nat, Fate>, held: seq<Entry>, v: Verdict): map<nat, Fate>
    requires held != []
  {
    if v.Requeued? then fates
    else
      var fates' := fates[held[0].ticket := FateOf(v)];
      if Raises(v) then WithFates(fates', Losses(held[1..])) else fates'
  }

  function HandledCalls(v: Verdict): multiset<ExecId> {
    if v.Failed? then Calls(v.call.id) else multiset{}
  }

  function HandledLog(v: Verdict): seq<FinishCall> {
    if v.Failed? then [v.call] else []
  }

  function HandledLeaks(held: seq<Entry>, v: Verdict): multiset<ExecId>
    requires held != []
  {
    if Raises(v) then Carried(held[1..]) else multiset{}
  }

  function HandledWorkers(v: Verdict): seq<Worker> {
    if v.Started? then [v.worker] else []
  }

  /** The drain's pass over its first entry goes one change further. */
  function DoHandle(hash: string -> nat, s: System, sid: nat, env: Env): System
    requires sid < |s.scheds| && s.scheds[sid].held != []
  {
    var l := s.scheds[sid];
    var (t, n) := Advance(hash, l.held[0], l.turn, s.table, env);
    match n
    case On(turn) => s.(scheds := s.scheds[sid := l.(turn := turn)], table := t)
    case Over(v) => DoEndPass(s, sid, t, v)
  }

  /** The pass ends with a verdict. */
  function DoEndPass(s: System, sid: nat, t: Table, v: Verdict): System
    requires sid < |s.scheds| && s.scheds[sid].held != []
  {
    var l := s.scheds[sid];
    System(s.scheds[sid := HandledLocal(l, v)], s.asked, t, s.workers + HandledWorkers(v), s.calls + HandledCalls(v),
           s.leaked + HandledLeaks(l.held, v), HandledFates(s.fates, l.held, v), s.nextTicket,
           s.log + HandledLog(v))
  }

  /** The interval query hands over a newly created execution. */
  function DoQuery(s: System, sid: nat, workflowId: string, number: nat, env: Env): System
    requires sid < |s.scheds|
  {
    match Insert(s.table, env.newId, workflowId, number, env.slot, "", false)
    case None => s
    case Some(t) =>
      var l := s.scheds[sid];
      s.(table := t, scheds := s.scheds[sid := l.(handed := l.handed + [Worker(env.newId, workflowId)])])
  }

  /** Starts an interval execution, or finishes it when its workflow does not load; an
      error that escapes leaves the rest behind. */
  function DoInterval(s: System, sid: nat, env: Env): System
    requires sid < |s.scheds| && s.scheds[sid].handed != []
  {
    var l := s.scheds[sid];
    var w, rest := l.handed[0], l.handed[1..];
    if env.load.Loaded? then
      s.(scheds := s.scheds[sid := l.(handed := rest)], workers := s.workers + [w])
    else
      var (t, raised) := CallFinish(s.table, Some(w.id), w.workflowId, env);
      if raised then
        s.(table := t, scheds := s.scheds[sid := l.(handed := [])], calls := s.calls + multiset{w.id},
           leaked := s.leaked + Executions(rest), log := s.log + [Ended(w, env)])
      else
        s.(table := t, scheds := s.scheds[sid := l.(handed := rest)], calls := s.calls + multiset{w.id},
           log := s.log + [Ended(w, env)])
  }

  /** A worker ends by making its one finish call, whether the workflow succeeded,
      reported errors or raised (_run_workflow). */
  function DoEnd(s: System, k: nat, outcome: Outcome, env: Env): System
    requires k < |s.workers|
  {
    var w := s.workers[k];
    var (t, _) := CallFinish(s.table, Some(w.id), w.workflowId, env);
    s.(table := t, workers := s.workers[..k] + s.workers[k + 1..], calls := s.calls + multiset{w.id},
       log := s.log + [FinishCall(Some(w.id), if outcome == Ran(false) then Status.Success else Error)])
  }

  function Apply(hash: string -> nat, s: System, a: Action): System
    requires Enabled(s, a)
  {
    match a
    case Enqueue(sid, workflowId, strategy, event) => DoEnqueue(s, sid, workflowId, strategy, event)
    case AskManual(workflowId, event, env) => DoAsk(s, workflowId, event, env)
    case QueueManual(sid, k) => DoQueue(s, sid, k)
    case Swap(sid) => DoSwap(s, sid)
    case HandleNext(sid, env) => DoHandle(hash, s, sid, env)
    case QueryInterval(sid, workflowId, number, env) => DoQuery(s, sid, workflowId, number, env)
    case StartInterval(sid, env) => DoInterval(s, sid, env)
    case WorkerEnds(k, outcome, env) => DoEnd(s, k, outcome, env)
  }

  // ---- Runs ----

  const Idle: Local := Local([], [], [], Fresh, [])

  function Start(schedulers: nat): System {
    System(seq(schedulers, _ => Idle), [], map[], [], multiset{}, multiset{}, map[], 0, [])
  }

  /** The actions happen one after the other, each of them enabled when it happens. */
  ghost predicate Run(hash: string -> nat, s: System, actions: seq<Action>, s': System)
    decreases actions
  {
    if actions == [] then s == s'
    else Enabled(s, actions[0]) && Run(hash, Apply(hash, s, actions[0]), actions[1..], s')
  }

  ghost predicate Reachable(hash: string -> nat, s: System) {
    exists n, actions :: Run(hash, Start(n), actions, s)
  }
}
