// What the finish calls of the scheduler say: over drains, interval passes and whole runs
// (keep/workflowmanager/workflowscheduler.py, _handle_interval_workflows, _run_workflow,
// _handle_event_workflows).
module SchedulerStatuses {
  import opened Wrappers
  import opened ExecutionTable
  import opened SchedulerModel
  import opened SchedulerSystem
  import opened SchedulerInterval
  import opened SchedulerRuns
  import SchedulerLimits
  import opened Selections

  /** The call for an entry says that its providers are not configured exactly when it had to
      load its workflow and the load found providers missing; else it says error. It is for the
      entry's execution, or for the one just claimed for it, or, after a collision, for none. */
  predicate SaysOf(call: FinishCall, e: Entry, env: Env) {
    && (call.status == ProvidersNotConfigured <==> e.workflow == None && env.load == ProvidersMissing)
    && (call.status == Error <==> !(e.workflow == None && env.load == ProvidersMissing))
    && (e.execution.Some? || MustLoad(e, env) ==> call.id == e.execution)
    && (e.execution.None? ==> call.id == None || call.id == Some(env.newId))
  }

  predicate MustLoad(e: Entry, env: Env) {
    e.workflow == None && (env.load == ProvidersMissing || env.load == LoadError)
  }

  /** The pass over one entry: a workflow that does not load always ends in a finish call. */
  lemma PassSays(hash: string -> nat, e: Entry, t: Table, env: Env)
    ensures var v := Handle(hash, e, t, env).1;
            && (v.Failed? ==> SaysOf(v.call, e, env)) && (MustLoad(e, env) ==> v.Failed?)
  {
    hide CallFinish, Claim;
  }

  /** The calls of a drain that handled the first `n` held entries are for the entries at the
      positions `at`, in order; an entry whose workflow does not load is among them. */
  ghost predicate DrainSays(held: seq<Entry>, envs: seq<Env>, n: nat, calls: seq<FinishCall>, at: seq<nat>)
    requires n <= |held| == |envs|
  {
    && Ascending(at, n) && |calls| == |at|
    && (forall k :: 0 <= k < |at| ==> SaysOf(calls[k], held[at[k]], envs[at[k]]))
    && (forall i :: 0 <= i < n && MustLoad(held[i], envs[i]) ==> i in at)
  }

  ghost predicate Ascending(at: seq<nat>, n: nat) {
    && (forall j, k :: 0 <= j < k < |at| ==> at[j] < at[k])
    && (forall k :: 0 <= k < |at| ==> at[k] < n)
  }

  /** The positions moved by one, behind a first one if `first`. */
  function Moved(at: seq<nat>, first: bool): (r: seq<nat>) {
    (if first then [0] else []) + seq(|at|, k requires 0 <= k < |at| => at[k] + 1)
  }

  lemma MovedHas(at: seq<nat>, first: bool, n: nat)
    requires Ascending(at, n)
    ensures Ascending(Moved(at, first), n + 1)
    ensures forall i: nat :: i in at ==> i + 1 in Moved(at, first)
    ensures first ==> 0 in Moved(at, first)
  {
    forall i: nat | i in at ensures i + 1 in Moved(at, first) {
      var k :| 0 <= k < |at| && at[k] == i;
      assert Moved(at, first)[if first then k + 1 else k] == i + 1;
    }
    if first {
      assert Moved(at, first)[0] == 0;
    }
  }

  lemma SaysMore(held: seq<Entry>, envs: seq<Env>, n: nat, calls: seq<FinishCall>, at: seq<nat>, first: seq<FinishCall>)
    requires 0 < |held| == |envs| && n < |held| && DrainSays(held[1..], envs[1..], n, calls, at)
    requires |first| <= 1 && (first != [] ==> SaysOf(first[0], held[0], envs[0]))
    requires MustLoad(held[0], envs[0]) ==> first != []
    ensures DrainSays(held, envs, n + 1, first + calls, Moved(at, first != []))
  {
    var at' := Moved(at, first != []);
    hide SaysOf, MustLoad;
    MovedHas(at, first != [], n);
    forall k | 0 <= k < |at'| ensures SaysOf((first + calls)[k], held[at'[k]], envs[at'[k]]) {
      CallMoved(held, envs, n, calls, at, first, k);
    }
    hide Moved;
    forall i | 0 <= i < n + 1 && MustLoad(held[i], envs[i]) ensures i in at' {
      if i > 0 {
        assert held[1..][i - 1] == held[i] && envs[1..][i - 1] == envs[i];
        assert i - 1 in at;
      }
    }
  }

  lemma CallMoved(held: seq<Entry>, envs: seq<Env>, n: nat, calls: seq<FinishCall>, at: seq<nat>, first: seq<FinishCall>,
                  k: nat)
    requires 0 < |held| == |envs| && n < |held| && DrainSays(held[1..], envs[1..], n, calls, at)
    requires |first| <= 1 && (first != [] ==> SaysOf(first[0], held[0], envs[0])) && k < |Moved(at, first != [])|
    ensures var j := Moved(at, first != [])[k];
            k < |first + calls| && j < |held| && SaysOf((first + calls)[k], held[j], envs[j])
  {
    hide SaysOf, MustLoad;
    if k >= |first| {
      var i := at[k - |first|];
      assert SaysOf(calls[k - |first|], held[1..][i], envs[1..][i]);
    }
  }

  /** A whole drain: every call it makes, and that it handles all entries or raises. */
  lemma {:induction false} DrainCalls(hash: string -> nat, held: seq<Entry>, d: Desk, envs: seq<Env>)
    returns (n: nat, calls: seq<FinishCall>, at: seq<nat>)
    requires |envs| == |held|
    ensures Drain(hash, held, d, envs).0.calls == d.calls + calls
    ensures n <= |held| && (n < |held| ==> Drain(hash, held, d, envs).1)
    ensures DrainSays(held, envs, n, calls, at)
    decreases |held|
  {
    hide Handle, SaysOf, MustLoad;
    if held == [] {
      return 0, [], [];
    }
    var (t, v) := Handle(hash, held[0], d.table, envs[0]);
    var d', first := Record(d, held[0], t, v), HandledLog(v);
    PassSays(hash, held[0], d.table, envs[0]);
    assert d'.calls == d.calls + first;
    if Raises(v) {
      n, calls, at := 0, [], [];
    } else {
      n, calls, at := DrainCalls(hash, held[1..], d', envs[1..]);
    }
    SaysMore(held, envs, n, calls, at, first);
    n, calls, at := n + 1, first + calls, Moved(at, first != []);
  }

  // ---- The interval pass ----

  predicate Loads(p: (Worker, Env)) {
    p.1.load != ProvidersMissing && p.1.load != LoadError
  }

  predicate Fails(p: (Worker, Env)) {
    p.1.load == ProvidersMissing || p.1.load == LoadError
  }

  /** One thread for each of the executions whose workflow loads, one call for each whose
      workflow does not, in order; a call says that providers are not configured if they were
      missing, and error otherwise. */
  ghost predicate Reports(done: seq<(Worker, Env)>, threads: seq<Worker>, calls: seq<FinishCall>) {
    var (started, failed) := (Filter(done, Loads), Filter(done, Fails));
    && |threads| == |started| && (forall k :: 0 <= k < |started| ==> threads[k] == started[k].0)
    && |calls| == |failed|
    && (forall k :: 0 <= k < |failed| ==>
          && calls[k].id == Some(failed[k].0.id)
          && (calls[k].status == ProvidersNotConfigured <==> failed[k].1.load == ProvidersMissing)
          && (calls[k].status == Error <==> failed[k].1.load == LoadError))
  }

  lemma ReportsMore(p: (Worker, Env), done: seq<(Worker, Env)>, threads: seq<Worker>, calls: seq<FinishCall>)
    requires Reports(done, threads, calls)
    ensures p.1.load.Loaded? ==> Reports([p] + done, [p.0] + threads, calls)
    ensures !p.1.load.Loaded? ==> Reports([p] + done, threads, [Ended(p.0, p.1)] + calls)
  {
    assert ([p] + done)[1..] == done;
    assert Filter([p] + done, Loads) == (if Loads(p) then [p] else []) + Filter(done, Loads);
    assert Filter([p] + done, Fails) == (if Fails(p) then [p] else []) + Filter(done, Fails);
    hide Filter;
  }

  /** A pass gets to the end, or to the first call that raises; up to there it reports so. */
  ghost predicate PassReports(handed: seq<Worker>, envs: seq<Env>, r: Pass)
    requires |envs| == |handed|
  {
    && |r.left| <= |handed| && r.left == handed[|handed| - |r.left|..] && (r.left != [] ==> r.raised)
    && Reports(Zip(handed[..|handed| - |r.left|], envs[..|handed| - |r.left|]), r.threads, r.calls)
  }

  lemma PassReportsMore(handed: seq<Worker>, envs: seq<Env>, r: Pass)
    requires |envs| == |handed| > 0 && PassReports(handed[1..], envs[1..], r)
    ensures envs[0].load.Loaded? ==> PassReports(handed, envs, r.(threads := [handed[0]] + r.threads))
    ensures !envs[0].load.Loaded? ==> PassReports(handed, envs, r.(calls := [Ended(handed[0], envs[0])] + r.calls))
  {
    var n := |handed| - |r.left|;
    ZipFirst(handed, envs, n);
    hide Reports, Ended;
    ReportsMore((handed[0], envs[0]), Zip(handed[1..][..n - 1], envs[1..][..n - 1]), r.threads, r.calls);
  }

  lemma NothingReported(handed: seq<Worker>, envs: seq<Env>, t: Table)
    requires |envs| == |handed|
    ensures PassReports(handed, envs, Pass(t, [], [], handed, true))
    ensures handed == [] ==> PassReports(handed, envs, Pass(t, [], [], [], false))
  {
    assert Zip(handed[..0], envs[..0]) == [];
  }

  /** A whole interval pass, whatever the outside answers. */
  lemma {:induction false} IntervalCalls(handed: seq<Worker>, t: Table, envs: seq<Env>)
    requires |envs| == |handed|
    ensures PassReports(handed, envs, HandOver(handed, t, envs))
    ensures HandOver(handed, t, envs).raised ==> HandOver(handed, t, envs).calls != []
    decreases |handed|
  {
    hide *;
    if handed == [] {
      assert envs == [];
      NothingSplits(t);
      NothingReported([], [], t);
    } else {
      HandOverStep(handed, t, envs);
      var w := handed[0];
      var (t', raised) := CallFinish(t, Some(w.id), w.workflowId, envs[0]);
      if envs[0].load.Loaded? {
        IntervalCalls(handed[1..], t, envs[1..]);
        PassReportsMore(handed, envs, HandOver(handed[1..], t, envs[1..]));
      } else if raised {
        NothingReported(handed[1..], envs[1..], t');
        PassReportsMore(handed, envs, Pass(t', [], [], handed[1..], true));
      } else {
        IntervalCalls(handed[1..], t', envs[1..]);
        PassReportsMore(handed, envs, HandOver(handed[1..], t', envs[1..]));
      }
    }
  }

  /** The first execution whose workflow does not load ends the pass if its finish call raises:
      those before it are started, those behind it are left. */
  lemma {:induction false} IntervalStops(handed: seq<Worker>, t: Table, envs: seq<Env>, n: nat)
    requires n < |handed| == |envs| && !envs[n].load.Loaded? && forall i :: 0 <= i < n ==> envs[i].load.Loaded?
    requires SchedulerLimits.FinishRaises(t, handed[n].id, handed[n].workflowId, envs[n])
    ensures var r := HandOver(handed, t, envs);
            r.raised && r.threads == handed[..n] && |r.calls| == 1 && r.left == handed[n + 1..]
    decreases n
  {
    HandOverStep(handed, t, envs);
    hide HandOver;
    if n > 0 {
      IntervalStops(handed[1..], t, envs[1..], n - 1);
      assert [handed[0]] + handed[1..][..n - 1] == handed[..n];
    }
  }

  function Zip(ws: seq<Worker>, envs: seq<Env>): (r: seq<(Worker, Env)>)
    requires |ws| == |envs|
    ensures |r| == |ws| && forall k :: 0 <= k < |r| ==> r[k] == (ws[k], envs[k])
  {
    seq(|ws|, k requires 0 <= k < |ws| => (ws[k], envs[k]))
  }

  lemma ZipFirst(ws: seq<Worker>, envs: seq<Env>, n: nat)
    requires |ws| == |envs| > 0 && 0 < n <= |ws|
    ensures Zip(ws[..n], envs[..n]) == [(ws[0], envs[0])] + Zip(ws[1..][..n - 1], envs[1..][..n - 1])
    ensures ws[n..] == ws[1..][n - 1..]
  {}

  // ---- Whole runs ----

  /** What a step of the system adds to the log: success only from a worker whose workflow
      returned without errors, missing providers only from a pass that has to load its
      workflow, or an interval execution, when the load finds them missing, and error from
      whatever else ends in a finish call. */
  ghost predicate StepLogs(s: System, a: Action, added: seq<FinishCall>)
    requires Enabled(s, a)
  {
    && |added| <= 1
    && (added != [] ==>
          var c := added[0];
          && (a.WorkerEnds? || a.HandleNext? || a.StartInterval?)
          && (c.status == Status.Success <==> a.WorkerEnds? && a.outcome == Ran(false))
          && (c.status == ProvidersNotConfigured <==>
                || (a.StartInterval? && a.env.load == ProvidersMissing)
                || (a.HandleNext? && a.env.load == ProvidersMissing
                    && s.scheds[a.sid].turn == Fresh && s.scheds[a.sid].held[0].workflow == None))
          && (a.WorkerEnds? ==> c.id == Some(s.workers[a.worker].id))
          && (a.StartInterval? ==> c.id == Some(s.scheds[a.sid].handed[0].id)))
    && (a.WorkerEnds? ==> added != [])
    && (a.StartInterval? ==> (added != [] <==> a.env.load == ProvidersMissing || a.env.load == LoadError))
  }

  lemma OneCall(c: FinishCall)
    ensures CallsOf([c]) == Calls(c.id) && CallsOf([]) == multiset{}
  {
    assert [c][1..] == [];
  }

  lemma AdvanceSays(hash: string -> nat, e: Entry, turn: Turn, t: Table, env: Env)
    ensures var n := Advance(hash, e, turn, t, env).1;
            n.Over? && n.verdict.Failed? ==>
              var status := n.verdict.call.status;
              && status != Status.Success
              && (status == ProvidersNotConfigured <==> turn == Fresh && e.workflow == None && env.load == ProvidersMissing)
  {
    hide CallFinish, Claim;
  }

  lemma HandleSays(hash: string -> nat, s: System, sid: nat, env: Env) returns (added: seq<FinishCall>)
    requires Enabled(s, HandleNext(sid, env))
    ensures DoHandle(hash, s, sid, env).log == s.log + added && StepLogs(s, HandleNext(sid, env), added)
    ensures DoHandle(hash, s, sid, env).calls == s.calls + CallsOf(added)
  {
    var l := s.scheds[sid];
    var n := Advance(hash, l.held[0], l.turn, s.table, env).1;
    AdvanceSays(hash, l.held[0], l.turn, s.table, env);
    OneCall(if n.Over? && n.verdict.Failed? then n.verdict.call else FinishCall(None, Error));
    assert s.log + [] == s.log;
    hide Advance, HandledFates, HandledLeaks, HandledLocal, CallsOf, Calls, HandledWorkers;
    added := if n.Over? then HandledLog(n.verdict) else [];
  }

  lemma IntervalSays(s: System, sid: nat, env: Env) returns (added: seq<FinishCall>)
    requires Enabled(s, StartInterval(sid, env))
    ensures DoInterval(s, sid, env).log == s.log + added && StepLogs(s, StartInterval(sid, env), added)
    ensures DoInterval(s, sid, env).calls == s.calls + CallsOf(added)
  {
    hide CallFinish, Executions;
    OneCall(Ended(s.scheds[sid].handed[0], env));
    added := if env.load.Loaded? then [] else [Ended(s.scheds[sid].handed[0], env)];
  }

  lemma EndSays(s: System, k: nat, outcome: Outcome, env: Env) returns (added: seq<FinishCall>)
    requires Enabled(s, WorkerEnds(k, outcome, env))
    ensures DoEnd(s, k, outcome, env).log == s.log + added && StepLogs(s, WorkerEnds(k, outcome, env), added)
    ensures DoEnd(s, k, outcome, env).calls == s.calls + CallsOf(added)
  {
    hide CallFinish;
    added := [FinishCall(Some(s.workers[k].id), if outcome == Ran(false) then Status.Success else Error)];
    OneCall(added[0]);
  }

  lemma Quiet(hash: string -> nat, s: System, a: Action)
    requires Enabled(s, a) && !a.HandleNext? && !a.StartInterval? && !a.WorkerEnds?
    ensures Apply(hash, s, a).log == s.log && Apply(hash, s, a).calls == s.calls
  {
    hide Insert;
  }

  /** Every step adds to the log just what it makes. */
  lemma StepSays(hash: string -> nat, s: System, a: Action) returns (added: seq<FinishCall>)
    requires Enabled(s, a)
    ensures Apply(hash, s, a).log == s.log + added && StepLogs(s, a, added)
    ensures Apply(hash, s, a).calls == s.calls + CallsOf(added)
  {
    match a {
      case HandleNext(sid, env) => added := HandleSays(hash, s, sid, env);
      case StartInterval(sid, env) => added := IntervalSays(s, sid, env);
      case WorkerEnds(k, outcome, env) => added := EndSays(s, k, outcome, env);
      case _ =>
        Quiet(hash, s, a);
        added := [];
        OneCall(FinishCall(None, Error));
        assert s.log + [] == s.log;
    }
    hide DoHandle, DoInterval, DoEnd, DoEnqueue, DoAsk, DoQueue, DoSwap, DoQuery, CallsOf;
  }

  /** The worker a step ends, if its workflow returned without errors. */
  function OfWorker(s: System, a: Action): multiset<Option<ExecId>>
    requires Enabled(s, a)
  {
    if a.WorkerEnds? && a.outcome == Ran(false) then multiset{Some(s.workers[a.worker].id)} else multiset{}
  }

  lemma AddedSuccess(s: System, a: Action, added: seq<FinishCall>, id: Option<ExecId>)
    requires Enabled(s, a) && StepLogs(s, a, added)
    ensures multiset(added)[FinishCall(id, Status.Success)] == OfWorker(s, a)[id]
  {
    if added != [] {
      assert added == [added[0]];
    }
  }

  /** The workers of a run whose workflows returned without errors, one entry for each. */
  ghost function Succeeded(hash: string -> nat, s: System, actions: seq<Action>): multiset<Option<ExecId>>
    decreases actions
  {
    if actions == [] || !Enabled(s, actions[0]) then multiset{}
    else
      var a := actions[0];
      OfWorker(s, a) + Succeeded(hash, Apply(hash, s, a), actions[1..])
  }

  /** On every run success is recorded for exactly the executions whose workflow returned
      without errors, as often as that happened; and the log names just the executions that
      finish calls are counted for. */
  lemma {:induction false} RunSays(hash: string -> nat, s: System, actions: seq<Action>, s': System, id: Option<ExecId>)
    requires Run(hash, s, actions, s') && CallsOf(s.log) == s.calls
    ensures CallsOf(s'.log) == s'.calls
    ensures multiset(s'.log)[FinishCall(id, Status.Success)]
         == multiset(s.log)[FinishCall(id, Status.Success)] + Succeeded(hash, s, actions)[id]
    decreases actions
  {
    if actions != [] {
      var next := Apply(hash, s, actions[0]);
      var added := StepSays(hash, s, actions[0]);
      AddedSuccess(s, actions[0], added, id);
      hide Apply, Enabled, CallsOf, StepLogs;
      LogGrows(s.log, added);
      RunSays(hash, next, actions[1..], s', id);
      assert multiset(next.log) == multiset(s.log) + multiset(added);
      var own := OfWorker(s, actions[0]);
      assert (own + Succeeded(hash, next, actions[1..]))[id] == own[id] + Succeeded(hash, next, actions[1..])[id];
    }
  }

  lemma {:induction false} LogGrows(log: seq<FinishCall>, added: seq<FinishCall>)
    ensures CallsOf(log + added) == CallsOf(log) + CallsOf(added)
  {
    hide Calls;
    if log == [] {
      assert log + added == added;
    } else {
      assert (log + added)[1..] == log[1..] + added;
      LogGrows(log[1..], added);
    }
  }

  /** From the start: an execution is recorded as a success at most once, exactly when a
      worker ran it to its end without errors, and then nothing else is recorded for it. */
  lemma SuccessIff(hash: string -> nat, schedulers: nat, actions: seq<Action>, s: System, id: ExecId)
    requires Run(hash, Start(schedulers), actions, s)
    ensures FinishCall(Some(id), Status.Success) in s.log <==> Some(id) in Succeeded(hash, Start(schedulers), actions)
    ensures forall j, k :: 0 <= j < |s.log| && 0 <= k < |s.log| && s.log[j].id == s.log[k].id == Some(id) ==> j == k
  {
    var start := Start(schedulers);
    assert start.log == [] && CallsOf([]) == multiset{};
    RunSays(hash, start, actions, s, Some(id));
    assert Reachable(hash, s);
    FinishedAtMostOnce(hash, s, id);
    hide Run, Reachable, Succeeded;
    forall j, k | 0 <= j < k < |s.log| && s.log[j].id == s.log[k].id == Some(id) ensures false {
      CalledTwice(s.log, j, k, id);
    }
  }

  lemma CalledTwice(log: seq<FinishCall>, j: nat, k: nat, id: ExecId)
    requires j < k < |log| && log[j].id == log[k].id == Some(id)
    ensures CallsOf(log)[id] >= 2
  {
    CalledOnce(log[..k], j, id);
    CalledOnce(log[k..], 0, id);
    assert log == log[..k] + log[k..];
    LogGrows(log[..k], log[k..]);
  }

  lemma CalledOnce(log: seq<FinishCall>, k: nat, id: ExecId)
    requires k < |log| && log[k].id == Some(id)
    ensures CallsOf(log)[id] >= 1
  {
    assert log == log[..k] + ([log[k]] + log[k + 1..]);
    assert ([log[k]] + log[k + 1..])[1..] == log[k + 1..];
    LogGrows(log[..k], [log[k]] + log[k + 1..]);
  }
}
