// The executions the interval query hands over
// (keep/workflowmanager/workflowscheduler.py, _handle_interval_workflows).
module SchedulerInterval {
  import opened Wrappers
  import opened ExecutionTable
  import opened SchedulerModel
  import opened SchedulerSystem

  /** What a pass comes to: the table, the threads started, the finish calls made, the
      executions never looked at, and whether an error escaped. */
  datatype Pass = Pass(table: Table, threads: seq<Worker>, calls: seq<FinishCall>, left: seq<Worker>, raised: bool)

  /** Each execution is started, or finished when its workflow does not load; a finish
      call that raises ends the pass. */
  function HandOver(handed: seq<Worker>, t: Table, envs: seq<Env>): Pass
    requires |envs| == |handed|
    decreases |handed|
  {
    if handed == [] then Pass(t, [], [], [], false)
    else
      var w := handed[0];
      if envs[0].load.Loaded? then
        var r := HandOver(handed[1..], t, envs[1..]);
        r.(threads := [w] + r.threads)
      else
        var (t', raised) := CallFinish(t, Some(w.id), w.workflowId, envs[0]);
        if raised then Pass(t', [], [Ended(w, envs[0])], handed[1..], true)
        else
          var r := HandOver(handed[1..], t', envs[1..]);
          r.(calls := [Ended(w, envs[0])] + r.calls)
  }

  /** A pass that goes on after `threads` and `calls`. */
  function After(threads: seq<Worker>, calls: seq<FinishCall>, r: Pass): Pass {
    r.(threads := threads + r.threads, calls := calls + r.calls)
  }

  lemma AfterStep(threads: seq<Worker>, calls: seq<FinishCall>, handed: seq<Worker>, t: Table, envs: seq<Env>)
    requires |envs| == |handed| > 0
    ensures var (w, r) := (handed[0], HandOver(handed, t, envs));
            var (t', raised) := CallFinish(t, Some(w.id), w.workflowId, envs[0]);
            After(threads, calls, r)
            == if envs[0].load.Loaded? then After(threads + [w], calls, HandOver(handed[1..], t, envs[1..]))
               else if raised then Pass(t', threads, calls + [Ended(w, envs[0])], handed[1..], true)
               else After(threads, calls + [Ended(w, envs[0])], HandOver(handed[1..], t', envs[1..]))
  {
    hide CallFinish;
    var w := handed[0];
    var (t', raised) := CallFinish(t, Some(w.id), w.workflowId, envs[0]);
    if envs[0].load.Loaded? {
      var r := HandOver(handed[1..], t, envs[1..]);
      assert threads + ([w] + r.threads) == threads + [w] + r.threads;
    } else if raised {
      assert threads + [] == threads;
    } else {
      var r := HandOver(handed[1..], t', envs[1..]);
      assert calls + ([Ended(w, envs[0])] + r.calls) == calls + [Ended(w, envs[0])] + r.calls;
    }
  }

  /** Every execution handed over is started, or gets its one finish call, or is left. */
  lemma {:induction false} HandOverSplits(handed: seq<Worker>, t: Table, envs: seq<Env>)
    requires |envs| == |handed|
    ensures var r := HandOver(handed, t, envs);
            && Executions(handed) == Executions(r.threads) + CallsOf(r.calls) + Executions(r.left)
            && (r.left != [] ==> r.raised)
    decreases |handed|
  {
    hide *;
    if handed == [] {
      NothingSplits(t);
      assert envs == [];
    } else {
      var w := handed[0];
      var (t', raised) := CallFinish(t, Some(w.id), w.workflowId, envs[0]);
      assert handed == [w] + handed[1..];
      ExecutionsOf(w, handed[1..]);
      HandOverStep(handed, t, envs);
      if envs[0].load.Loaded? {
        HandOverSplits(handed[1..], t, envs[1..]);
        ExecutionsOf(w, HandOver(handed[1..], t, envs[1..]).threads);
      } else if raised {
        NothingSplits(t);
        CallCounted(w, envs[0], []);
      } else {
        HandOverSplits(handed[1..], t', envs[1..]);
        CallCounted(w, envs[0], HandOver(handed[1..], t', envs[1..]).calls);
      }
    }
  }

  lemma NothingSplits(t: Table)
    ensures HandOver([], t, []) == Pass(t, [], [], [], false) && Executions([]) == multiset{}
    ensures CallsOf([]) == multiset{}
  {}

  lemma CallCounted(w: Worker, env: Env, calls: seq<FinishCall>)
    ensures CallsOf([Ended(w, env)] + calls) == multiset{w.id} + CallsOf(calls)
  {
    assert ([Ended(w, env)] + calls)[1..] == calls;
  }

  lemma HandOverStep(handed: seq<Worker>, t: Table, envs: seq<Env>)
    requires |envs| == |handed| > 0
    ensures var w := handed[0];
            var (t', raised) := CallFinish(t, Some(w.id), w.workflowId, envs[0]);
            HandOver(handed, t, envs)
            == if envs[0].load.Loaded? then
                 var r := HandOver(handed[1..], t, envs[1..]);
                 r.(threads := [w] + r.threads)
               else if raised then Pass(t', [], [Ended(w, envs[0])] + [], handed[1..], true)
               else
                 var r := HandOver(handed[1..], t', envs[1..]);
                 r.(calls := [Ended(w, envs[0])] + r.calls)
  {
    hide CallFinish;
  }

  lemma ExecutionsOf(w: Worker, rest: seq<Worker>)
    ensures Executions([w] + rest) == multiset{w.id} + Executions(rest)
  {
    assert ([w] + rest)[1..] == rest;
  }

  // ---- A pass is a stretch of a run ----

  function StartActions(sid: nat, envs: seq<Env>): seq<Action> {
    seq(|envs|, k requires 0 <= k < |envs| => StartInterval(sid, envs[k]))
  }

  /** The system once the pass is over. */
  function PassedOver(s: System, sid: nat, r: Pass): System
    requires sid < |s.scheds|
  {
    s.(scheds := s.scheds[sid := s.scheds[sid].(handed := [])], table := r.table, workers := s.workers + r.threads,
       calls := s.calls + CallsOf(r.calls), leaked := s.leaked + Executions(r.left), log := s.log + r.calls)
  }

  /** With nothing in between, a pass is a run of hand-over steps. */
  lemma {:induction false} PassIsRun(hash: string -> nat, s: System, sid: nat, envs: seq<Env>) returns (taken: seq<Env>)
    requires sid < |s.scheds| && |envs| == |s.scheds[sid].handed|
    ensures taken <= envs
    ensures Run(hash, s, StartActions(sid, taken), PassedOver(s, sid, HandOver(s.scheds[sid].handed, s.table, envs)))
    decreases |envs|
  {
    hide *;
    if envs == [] {
      PassNothing(hash, s, sid);
      return [];
    }
    var w := s.scheds[sid].handed[0];
    if !envs[0].load.Loaded? && CallFinish(s.table, Some(w.id), w.workflowId, envs[0]).1 {
      PassRaises(s, sid, envs);
      RunOneStart(hash, s, sid, envs[0]);
      taken := [envs[0]];
    } else {
      PassGoesOn(s, sid, envs);
      var rest := PassIsRun(hash, DoInterval(s, sid, envs[0]), sid, envs[1..]);
      RunMoreStarts(hash, s, sid, envs[0], rest, PassedOver(s, sid, HandOver(s.scheds[sid].handed, s.table, envs)));
      taken := [envs[0]] + rest;
    }
  }

  lemma {:induction false} PassNothing(hash: string -> nat, s: System, sid: nat)
    requires sid < |s.scheds| && s.scheds[sid].handed == []
    ensures Run(hash, s, StartActions(sid, []), PassedOver(s, sid, HandOver(s.scheds[sid].handed, s.table, [])))
  {
    assert s.scheds[sid := s.scheds[sid].(handed := [])] == s.scheds && s.workers + [] == s.workers;
  }

  lemma RunOneStart(hash: string -> nat, s: System, sid: nat, env: Env)
    requires sid < |s.scheds| && s.scheds[sid].handed != []
    ensures Run(hash, s, StartActions(sid, [env]), DoInterval(s, sid, env))
  {
    hide DoInterval;
    assert StartActions(sid, [env])[1..] == [];
  }

  lemma RunMoreStarts(hash: string -> nat, s: System, sid: nat, env: Env, envs: seq<Env>, s': System)
    requires sid < |s.scheds| && s.scheds[sid].handed != []
    requires Run(hash, DoInterval(s, sid, env), StartActions(sid, envs), s')
    ensures Run(hash, s, StartActions(sid, [env] + envs), s')
  {
    hide DoInterval;
    assert StartActions(sid, [env] + envs)[1..] == StartActions(sid, envs);
  }

  lemma {:induction false} PassRaises(s: System, sid: nat, envs: seq<Env>)
    requires sid < |s.scheds| && |envs| == |s.scheds[sid].handed| > 0 && !envs[0].load.Loaded?
    requires CallFinish(s.table, Some(s.scheds[sid].handed[0].id), s.scheds[sid].handed[0].workflowId, envs[0]).1
    ensures PassedOver(s, sid, HandOver(s.scheds[sid].handed, s.table, envs)) == DoInterval(s, sid, envs[0])
  {
    hide CallFinish, Executions;
    assert s.workers + [] == s.workers;
    var call := Ended(s.scheds[sid].handed[0], envs[0]);
    CallCounted(s.scheds[sid].handed[0], envs[0], []);
    assert [call] + [] == [call];
  }

  lemma {:induction false} PassGoesOn(s: System, sid: nat, envs: seq<Env>)
    requires sid < |s.scheds| && |envs| == |s.scheds[sid].handed| > 0
    requires envs[0].load.Loaded?
          || !CallFinish(s.table, Some(s.scheds[sid].handed[0].id), s.scheds[sid].handed[0].workflowId, envs[0]).1
    ensures var s1 := DoInterval(s, sid, envs[0]);
            && |s1.scheds| == |s.scheds| && s1.scheds[sid].handed == s.scheds[sid].handed[1..]
            && PassedOver(s1, sid, HandOver(s1.scheds[sid].handed, s1.table, envs[1..]))
               == PassedOver(s, sid, HandOver(s.scheds[sid].handed, s.table, envs))
  {
    hide CallFinish, Executions;
    var l, s1 := s.scheds[sid], DoInterval(s, sid, envs[0]);
    var w, r1 := l.handed[0], HandOver(l.handed[1..], s1.table, envs[1..]);
    assert s1.scheds[sid := s1.scheds[sid].(handed := [])] == s.scheds[sid := l.(handed := [])];
    assert s.workers + [w] + r1.threads == s.workers + ([w] + r1.threads);
    assert s.log + [Ended(w, envs[0])] + r1.calls == s.log + ([Ended(w, envs[0])] + r1.calls);
    CallCounted(w, envs[0], r1.calls);
    HandOverStep(l.handed, s.table, envs);
    hide HandOver, CallsOf, Ended;
  }
}
