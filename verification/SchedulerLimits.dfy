// Entries lost by a drain cut short: exactly when, on every run; and two runs that show
// what the scheduler does not keep.
module SchedulerLimits {
  import opened Wrappers
  import opened ExecutionTable
  import opened SchedulerModel
  import opened SchedulerSystem
  import opened SchedulerInvariants
  import opened SchedulerSafety
  import opened SchedulerRuns

  // ---- A drain cut short ----

  /** A finish call raises: no such row, or the drawn number breaks the unique
      constraint, or the look-up after the update fails. */
  predicate FinishRaises(t: Table, id: ExecId, workflowId: string, env: Env) {
    || id !in t || t[id].workflowId != workflowId || env.afterFails
    || Taken(t, t[id].(isRunning := env.draw, inProgress := false), {id})
  }

  /** Another row already has the key the claim needs (or its id). */
  predicate Collides(hash: string -> nat, e: Entry, t: Table, env: Env)
    requires !NeedsLoad(e, env)
  {
    !env.createFails && Claim(hash, e, t, env).None?
  }

  /** A retried alert whose refresh fails, and whose finish call then raises. */
  predicate RefreshRaises(e: Entry, id: ExecId, t: Table, env: Env) {
    e.retry && e.event.Alert? && env.enrichFails && FinishRaises(t, id, e.workflowId, env)
  }

  /** When the next change of a pass raises an error that leaves the loop: the workflow
      does not load and there is no execution to finish, or finishing it raises; or the
      refresh of a retried alert fails and the finish call raises; or the claim collides
      under the strategy that gives up, and the program tries to finish an execution that
      was never created. */
  predicate Escapes(hash: string -> nat, e: Entry, turn: Turn, t: Table, env: Env) {
    match turn
    case Collided => false
    case Claimed(id) => RefreshRaises(e, id, t, env)
    case Fresh =>
      if NeedsLoad(e, env) then e.execution.None? || FinishRaises(t, e.execution.value, e.workflowId, env)
      else if e.execution.Some? then RefreshRaises(e, e.execution.value, t, env)
      else StrategyOf(e, env).NonParallel? && Collides(hash, e, t, env)
  }

  /** For every entry, at every point of its pass. */
  lemma EscapesIff(hash: string -> nat, e: Entry, turn: Turn, t: Table, env: Env)
    ensures var n := Advance(hash, e, turn, t, env).1;
            n.Over? && Raises(n.verdict) <==> Escapes(hash, e, turn, t, env)
  {}

  lemma {:induction false} LossesRecorded(fates: map<nat, Fate>, es: seq<Entry>, k: nat)
    requires forall i, j :: 0 <= i < j < |es| ==> es[i].ticket != es[j].ticket
    requires k < |es|
    ensures es[k].ticket in WithFates(fates, Losses(es)) && WithFates(fates, Losses(es))[es[k].ticket] == WasLost
    decreases es
  {
    var t := es[0].ticket;
    assert Losses(es)[1..] == Losses(es[1..]);
    if k > 0 {
      LossesRecorded(fates[t := WasLost], es[1..], k - 1);
    } else {
      LossesElsewhere(fates[t := WasLost], es[1..], t);
    }
  }

  lemma {:induction false} LossesElsewhere(fates: map<nat, Fate>, es: seq<Entry>, t: nat)
    requires forall i :: 0 <= i < |es| ==> es[i].ticket != t
    ensures t in WithFates(fates, Losses(es)) <==> t in fates
    ensures t in fates ==> WithFates(fates, Losses(es))[t] == fates[t]
    decreases es
  {
    if es != [] {
      assert Losses(es)[1..] == Losses(es[1..]);
      LossesElsewhere(fates[es[0].ticket := WasLost], es[1..], t);
    }
  }

  /** The entries behind the one being handled are lost if and only if the error escapes;
      otherwise they are all still held. */
  lemma RestLostIff(hash: string -> nat, s: System, sid: nat, env: Env, k: nat)
    requires EntriesConserved(s) && sid < |s.scheds| && 1 <= k < |s.scheds[sid].held|
    ensures var l, s' := s.scheds[sid], DoHandle(hash, s, sid, env);
            var lost := l.held[k].ticket in s'.fates && s'.fates[l.held[k].ticket] == WasLost;
            && (lost <==> Escapes(hash, l.held[0], l.turn, s.table, env))
            && (!lost ==> s'.scheds[sid].held == l.held || s'.scheds[sid].held == l.held[1..])
  {
    var l := s.scheds[sid];
    EscapesIff(hash, l.held[0], l.turn, s.table, env);
    HeldHaveNoFate(s, sid, k);
    HeldDiffer(s, sid, 0, k);
    forall i, j | 0 <= i < j < |l.held[1..]| ensures l.held[1..][i].ticket != l.held[1..][j].ticket {
      HeldDiffer(s, sid, i + 1, j + 1);
    }
    hide Advance, Escapes, EntriesConserved;
    LossesRecorded(s.fates[l.held[0].ticket := WasFailed], l.held[1..], k - 1);
  }

  // ---- Nothing lost, on every run ----

  ghost predicate NothingLost(s: System) {
    forall k :: k in s.fates ==> s.fates[k] != WasLost
  }

  /** A handling step that raises while other entries are held behind the first. */
  predicate LosingStep(hash: string -> nat, s: System, a: Action) {
    && a.HandleNext? && Enabled(s, a) && |s.scheds[a.sid].held| > 1
    && Escapes(hash, s.scheds[a.sid].held[0], s.scheds[a.sid].turn, s.table, a.env)
  }

  /** Every fate of `fates` is in `fates'` too. */
  ghost predicate Remembered(fates: map<nat, Fate>, fates': map<nat, Fate>) {
    forall k :: k in fates ==> k in fates' && fates'[k] == fates[k]
  }

  /** A fate, once recorded, is never changed: its entry is nowhere else. */
  lemma StepKeepsFates(hash: string -> nat, s: System, a: Action)
    requires EntriesConserved(s) && Enabled(s, a)
    ensures Remembered(s.fates, Apply(hash, s, a).fates)
  {
    if a.HandleNext? {
      var l := s.scheds[a.sid];
      var n := Advance(hash, l.held[0], l.turn, s.table, a.env).1;
      hide Advance, EntriesConserved;
      if n.Over? {
        EndPassKeepsFates(s, a.sid, n.verdict);
      }
    }
  }

  lemma EndPassKeepsFates(s: System, sid: nat, v: Verdict)
    requires EntriesConserved(s) && sid < |s.scheds| && s.scheds[sid].held != []
    ensures Remembered(s.fates, HandledFates(s.fates, s.scheds[sid].held, v))
  {
    var held := s.scheds[sid].held;
    HeldHaveNoFate(s, sid, 0);
    forall k | k in s.fates && Raises(v) ensures forall i :: 1 <= i < |held| ==> held[i].ticket != k {
      forall i | 1 <= i < |held| ensures held[i].ticket != k {
        HeldHaveNoFate(s, sid, i);
      }
    }
    hide EntriesConserved;
    forall k | k in s.fates && Raises(v)
      ensures k in HandledFates(s.fates, held, v) && HandledFates(s.fates, held, v)[k] == s.fates[k]
    {
      LossesElsewhere(s.fates[held[0].ticket := FateOf(v)], held[1..], k);
    }
  }

  lemma {:induction false} RunKeepsFates(hash: string -> nat, s: System, actions: seq<Action>, s': System)
    requires EntriesConserved(s) && Run(hash, s, actions, s')
    ensures Remembered(s.fates, s'.fates)
    decreases actions
  {
    if actions != [] {
      StepKeepsEntries(hash, s, actions[0]);
      StepKeepsFates(hash, s, actions[0]);
      hide Apply, Enabled, EntriesConserved;
      RunKeepsFates(hash, Apply(hash, s, actions[0]), actions[1..], s');
    }
  }

  lemma StepLosesIff(hash: string -> nat, s: System, a: Action)
    requires EntriesConserved(s) && NothingLost(s) && Enabled(s, a)
    ensures NothingLost(Apply(hash, s, a)) <==> !LosingStep(hash, s, a)
  {
    if a.HandleNext? {
      var l := s.scheds[a.sid];
      var n := Advance(hash, l.held[0], l.turn, s.table, a.env).1;
      EscapesIff(hash, l.held[0], l.turn, s.table, a.env);
      hide Advance, Escapes, EntriesConserved, HandledFates;
      if LosingStep(hash, s, a) {
        RestLostIff(hash, s, a.sid, a.env, 1);
      } else if n.Over? {
        EndPassLosesNothing(s.fates, l.held, n.verdict);
      }
    }
  }

  lemma EndPassLosesNothing(fates: map<nat, Fate>, held: seq<Entry>, v: Verdict)
    requires held != [] && (|held| == 1 || !Raises(v)) && forall k :: k in fates ==> fates[k] != WasLost
    ensures var fates' := HandledFates(fates, held, v); forall k :: k in fates' ==> fates'[k] != WasLost
  {
    if |held| == 1 {
      assert Losses(held[1..]) == [];
    }
  }

  /** No step of the run raises with other entries behind. */
  ghost predicate NoLosingStep(hash: string -> nat, s: System, actions: seq<Action>)
    decreases actions
  {
    actions != [] ==>
      && Enabled(s, actions[0]) && !LosingStep(hash, s, actions[0])
      && NoLosingStep(hash, Apply(hash, s, actions[0]), actions[1..])
  }

  lemma {:induction false} RunLosesIff(hash: string -> nat, s: System, actions: seq<Action>, s': System)
    requires EntriesConserved(s) && NothingLost(s) && Run(hash, s, actions, s')
    ensures NothingLost(s') <==> NoLosingStep(hash, s, actions)
    decreases actions
  {
    if actions != [] {
      var next := Apply(hash, s, actions[0]);
      StepKeepsEntries(hash, s, actions[0]);
      StepLosesIff(hash, s, actions[0]);
      hide Apply, Enabled, EntriesConserved, LosingStep;
      RunKeepsFates(hash, next, actions[1..], s');
      if NothingLost(next) {
        RunLosesIff(hash, next, actions[1..], s');
      }
    }
  }

  /** From the start, no entry is ever lost on a run if and only if no handling step of the
      run that has entries behind it raises. */
  lemma LossIff(hash: string -> nat, schedulers: nat, actions: seq<Action>, s: System)
    requires Run(hash, Start(schedulers), actions, s)
    ensures NothingLost(s) <==> NoLosingStep(hash, Start(schedulers), actions)
  {
    StartInvariant(hash, schedulers);
    RunLosesIff(hash, Start(schedulers), actions, s);
  }

  // ---- The three kinds of entry ----

  /** An event with its workflow, a retried event, or a manual run with its execution. */
  predicate Shaped(e: Entry) {
    || (e.workflow.Some? && e.execution.None? && !e.retry)
    || (e.workflow.None? && e.execution.None? && e.retry)
    || (e.workflow.None? && e.execution.Some? && !e.retry)
  }

  ghost predicate AllShaped(s: System) {
    && (forall e :: e in s.asked ==> Shaped(e))
    && (forall sid :: 0 <= sid < |s.scheds| ==> LocalShaped(s.scheds[sid]))
  }

  ghost predicate LocalShaped(l: Local) {
    && (forall e :: e in l.queue ==> Shaped(e))
    && (forall e :: e in l.held ==> Shaped(e))
  }

  lemma ShapesMove(s: System, sid: nat, s': System)
    requires AllShaped(s) && sid < |s.scheds| && |s'.scheds| == |s.scheds|
    requires s'.scheds == s.scheds[sid := s'.scheds[sid]] && LocalShaped(s'.scheds[sid])
    requires forall e :: e in s'.asked ==> e in s.asked
    ensures AllShaped(s')
  {
    hide LocalShaped, Shaped;
  }

  lemma HandleKeepsShapes(hash: string -> nat, s: System, sid: nat, env: Env)
    requires AllShaped(s) && TurnsSound(s) && sid < |s.scheds| && s.scheds[sid].held != []
    ensures AllShaped(DoHandle(hash, s, sid, env))
  {
    var l := s.scheds[sid];
    var n := Advance(hash, l.held[0], l.turn, s.table, env).1;
    assert TurnSound(l) && LocalShaped(l);
    assert n.Over? && n.verdict.Requeued? ==> l.turn.Collided?;
    hide Advance;
    ShapesMove(s, sid, DoHandle(hash, s, sid, env));
  }

  lemma StepKeepsShapes(hash: string -> nat, s: System, a: Action)
    requires AllShaped(s) && TurnsSound(s) && Enabled(s, a)
    ensures AllShaped(Apply(hash, s, a))
  {
    hide Insert, CallFinish, DoHandle, FingerprintOf;
    match a
    case Enqueue(sid, workflowId, strategy, event) =>
      assert LocalShaped(s.scheds[sid]);
      ShapesMove(s, sid, Apply(hash, s, a));
    case AskManual(workflowId, event, env) =>
    case QueueManual(sid, k) =>
      assert LocalShaped(s.scheds[sid]) && Shaped(s.asked[k]);
      ShapesMove(s, sid, Apply(hash, s, a));
    case Swap(sid) =>
      assert LocalShaped(s.scheds[sid]);
      ShapesMove(s, sid, Apply(hash, s, a));
    case HandleNext(sid, env) => HandleKeepsShapes(hash, s, sid, env);
    case QueryInterval(sid, workflowId, number, env) =>
      if Insert(s.table, env.newId, workflowId, number, env.slot, "", false).Some? {
        assert LocalShaped(s.scheds[sid]);
        ShapesMove(s, sid, Apply(hash, s, a));
      }
    case StartInterval(sid, env) =>
      assert LocalShaped(s.scheds[sid]);
      ShapesMove(s, sid, Apply(hash, s, a));
    case WorkerEnds(k, outcome, env) =>
  }

  lemma {:induction false} RunKeepsShapes(hash: string -> nat, s: System, actions: seq<Action>, s': System)
    requires AllShaped(s) && TurnsSound(s) && Run(hash, s, actions, s')
    ensures AllShaped(s')
    decreases actions
  {
    if actions != [] {
      StepKeepsShapes(hash, s, actions[0]);
      StepKeepsTurns(hash, s, actions[0]);
      hide Apply, Enabled, AllShaped, TurnsSound;
      RunKeepsShapes(hash, Apply(hash, s, actions[0]), actions[1..], s');
    }
  }

  /** In every reachable state every entry is of one of the three kinds. */
  lemma ReachableShapes(hash: string -> nat, s: System)
    requires Reachable(hash, s)
    ensures AllShaped(s)
  {
    var n, actions :| Run(hash, Start(n), actions, s);
    RunKeepsShapes(hash, Start(n), actions, s);
  }

  /** When the first held entry of a reachable state, with its pass not begun, escapes: an
      event queued with its workflow, when its strategy is to give up on a collision and it
      collides; a retried event, when its workflow no longer loads or its strategy is now to
      give up and it collides; a manual run, when its workflow does not load and the finish
      call on its row raises. */
  lemma ReachableEscapes(hash: string -> nat, s: System, sid: nat, env: Env)
    requires Reachable(hash, s) && sid < |s.scheds| && s.scheds[sid].held != [] && s.scheds[sid].turn.Fresh?
    ensures var e, t := s.scheds[sid].held[0], s.table;
            var n := Advance(hash, e, Fresh, t, env).1;
            n.Over? && Raises(n.verdict) <==>
              if e.workflow.Some? then StrategyOf(e, env).NonParallel? && Collides(hash, e, t, env)
              else if e.retry then NeedsLoad(e, env) || (StrategyOf(e, env).NonParallel? && Collides(hash, e, t, env))
              else e.execution.Some? && NeedsLoad(e, env) && FinishRaises(t, e.execution.value, e.workflowId, env)
  {
    var e := s.scheds[sid].held[0];
    ReachableShapes(hash, s);
    assert LocalShaped(s.scheds[sid]) && e in s.scheds[sid].held;
    EscapesIff(hash, e, Fresh, s.table, env);
    hide Advance, Collides, FinishRaises, AllShaped, Reachable;
  }

  // ---- Two short runs ----

  function Answer(slot: int, id: ExecId): Env {
    Env(LoadError, slot, 0, id, false, false, 0, false)
  }

  lemma Prepend(hash: string -> nat, s: System, a: Action, rest: seq<Action>, s': System)
    requires Enabled(s, a) && Run(hash, Apply(hash, s, a), rest, s')
    ensures Run(hash, s, [a] + rest, s')
  {
    assert ([a] + rest)[1..] == rest;
  }

  /** Two alerts with one fingerprint for one workflow, and an event for another. */
  const First: Entry := Entry(0, "w", Some(NonParallel), None, Alert("f"), false)

  const Second: Entry := Entry(1, "w", Some(NonParallel), None, Alert("f"), false)

  const Other: Entry := Entry(2, "v", Some(Parallel), None, Alert("g"), false)

  function Queued(entries: seq<Entry>): System {
    System([Local(entries, [], [], Fresh, [])], [], map[], [], multiset{}, multiset{}, map[], |entries|, [])
  }

  /** The one scheduler has taken the three entries out of its queue. */
  const Taken3: System :=
    System([Local([], [First, Second, Other], [First, Second, Other], Fresh, [])], [], map[], [], multiset{}, multiset{},
           map[], 3, [])

  const Three: seq<Action> :=
    [Enqueue(0, "w", NonParallel, Alert("f")), Enqueue(0, "w", NonParallel, Alert("f")),
     Enqueue(0, "v", Parallel, Alert("g")), Swap(0)]

  lemma EnqueueIs(entries: seq<Entry>, workflowId: string, strategy: Strategy, event: Event)
    ensures DoEnqueue(Queued(entries), 0, workflowId, strategy, event)
         == Queued(entries + [Entry(|entries|, workflowId, Some(strategy), None, event, false)])
  {}

  lemma TakeThree(hash: string -> nat, rest: seq<Action>, s: System)
    requires Run(hash, Taken3, rest, s)
    ensures Run(hash, Start(1), Three + rest, s)
  {
    EnqueueIs([], "w", NonParallel, Alert("f"));
    EnqueueIs([First], "w", NonParallel, Alert("f"));
    EnqueueIs([First, Second], "v", Parallel, Alert("g"));
    assert [] + [First] == [First] && [First] + [Second] == [First, Second];
    assert [First, Second] + [Other] == [First, Second, Other];
    assert Start(1) == Queued([]) by { assert seq(1, _ => Idle) == [Idle]; }
    assert DoSwap(Queued([First, Second, Other]), 0) == Taken3;
    Prepend(hash, Queued([First, Second, Other]), Three[3], rest, s);
    Prepend(hash, Queued([First, Second]), Three[2], [Three[3]] + rest, s);
    Prepend(hash, Queued([First]), Three[1], [Three[2]] + ([Three[3]] + rest), s);
    Prepend(hash, Queued([]), Three[0], [Three[1]] + ([Three[2]] + ([Three[3]] + rest)), s);
    assert Three + rest == [Three[0]] + ([Three[1]] + ([Three[2]] + ([Three[3]] + rest)));
    hide *;
  }

  function ClaimedRow(hash: string -> nat, slot: int): Row {
    Row("w", ExecutionNumber(hash, "f", 0), 1, slot, true, "f", true)
  }

  /** The state after the first alert was claimed in slot 0, and after it was started. */
  function OneClaimed(hash: string -> nat): System {
    System([Local([], [First, Second, Other], [First, Second, Other], Claimed(0), [])], [],
           map[0 := ClaimedRow(hash, 0)], [], multiset{}, multiset{}, map[], 3, [])
  }

  function OneStarted(hash: string -> nat): System {
    System([Local([], [First, Second, Other], [Second, Other], Fresh, [])], [], map[0 := ClaimedRow(hash, 0)],
           [Worker(0, "w")], multiset{}, multiset{}, map[0 := WasStarted], 3, [])
  }

  lemma OneClaimedIs(hash: string -> nat)
    ensures DoHandle(hash, Taken3, 0, Answer(0, 0)) == OneClaimed(hash)
  {
    assert Advance(hash, First, Fresh, map[], Answer(0, 0)) == (map[0 := ClaimedRow(hash, 0)], On(Claimed(0)));
    hide Advance;
  }

  lemma OneStartedIs(hash: string -> nat)
    ensures DoHandle(hash, OneClaimed(hash), 0, Answer(0, 0)) == OneStarted(hash)
  {
    var t := map[0 := ClaimedRow(hash, 0)];
    assert Advance(hash, First, Claimed(0), t, Answer(0, 0)) == (t, Over(Started(Worker(0, "w"))));
    assert [First, Second, Other][1..] == [Second, Other];
    assert [] + [Worker(0, "w")] == [Worker(0, "w")];
    hide Advance;
  }

  /** From the start, with the first alert running, one more handling step. */
  lemma ThenHandle(hash: string -> nat, env: Env) returns (actions: seq<Action>, s: System)
    ensures s == DoHandle(hash, OneStarted(hash), 0, env) && Run(hash, Start(1), actions, s)
  {
    s := DoHandle(hash, OneStarted(hash), 0, env);
    Prepend(hash, OneStarted(hash), HandleNext(0, env), [], s);
    OneStartedIs(hash);
    Prepend(hash, OneClaimed(hash), HandleNext(0, Answer(0, 0)), [HandleNext(0, env)] + [], s);
    OneClaimedIs(hash);
    actions := [HandleNext(0, Answer(0, 0))] + ([HandleNext(0, env)] + []);
    Prepend(hash, Taken3, HandleNext(0, Answer(0, 0)), actions, s);
    actions := [HandleNext(0, Answer(0, 0))] + actions;
    hide Run, Advance;
    TakeThree(hash, actions, s);
    actions := Three + actions;
  }

  /** Two alerts with one fingerprint, handled in different two-minute slots, are both
      claimed: mutual exclusion fails. */
  lemma SlotsBreakExclusion(hash: string -> nat) returns (actions: seq<Action>, s: System)
    ensures Run(hash, Start(1), actions, s) && Conflict(s.table, 0, 1)
  {
    var t := OneStarted(hash).table;
    assert Advance(hash, Second, Fresh, t, Answer(1, 1))
        == (map[0 := ClaimedRow(hash, 0), 1 := ClaimedRow(hash, 1)], On(Claimed(1)));
    hide Run, Advance;
    actions, s := ThenHandle(hash, Answer(1, 1));
  }

  /** Two alerts collide under a strategy that gives up, and an unrelated event behind
      them is lost with the drain. */
  lemma CollisionLosesOthers(hash: string -> nat) returns (actions: seq<Action>, s: System)
    ensures Run(hash, Start(1), actions, s)
    ensures Other.ticket in s.fates && s.fates[Other.ticket] == WasLost
    ensures |s.scheds| == 1 && s.scheds[0].queue == [] && s.scheds[0].held == []
  {
    var s1 := OneStarted(hash);
    assert Key(s1.table[0]) == Key(ClaimedRow(hash, 0));
    assert Advance(hash, Second, Fresh, s1.table, Answer(0, 1)).1
        == Over(Failed(FinishCall(None, Error), true));
    LossesRecorded(s1.fates[1 := WasFailed], [Other], 0);
    assert [Second, Other][1..] == [Other];
    hide Run, Advance;
    actions, s := ThenHandle(hash, Answer(0, 1));
  }
}
