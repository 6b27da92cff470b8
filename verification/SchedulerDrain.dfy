// A drain that nothing interferes with is a stretch of a run, one or two steps an entry.
module SchedulerDrain {
  import opened ExecutionTable
  import opened SchedulerModel
  import opened SchedulerSystem

  function HandleActions(sid: nat, envs: seq<Env>): seq<Action> {
    seq(|envs|, k requires 0 <= k < |envs| => HandleNext(sid, envs[k]))
  }

  /** The system after a scheduler's drain got to desk `d`, with `held` still to handle. */
  ghost predicate Drained(s: System, sid: nat, d: Desk, held: seq<Entry>, s': System) {
    && sid < |s.scheds| && s'.scheds == s.scheds[sid := s.scheds[sid].(held := held, queue := d.queue)]
    && s'.asked == s.asked && s'.table == d.table && s'.workers == s.workers + d.threads && s'.calls == s.calls + CallsOf(d.calls)
    && s'.fates == WithFates(s.fates, d.fates) && s'.nextTicket == s.nextTicket && s'.log == s.log + d.calls
  }

  /** A desk worked on further. */
  function Onto(d: Desk, r: Desk): Desk {
    Desk(r.queue, r.table, d.threads + r.threads, d.calls + r.calls, d.fates + r.fates)
  }

  lemma DrainedTrans(s: System, sid: nat, d: Desk, h: seq<Entry>, s1: System, r: Desk, h': seq<Entry>, s2: System)
    requires Drained(s, sid, d, h, s1) && Drained(s1, sid, r, h', s2)
    ensures Drained(s, sid, Onto(d, r), h', s2)
  {
    hide CallsOf, WithFates;
    CallsOfConcat(d.calls, r.calls);
    WithFatesConcat(s.fates, d.fates, r.fates);
    assert s.log + d.calls + r.calls == s.log + (d.calls + r.calls);
    assert s.workers + d.threads + r.threads == s.workers + (d.threads + r.threads);
  }

  /** Desks that differ only in what was on them before drain alike. */
  lemma {:induction false} DrainAppends(hash: string -> nat, held: seq<Entry>, d: Desk, envs: seq<Env>)
    requires |envs| == |held|
    ensures var bare := Drain(hash, held, Desk(d.queue, d.table, [], [], []), envs);
            Drain(hash, held, d, envs) == (Onto(d, bare.0), bare.1)
    decreases |held|
  {
    var b := Desk(d.queue, d.table, [], [], []);
    hide Handle, Record, Losses, Raises;
    if held == [] {
      assert d.threads + [] == d.threads && d.calls + [] == d.calls && d.fates + [] == d.fates;
    } else {
      var (t, v) := Handle(hash, held[0], d.table, envs[0]);
      var d1, b1 := Record(d, held[0], t, v), Record(b, held[0], t, v);
      RecordAppends(d, held[0], t, v);
      if Raises(v) {
        assert d1.fates + Losses(held[1..]) == d.fates + (b1.fates + Losses(held[1..]));
      } else {
        DrainAppends(hash, held[1..], d1, envs[1..]);
        DrainAppends(hash, held[1..], b1, envs[1..]);
        OntoOnto(d, b1, Drain(hash, held[1..], Desk(b1.queue, b1.table, [], [], []), envs[1..]).0);
      }
    }
  }

  lemma RecordAppends(d: Desk, e: Entry, t: Table, v: Verdict)
    ensures Record(d, e, t, v) == Onto(d, Record(Desk(d.queue, d.table, [], [], []), e, t, v))
  {}

  lemma OntoOnto(d: Desk, b: Desk, r: Desk)
    ensures Onto(Onto(d, b), r) == Onto(d, Onto(b, r))
  {
    assert d.threads + b.threads + r.threads == d.threads + (b.threads + r.threads);
    assert d.calls + b.calls + r.calls == d.calls + (b.calls + r.calls);
    assert d.fates + b.fates + r.fates == d.fates + (b.fates + r.fates);
  }

  lemma {:induction false} CallsOfConcat(a: seq<FinishCall>, b: seq<FinishCall>)
    ensures CallsOf(a + b) == CallsOf(a) + CallsOf(b)
  {
    hide Calls;
    if a == [] {
      assert a + b == b;
    } else {
      assert (a + b)[1..] == a[1..] + b;
      CallsOfConcat(a[1..], b);
    }
  }

  lemma {:induction false} WithFatesConcat(m: map<nat, Fate>, a: seq<(nat, Fate)>, b: seq<(nat, Fate)>)
    ensures WithFates(m, a + b) == WithFates(WithFates(m, a), b)
    decreases a
  {
    if a == [] {
      assert a + b == b;
    } else {
      assert (a + b)[1..] == a[1..] + b;
      WithFatesConcat(m[a[0].0 := a[0].1], a[1..], b);
    }
  }

  /** The desk after one entry, starting from nothing. */
  function FirstDesk(hash: string -> nat, s: System, sid: nat, env: Env): Desk
    requires sid < |s.scheds| && s.scheds[sid].held != []
  {
    var l := s.scheds[sid];
    var (t, v) := Handle(hash, l.held[0], s.table, env);
    var d := Record(Desk(l.queue, s.table, [], [], []), l.held[0], t, v);
    if Raises(v) then d.(fates := d.fates + Losses(l.held[1..])) else d
  }

  lemma RecordDoes(l: Local, e: Entry, t: Table, t': Table, v: Verdict)
    requires l.held != [] && e == l.held[0]
    ensures var d := Record(Desk(l.queue, t, [], [], []), e, t', v);
            && d.table == t' && d.threads == HandledWorkers(v) && d.calls == HandledLog(v) && CallsOf(d.calls) == HandledCalls(v)
            && d.queue == HandledLocal(l, v).queue
            && d.fates == (if v.Requeued? then [] else [(e.ticket, FateOf(v))])
  {
    assert forall c: FinishCall :: CallsOf([c]) == Calls(c.id) by {
      forall c: FinishCall ensures CallsOf([c]) == Calls(c.id) { assert [c][1..] == []; }
    }
    var d := Record(Desk(l.queue, t, [], [], []), e, t', v);
    if v.Failed? {
      assert [] + [v.call] == [v.call];
    }
  }

  /** The system once a whole pass was made. */
  function Passed(hash: string -> nat, s: System, sid: nat, env: Env): System
    requires sid < |s.scheds| && s.scheds[sid].held != []
  {
    var (t, v) := Handle(hash, s.scheds[sid].held[0], s.table, env);
    DoEndPass(s, sid, t, v)
  }

  /** One pass in the system is one entry on the desk. */
  lemma HandleDoes(hash: string -> nat, s: System, sid: nat, env: Env)
    requires sid < |s.scheds| && s.scheds[sid].held != [] && s.scheds[sid].turn.Fresh?
    ensures var l := s.scheds[sid];
            Drained(s, sid, FirstDesk(hash, s, sid, env),
                    if Raises(Handle(hash, l.held[0], s.table, env).1) then [] else l.held[1..],
                    Passed(hash, s, sid, env))
  {
    var l := s.scheds[sid];
    var (t, v) := Handle(hash, l.held[0], s.table, env);
    RecordDoes(l, l.held[0], s.table, t, v);
    if !v.Requeued? {
      var one := [(l.held[0].ticket, FateOf(v))];
      assert WithFates(s.fates, one) == s.fates[l.held[0].ticket := FateOf(v)] by { assert one[1..] == []; }
      WithFatesConcat(s.fates, one, Losses(l.held[1..]));
    }
    hide Handle, Losses, Carried, CallsOf, Calls, WithFates, FateOf;
  }

  lemma DrainUnfolds(hash: string -> nat, s: System, sid: nat, envs: seq<Env>)
    requires sid < |s.scheds| && |envs| == |s.scheds[sid].held| > 0
    ensures var l, d := s.scheds[sid], FirstDesk(hash, s, sid, envs[0]);
            Drain(hash, l.held, Desk(l.queue, s.table, [], [], []), envs).0
            == if Raises(Handle(hash, l.held[0], s.table, envs[0]).1) then d
               else Onto(d, Drain(hash, l.held[1..], Desk(d.queue, d.table, [], [], []), envs[1..]).0)
  {
    var l, d := s.scheds[sid], FirstDesk(hash, s, sid, envs[0]);
    DrainAppends(hash, l.held[1..], d, envs[1..]);
    hide Handle;
  }

  /** The steps of a pass, all given the same answers: one, or two when it claims an
      execution or collides. */
  function Steps(hash: string -> nat, s: System, sid: nat, env: Env): seq<Env>
    requires sid < |s.scheds| && s.scheds[sid].held != []
  {
    if Advance(hash, s.scheds[sid].held[0], Fresh, s.table, env).1.On? then [env, env] else [env]
  }

  lemma {:induction false} RunConcat(hash: string -> nat, s: System, a: seq<Action>, s1: System, b: seq<Action>, s2: System)
    requires Run(hash, s, a, s1) && Run(hash, s1, b, s2)
    ensures Run(hash, s, a + b, s2)
    decreases a
  {
    hide Apply;
    if a == [] {
      assert a + b == b;
    } else {
      assert (a + b)[1..] == a[1..] + b;
      RunConcat(hash, Apply(hash, s, a[0]), a[1..], s1, b, s2);
    }
  }

  lemma {:induction false} RunOne(hash: string -> nat, s: System, sid: nat, env: Env)
    requires sid < |s.scheds| && s.scheds[sid].held != []
    ensures Run(hash, s, HandleActions(sid, [env]), DoHandle(hash, s, sid, env))
  {
    hide DoHandle;
    assert HandleActions(sid, [env])[1..] == [];
  }

  /** The steps of an undisturbed pass come to the whole pass. */
  lemma {:induction false} PassIsRun(hash: string -> nat, s: System, sid: nat, env: Env)
    requires sid < |s.scheds| && s.scheds[sid].held != [] && s.scheds[sid].turn.Fresh?
    ensures Run(hash, s, HandleActions(sid, Steps(hash, s, sid, env)), Passed(hash, s, sid, env))
  {
    var l, s1 := s.scheds[sid], DoHandle(hash, s, sid, env);
    var (t1, n) := Advance(hash, l.held[0], Fresh, s.table, env);
    AdvancesAreHandle(hash, l.held[0], s.table, env);
    hide Advance, Handle, Run;
    RunOne(hash, s, sid, env);
    if n.On? {
      RunOne(hash, s1, sid, env);
      RunConcat(hash, s, HandleActions(sid, [env]), s1, HandleActions(sid, [env]), DoHandle(hash, s1, sid, env));
      assert HandleActions(sid, [env]) + HandleActions(sid, [env]) == HandleActions(sid, [env, env]);
      TwoSteps(s, sid, t1, n.turn, Handle(hash, l.held[0], s.table, env).0, Handle(hash, l.held[0], s.table, env).1);
    }
  }

  lemma {:induction false} TwoSteps(s: System, sid: nat, t1: Table, turn: Turn, t: Table, v: Verdict)
    requires sid < |s.scheds| && s.scheds[sid].held != []
    ensures DoEndPass(s.(scheds := s.scheds[sid := s.scheds[sid].(turn := turn)], table := t1), sid, t, v)
         == DoEndPass(s, sid, t, v)
  {
    hide WithFates, Carried;
    var l := s.scheds[sid];
    assert s.scheds[sid := l.(turn := turn)][sid := HandledLocal(l, v)] == s.scheds[sid := HandledLocal(l, v)];
  }

  /** `taken` uses the answers in order, each for one step or two. */
  ghost predicate Serves(envs: seq<Env>, taken: seq<Env>) {
    taken == [] ||
    (envs != [] && taken[0] == envs[0]
     && (Serves(envs[1..], taken[1..]) || (|taken| > 1 && taken[1] == envs[0] && Serves(envs[1..], taken[2..]))))
  }

  /** The handling steps `taken` take the system from `s` to `s'`, where the scheduler's
      drain of its held entries, given the answers `envs`, has ended. */
  ghost predicate RunsDrain(hash: string -> nat, s: System, sid: nat, envs: seq<Env>, taken: seq<Env>, s': System)
    requires sid < |s.scheds| && |envs| == |s.scheds[sid].held|
  {
    var l := s.scheds[sid];
    && Serves(envs, taken) && Run(hash, s, HandleActions(sid, taken), s')
    && Drained(s, sid, Drain(hash, l.held, Desk(l.queue, s.table, [], [], []), envs).0, [], s')
  }

  lemma {:induction false} ServesMore(hash: string -> nat, s: System, sid: nat, envs: seq<Env>, rest: seq<Env>)
    requires sid < |s.scheds| && s.scheds[sid].held != [] && envs != [] && Serves(envs[1..], rest)
    ensures Serves(envs, Steps(hash, s, sid, envs[0]) + rest)
  {
    var steps := Steps(hash, s, sid, envs[0]);
    assert steps == [envs[0]] || steps == [envs[0], envs[0]];
    hide Steps, Advance;
    if steps == [envs[0]] {
      assert (steps + rest)[1..] == rest;
    } else {
      assert (steps + rest)[2..] == rest;
    }
  }

  lemma {:induction false} DrainRaises(hash: string -> nat, s: System, sid: nat, envs: seq<Env>)
    requires sid < |s.scheds| && |envs| == |s.scheds[sid].held| > 0 && s.scheds[sid].turn.Fresh?
    requires Raises(Handle(hash, s.scheds[sid].held[0], s.table, envs[0]).1)
    ensures RunsDrain(hash, s, sid, envs, Steps(hash, s, sid, envs[0]), Passed(hash, s, sid, envs[0]))
  {
    HandleDoes(hash, s, sid, envs[0]);
    DrainUnfolds(hash, s, sid, envs);
    PassIsRun(hash, s, sid, envs[0]);
    ServesNothing(envs[1..]);
    ServesMore(hash, s, sid, envs, []);
    assert Steps(hash, s, sid, envs[0]) + [] == Steps(hash, s, sid, envs[0]);
    hide Run, Drained, Drain, Handle, Passed, FirstDesk, HandleActions, Steps, Serves;
  }

  lemma ActionsConcat(sid: nat, a: seq<Env>, b: seq<Env>)
    ensures HandleActions(sid, a) + HandleActions(sid, b) == HandleActions(sid, a + b)
  {}

  lemma {:induction false} ServesNothing(envs: seq<Env>)
    ensures Serves(envs, [])
  {}

  lemma {:induction false} DrainGoesOn(hash: string -> nat, s: System, sid: nat, envs: seq<Env>, rest: seq<Env>, s': System)
    requires sid < |s.scheds| && |envs| == |s.scheds[sid].held| > 0 && s.scheds[sid].turn.Fresh?
    requires !Raises(Handle(hash, s.scheds[sid].held[0], s.table, envs[0]).1)
    requires var s1 := Passed(hash, s, sid, envs[0]);
             sid < |s1.scheds| && |s1.scheds[sid].held| == |envs| - 1 && RunsDrain(hash, s1, sid, envs[1..], rest, s')
    ensures RunsDrain(hash, s, sid, envs, Steps(hash, s, sid, envs[0]) + rest, s')
  {
    var l, d1, s1 := s.scheds[sid], FirstDesk(hash, s, sid, envs[0]), Passed(hash, s, sid, envs[0]);
    var steps := Steps(hash, s, sid, envs[0]);
    HandleDoes(hash, s, sid, envs[0]);
    DrainUnfolds(hash, s, sid, envs);
    DrainedLocal(s, sid, d1, l.held[1..], s1);
    PassIsRun(hash, s, sid, envs[0]);
    ServesMore(hash, s, sid, envs, rest);
    ActionsConcat(sid, steps, rest);
    hide Run, Drained, Drain, Handle, Passed, FirstDesk, HandleActions, Onto, Steps, Serves;
    RunConcat(hash, s, HandleActions(sid, steps), s1, HandleActions(sid, rest), s');
    DrainedTrans(s, sid, d1, l.held[1..], s1,
                 Drain(hash, l.held[1..], Desk(d1.queue, d1.table, [], [], []), envs[1..]).0, [], s');
  }

  /** With nothing in between, the scheduler's drain is a run of handling steps: the
      system ends exactly as `Drain` says. */
  lemma {:induction false} DrainIsRun(hash: string -> nat, s: System, sid: nat, envs: seq<Env>)
    returns (taken: seq<Env>, s': System)
    requires sid < |s.scheds| && |envs| == |s.scheds[sid].held| && s.scheds[sid].turn.Fresh?
    ensures RunsDrain(hash, s, sid, envs, taken, s')
    decreases |envs|
  {
    if envs == [] {
      DrainNothing(hash, s, sid);
      return [], s;
    }
    var s1 := Passed(hash, s, sid, envs[0]);
    PassedHeld(hash, s, sid, envs[0]);
    hide *;
    if Raises(Handle(hash, s.scheds[sid].held[0], s.table, envs[0]).1) {
      DrainRaises(hash, s, sid, envs);
      taken, s' := Steps(hash, s, sid, envs[0]), s1;
    } else {
      taken, s' := DrainIsRun(hash, s1, sid, envs[1..]);
      DrainGoesOn(hash, s, sid, envs, taken, s');
      taken := Steps(hash, s, sid, envs[0]) + taken;
    }
  }

  lemma PassedHeld(hash: string -> nat, s: System, sid: nat, env: Env)
    requires sid < |s.scheds| && s.scheds[sid].held != []
    ensures var s1 := Passed(hash, s, sid, env);
            && |s1.scheds| == |s.scheds| && s1.scheds[sid].turn.Fresh?
            && s1.scheds[sid].held == if Raises(Handle(hash, s.scheds[sid].held[0], s.table, env).1) then []
                                      else s.scheds[sid].held[1..]
  {}

  lemma DrainNothing(hash: string -> nat, s: System, sid: nat)
    requires sid < |s.scheds| && s.scheds[sid].held == []
    ensures RunsDrain(hash, s, sid, [], [], s)
  {
    assert s.workers + [] == s.workers;
  }

  lemma DrainedLocal(s: System, sid: nat, d: Desk, held: seq<Entry>, s': System)
    requires Drained(s, sid, d, held, s')
    ensures sid < |s'.scheds| && s'.scheds[sid].held == held && s'.scheds[sid].queue == d.queue && s'.table == d.table
  {}
}
