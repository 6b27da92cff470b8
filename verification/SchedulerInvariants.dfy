// What holds at every moment of every run of the scheduler system.
module SchedulerInvariants {
  import opened Wrappers
  import opened ExecutionTable
  import opened SchedulerModel
  import opened SchedulerSystem

  // ---- Where entries and executions are ----

  function Tickets(es: seq<Entry>): multiset<nat> {
    if es == [] then multiset{} else multiset{es[0].ticket} + Tickets(es[1..])
  }

  function TicketsAt(l: Local): multiset<nat> {
    Tickets(l.queue) + Tickets(l.held)
  }

  function AllTickets(ls: seq<Local>): multiset<nat> {
    if ls == [] then multiset{} else TicketsAt(ls[0]) + AllTickets(ls[1..])
  }

  /** The execution that a pass claimed for the entry it is at. */
  function TurnTokens(turn: Turn): multiset<ExecId> {
    if turn.Claimed? then multiset{turn.id} else multiset{}
  }

  function TokensAt(l: Local): multiset<ExecId> {
    Carried(l.queue) + (Carried(l.held) + TurnTokens(l.turn)) + Executions(l.handed)
  }

  function AllTokens(ls: seq<Local>): multiset<ExecId> {
    if ls == [] then multiset{} else TokensAt(ls[0]) + AllTokens(ls[1..])
  }

  function Issued(n: nat): (r: set<nat>)
    ensures forall k: nat :: k in r <==> k < n
  {
    if n == 0 then {} else Issued(n - 1) + {n - 1}
  }

  /** Conservation of entries: every ticket ever issued is in exactly one place, once:
      in one queue, in one drain's held list, or among the fates. */
  ghost predicate EntriesConserved(s: System) {
    AllTickets(s.scheds) + multiset(s.fates.Keys) == multiset(Issued(s.nextTicket))
  }

  /** Outside the schedulers: with a manual run about to be queued, with a worker, spent
      on a finish call, or left behind. */
  function Elsewhere(s: System): multiset<ExecId> {
    Carried(s.asked) + Executions(s.workers) + (s.calls + s.leaked)
  }

  /** Lifecycle of executions: every row of the table has exactly one token, which is
      with an asked, queued or held entry, a pass, an interval hand-over or a worker, or
      is spent on the one finish call, or was left behind by a drain cut short. */
  ghost predicate ExecutionsConserved(s: System) {
    AllTokens(s.scheds) + Elsewhere(s) == multiset(s.table.Keys)
  }

  /** A pass that is under way has a held entry, which came without an execution. */
  ghost predicate TurnSound(l: Local) {
    l.turn.Fresh? || (l.held != [] && l.held[0].execution.None?)
  }

  ghost predicate TurnsSound(s: System) {
    forall sid :: 0 <= sid < |s.scheds| ==> TurnSound(s.scheds[sid])
  }

  lemma Shift<T>(h: multiset<T>, x: multiset<T>, b: multiset<T>, y: multiset<T>, c: multiset<T>)
    requires x + b == y + c
    ensures (h + x) + b == (h + y) + c
  {
    assert (h + x) + b == h + (x + b) && (h + y) + c == h + (y + c);
  }

  lemma {:induction false} AllTicketsUpdate(ls: seq<Local>, i: nat, l: Local)
    requires i < |ls|
    ensures AllTickets(ls[i := l]) + TicketsAt(ls[i]) == AllTickets(ls) + TicketsAt(l)
  {
    hide TicketsAt;
    var ls' := ls[i := l];
    if i > 0 {
      AllTicketsUpdate(ls[1..], i - 1, l);
      assert ls'[1..] == ls[1..][i - 1 := l];
      assert ls'[0] == ls[0] && ls[1..][i - 1] == ls[i];
      assert AllTickets(ls') == TicketsAt(ls[0]) + AllTickets(ls[1..][i - 1 := l]);
      Shift(TicketsAt(ls[0]), AllTickets(ls[1..][i - 1 := l]), TicketsAt(ls[i]), AllTickets(ls[1..]), TicketsAt(l));
    } else {
      assert ls'[1..] == ls[1..];
    }
  }

  lemma {:induction false} AllTokensUpdate(ls: seq<Local>, i: nat, l: Local)
    requires i < |ls|
    ensures AllTokens(ls[i := l]) + TokensAt(ls[i]) == AllTokens(ls) + TokensAt(l)
  {
    hide TokensAt;
    var ls' := ls[i := l];
    if i > 0 {
      AllTokensUpdate(ls[1..], i - 1, l);
      assert ls'[1..] == ls[1..][i - 1 := l];
      assert ls'[0] == ls[0] && ls[1..][i - 1] == ls[i];
      assert AllTokens(ls') == TokensAt(ls[0]) + AllTokens(ls[1..][i - 1 := l]);
      Shift(TokensAt(ls[0]), AllTokens(ls[1..][i - 1 := l]), TokensAt(ls[i]), AllTokens(ls[1..]), TokensAt(l));
    } else {
      assert ls'[1..] == ls[1..];
    }
  }

  lemma {:induction false} TicketsAppend(es: seq<Entry>, e: Entry)
    ensures Tickets(es + [e]) == Tickets(es) + multiset{e.ticket}
  {
    if es == [] {
      assert [e][1..] == [];
    } else {
      assert (es + [e])[1..] == es[1..] + [e];
      TicketsAppend(es[1..], e);
    }
  }

  lemma {:induction false} CarriedAppend(es: seq<Entry>, e: Entry)
    ensures Carried(es + [e]) == Carried(es) + Calls(e.execution)
  {
    hide Calls;
    if es == [] {
      assert [e][1..] == [];
    } else {
      assert (es + [e])[1..] == es[1..] + [e];
      CarriedAppend(es[1..], e);
    }
  }

  lemma {:induction false} ExecutionsSplit(a: seq<Worker>, b: seq<Worker>)
    ensures Executions(a + b) == Executions(a) + Executions(b)
  {
    if a == [] {
      assert a + b == b;
    } else {
      assert (a + b)[1..] == a[1..] + b;
      ExecutionsSplit(a[1..], b);
    }
  }

  // ---- Entries ----

  lemma {:induction false} LossesKeys(fates: map<nat, Fate>, es: seq<Entry>)
    requires forall k :: 0 <= Tickets(es)[k] + multiset(fates.Keys)[k] <= 1
    ensures multiset(WithFates(fates, Losses(es)).Keys) == multiset(fates.Keys) + Tickets(es)
    decreases es
  {
    if es != [] {
      var k := es[0].ticket;
      assert Tickets(es)[k] >= 1;
      FateAdded(fates, k, WasLost);
      assert Losses(es)[1..] == Losses(es[1..]);
      LossesKeys(fates[k := WasLost], es[1..]);
    }
  }

  lemma FateAdded(fates: map<nat, Fate>, k: nat, f: Fate)
    requires k !in fates
    ensures multiset(fates[k := f].Keys) == multiset(fates.Keys) + multiset{k}
  {
    assert fates[k := f].Keys == fates.Keys + {k};
  }

  /** One entry or fate per ticket: the counts never exceed one. */
  lemma TicketOnce(s: System, sid: nat)
    requires EntriesConserved(s) && sid < |s.scheds|
    ensures forall k :: TicketsAt(s.scheds[sid])[k] + multiset(s.fates.Keys)[k] <= 1
  {
    AllTicketsUpdate(s.scheds, sid, Idle);
    assert TicketsAt(Idle) == multiset{};
    forall k ensures TicketsAt(s.scheds[sid])[k] + multiset(s.fates.Keys)[k] <= 1 {
      assert multiset(Issued(s.nextTicket))[k] <= 1;
      assert (AllTickets(s.scheds) + multiset(s.fates.Keys))[k] == multiset(Issued(s.nextTicket))[k];
      assert (AllTickets(s.scheds[sid := Idle]) + TicketsAt(s.scheds[sid]))[k] == AllTickets(s.scheds)[k];
    }
  }

  lemma {:induction false} TicketCounted(es: seq<Entry>, i: nat)
    requires i < |es|
    ensures Tickets(es)[es[i].ticket] >= 1
  {
    if i > 0 {
      TicketCounted(es[1..], i - 1);
    }
  }

  lemma {:induction false} TicketTwice(es: seq<Entry>, i: nat, j: nat)
    requires i < j < |es| && es[i].ticket == es[j].ticket
    ensures Tickets(es)[es[i].ticket] >= 2
  {
    if i > 0 {
      TicketTwice(es[1..], i - 1, j - 1);
    } else {
      TicketCounted(es[1..], j - 1);
    }
  }

  /** The held entries of a drain are different, and none of them has a fate yet. */
  lemma HeldDiffer(s: System, sid: nat, i: nat, j: nat)
    requires EntriesConserved(s) && sid < |s.scheds| && i < j < |s.scheds[sid].held|
    ensures var held := s.scheds[sid].held; held[i].ticket != held[j].ticket
  {
    var held := s.scheds[sid].held;
    TicketOnce(s, sid);
    assert Tickets(held)[held[i].ticket] <= TicketsAt(s.scheds[sid])[held[i].ticket] <= 1;
    if held[i].ticket == held[j].ticket {
      TicketTwice(held, i, j);
    }
  }

  lemma HeldHaveNoFate(s: System, sid: nat, i: nat)
    requires EntriesConserved(s) && sid < |s.scheds| && i < |s.scheds[sid].held|
    ensures s.scheds[sid].held[i].ticket !in s.fates
  {
    var held := s.scheds[sid].held;
    TicketOnce(s, sid);
    TicketCounted(held, i);
    assert TicketsAt(s.scheds[sid])[held[i].ticket] >= 1;
  }

  /** One scheduler and the fates change, and the tickets balance. */
  lemma MoveTickets(s: System, sid: nat, l: Local, s': System)
    requires EntriesConserved(s) && sid < |s.scheds| && s'.scheds == s.scheds[sid := l]
    requires TicketsAt(l) + multiset(s'.fates.Keys) + multiset(Issued(s.nextTicket))
          == TicketsAt(s.scheds[sid]) + multiset(s.fates.Keys) + multiset(Issued(s'.nextTicket))
    ensures EntriesConserved(s')
  {
    AllTicketsUpdate(s.scheds, sid, l);
    Balance(AllTickets(s.scheds), TicketsAt(s.scheds[sid]), multiset(s.fates.Keys), multiset(Issued(s.nextTicket)),
            AllTickets(s'.scheds), TicketsAt(l), multiset(s'.fates.Keys), multiset(Issued(s'.nextTicket)));
  }

  lemma Balance<T>(a: multiset<T>, b: multiset<T>, f: multiset<T>, i: multiset<T>,
                   a': multiset<T>, c: multiset<T>, f': multiset<T>, i': multiset<T>)
    requires a + f == i && a' + b == a + c && c + f' + i == b + f + i'
    ensures a' + f' == i'
  {
    forall k ensures (a' + f')[k] == i'[k] {
      assert (a + f)[k] == i[k] && (a' + b)[k] == (a + c)[k] && (c + f' + i)[k] == (b + f + i')[k];
    }
  }

  lemma AddOne<T>(q: multiset<T>, h: multiset<T>, f: multiset<T>, i: multiset<T>, one: multiset<T>)
    ensures ((q + one) + h) + f + i == (q + h) + f + (i + one)
  {}

  lemma EnqueueKeepsEntries(s: System, sid: nat, e: Entry, asked: seq<Entry>)
    requires EntriesConserved(s) && sid < |s.scheds| && e.ticket == s.nextTicket
    ensures var l := s.scheds[sid];
            EntriesConserved(s.(scheds := s.scheds[sid := l.(queue := l.queue + [e])], asked := asked,
                                nextTicket := s.nextTicket + 1))
  {
    var l := s.scheds[sid];
    var l' := l.(queue := l.queue + [e]);
    TicketsAppend(l.queue, e);
    assert multiset(Issued(s.nextTicket + 1)) == multiset(Issued(s.nextTicket)) + multiset{e.ticket};
    assert TicketsAt(l') == Tickets(l'.queue) + Tickets(l.held) && TicketsAt(l) == Tickets(l.queue) + Tickets(l.held);
    hide *;
    AddOne(Tickets(l.queue), Tickets(l.held), multiset(s.fates.Keys), multiset(Issued(s.nextTicket)), multiset{e.ticket});
    MoveTickets(s, sid, l', s.(scheds := s.scheds[sid := l'], asked := asked, nextTicket := s.nextTicket + 1));
  }

  lemma HandledTickets(l: Local, fates: map<nat, Fate>, v: Verdict)
    requires l.held != [] && forall k :: TicketsAt(l)[k] + multiset(fates.Keys)[k] <= 1
    ensures TicketsAt(HandledLocal(l, v)) + multiset(HandledFates(fates, l.held, v).Keys)
         == TicketsAt(l) + multiset(fates.Keys)
  {
    var e, rest := l.held[0], l.held[1..];
    var l', one := HandledLocal(l, v), multiset{e.ticket};
    assert Tickets(l.held) == one + Tickets(rest);
    assert TicketsAt(l)[e.ticket] >= 1;
    assert TicketsAt(l) == Tickets(l.queue) + (one + Tickets(rest));
    assert TicketsAt(l') == Tickets(l'.queue) + Tickets(l'.held);
    if Raises(v) {
      FateAdded(fates, e.ticket, WasFailed);
      assert forall k :: Tickets(rest)[k] + one[k] <= TicketsAt(l)[k];
      LossesKeys(fates[e.ticket := WasFailed], rest);
      assert TicketsAt(l') == Tickets(l.queue);
      Regroup(Tickets(l.queue), one, Tickets(rest), multiset(fates.Keys));
    } else if v.Requeued? {
      TicketsAppend(l.queue, Retried(e));
      assert TicketsAt(l') == (Tickets(l.queue) + one) + Tickets(rest);
      Regroup(Tickets(l.queue), one, Tickets(rest), multiset(fates.Keys));
    } else {
      FateAdded(fates, e.ticket, FateOf(v));
      assert TicketsAt(l') == Tickets(l.queue) + Tickets(rest);
      Regroup(Tickets(l.queue), one, Tickets(rest), multiset(fates.Keys));
    }
  }

  lemma Regroup<T>(q: multiset<T>, one: multiset<T>, r: multiset<T>, f: multiset<T>)
    ensures q + ((f + one) + r) == (q + (one + r)) + f
    ensures ((q + one) + r) + f == (q + (one + r)) + f
    ensures (q + r) + (f + one) == (q + (one + r)) + f
  {}

  lemma HandleKeepsEntries(hash: string -> nat, s: System, sid: nat, env: Env)
    requires EntriesConserved(s) && sid < |s.scheds| && s.scheds[sid].held != []
    ensures EntriesConserved(DoHandle(hash, s, sid, env))
  {
    hide Advance, EntriesConserved;
    var l := s.scheds[sid];
    var (t, n) := Advance(hash, l.held[0], l.turn, s.table, env);
    match n {
      case Over(v) => EndPassKeepsEntries(s, sid, t, v);
      case On(_) => SameEntries(s, sid, DoHandle(hash, s, sid, env));
    }
  }

  lemma EndPassKeepsEntries(s: System, sid: nat, t: Table, v: Verdict)
    requires EntriesConserved(s) && sid < |s.scheds| && s.scheds[sid].held != []
    ensures EntriesConserved(DoEndPass(s, sid, t, v))
  {
    var l, s' := s.scheds[sid], DoEndPass(s, sid, t, v);
    TicketOnce(s, sid);
    assert s'.scheds == s.scheds[sid := HandledLocal(l, v)] && s'.fates == HandledFates(s.fates, l.held, v);
    assert s'.nextTicket == s.nextTicket;
    hide *;
    HandledTickets(l, s.fates, v);
    MoveTickets(s, sid, HandledLocal(l, v), s');
  }

  lemma QueueToHeld(s: System, sid: nat)
    requires EntriesConserved(s) && sid < |s.scheds| && s.scheds[sid].held == []
    ensures EntriesConserved(DoSwap(s, sid))
  {
    MoveTickets(s, sid, DoSwap(s, sid).scheds[sid], DoSwap(s, sid));
  }

  /** The interval steps do not touch entries. */
  lemma IntervalKeepsEntries(s: System, sid: nat, workflowId: string, number: nat, env: Env)
    requires EntriesConserved(s) && sid < |s.scheds|
    ensures EntriesConserved(DoQuery(s, sid, workflowId, number, env))
    ensures s.scheds[sid].handed != [] ==> EntriesConserved(DoInterval(s, sid, env))
  {
    if Insert(s.table, env.newId, workflowId, number, env.slot, "", false).Some? {
      SameEntries(s, sid, DoQuery(s, sid, workflowId, number, env));
    }
    if s.scheds[sid].handed != [] {
      SameEntries(s, sid, DoInterval(s, sid, env));
    }
  }

  lemma SameEntries(s: System, sid: nat, s': System)
    requires EntriesConserved(s) && sid < |s.scheds| && |s'.scheds| == |s.scheds|
    requires s'.scheds == s.scheds[sid := s'.scheds[sid]]
    requires s'.scheds[sid].queue == s.scheds[sid].queue && s'.scheds[sid].held == s.scheds[sid].held
    requires s'.fates == s.fates && s'.nextTicket == s.nextTicket
    ensures EntriesConserved(s')
  {
    MoveTickets(s, sid, s'.scheds[sid], s');
  }

  lemma StepKeepsEntries(hash: string -> nat, s: System, a: Action)
    requires EntriesConserved(s) && Enabled(s, a)
    ensures EntriesConserved(Apply(hash, s, a))
  {
    hide EntriesConserved;
    match a
    case Enqueue(sid, workflowId, strategy, event) =>
      EnqueueKeepsEntries(s, sid, Entry(s.nextTicket, workflowId, Some(strategy), None, event, false), s.asked);
    case AskManual(workflowId, event, env) => AskKeepsEntries(s, workflowId, event, env);
    case QueueManual(sid, k) =>
      EnqueueKeepsEntries(s, sid, s.asked[k].(ticket := s.nextTicket), s.asked[..k] + s.asked[k + 1..]);
    case Swap(sid) => QueueToHeld(s, sid);
    case HandleNext(sid, env) => HandleKeepsEntries(hash, s, sid, env);
    case QueryInterval(sid, workflowId, number, env) => IntervalKeepsEntries(s, sid, workflowId, number, env);
    case StartInterval(sid, env) => IntervalKeepsEntries(s, sid, "", 0, env);
    case WorkerEnds(k, outcome, env) => EndKeepsEntries(s, k, outcome, env);
  }

  lemma AskKeepsEntries(s: System, workflowId: string, event: Event, env: Env)
    requires EntriesConserved(s)
    ensures EntriesConserved(DoAsk(s, workflowId, event, env))
  {}

  lemma EndKeepsEntries(s: System, k: nat, outcome: Outcome, env: Env)
    requires EntriesConserved(s) && k < |s.workers|
    ensures EntriesConserved(DoEnd(s, k, outcome, env))
  {}

  // ---- Executions ----

  lemma RowAdded(t: Table, id: ExecId, workflowId: string, number: nat, slot: int, fingerprint: string, exclusive: bool)
    ensures var r := Insert(t, id, workflowId, number, slot, fingerprint, exclusive);
            r.Some? ==> multiset(r.value.Keys) == multiset(t.Keys) + multiset{id}
  {
    var r := Insert(t, id, workflowId, number, slot, fingerprint, exclusive);
    if r.Some? {
      assert r.value.Keys == t.Keys + {id};
    }
  }

  lemma FinishKeepsIds(t: Table, id: Option<ExecId>, workflowId: string, env: Env)
    ensures CallFinish(t, id, workflowId, env).0.Keys == t.Keys
  {}

  /** The verdict turns the tokens `own` into workers and finish calls. */
  ghost predicate Spends(t: Table, t': Table, own: multiset<ExecId>, v: Verdict) {
    && Executions(HandledWorkers(v)) + HandledCalls(v) + multiset(t.Keys) == multiset(t'.Keys) + own
    && (v.Requeued? ==> own == multiset{})
  }

  /** One change of a pass: a claim makes a token; a verdict spends the token that the
      entry carries or the pass claimed, and puts back or drops only entries without one. */
  lemma AdvanceTokens(hash: string -> nat, e: Entry, turn: Turn, t: Table, env: Env)
    requires turn.Fresh? || e.execution.None?
    ensures var (t', n) := Advance(hash, e, turn, t, env);
            match n
            case On(turn') =>
              turn.Fresh? && e.execution.None? && multiset(t'.Keys) == multiset(t.Keys) + TurnTokens(turn')
            case Over(v) => Spends(t, t', Calls(e.execution) + TurnTokens(turn), v)
  {
    hide Launch, Claim, CallFinish, Spends, NeedsLoad, StrategyOf, Exclusive;
    assert Calls(e.execution) + TurnTokens(turn)
        == if turn.Claimed? then multiset{turn.id} else Calls(e.execution);
    match turn {
      case Claimed(id) => LaunchSpends(e, id, t, env);
      case Collided => QuietSpends(t, Requeued);
      case Fresh => FirstTokens(hash, e, t, env);
    }
  }

  lemma FirstTokens(hash: string -> nat, e: Entry, t: Table, env: Env)
    ensures var (t', n) := Advance(hash, e, Fresh, t, env);
            match n
            case On(turn') => e.execution.None? && multiset(t'.Keys) == multiset(t.Keys) + TurnTokens(turn')
            case Over(v) => Spends(t, t', Calls(e.execution), v)
  {
    hide Launch, Claim, CallFinish, Spends, NeedsLoad, StrategyOf, Exclusive;
    if NeedsLoad(e, env) {
      FinishSpends(e.execution, LoadStatus(env.load), e.workflowId, t, env);
    } else if e.execution.Some? {
      LaunchSpends(e, e.execution.value, t, env);
    } else {
      ClaimTokens(hash, e, t, env);
      QuietSpends(t, Dropped);
      FinishSpends(None, Error, e.workflowId, t, env);
      NoFinish(t, e.workflowId, env);
    }
  }

  lemma QuietSpends(t: Table, v: Verdict)
    requires v.Requeued? || v.Dropped?
    ensures Spends(t, t, multiset{}, v)
  {}

  lemma FinishSpends(id: Option<ExecId>, status: Status, workflowId: string, t: Table, env: Env)
    ensures var (t', raised) := CallFinish(t, id, workflowId, env);
            Spends(t, t', Calls(id), Failed(FinishCall(id, status), raised))
  {
    FinishKeepsIds(t, id, workflowId, env);
    hide CallFinish;
  }

  lemma LaunchSpends(e: Entry, id: ExecId, t: Table, env: Env)
    ensures var (t', v) := Launch(e, id, t, env); Spends(t, t', multiset{id}, v)
  {
    FinishSpends(Some(id), Error, e.workflowId, t, env);
    hide CallFinish;
    var v := Launch(e, id, t, env).1;
    if v.Started? {
      assert [v.worker][1..] == [];
    }
  }

  lemma ClaimTokens(hash: string -> nat, e: Entry, t: Table, env: Env)
    requires !NeedsLoad(e, env)
    ensures var c := Claim(hash, e, t, env);
            c.Some? ==> multiset(c.value.Keys) == multiset(t.Keys) + multiset{env.newId}
  {
    RowAdded(t, env.newId, e.workflowId,
             ExecutionNumber(hash, if StrategyOf(e, env).Parallel? then "" else FingerprintOf(e.event), env.randomNumber),
             env.slot, FingerprintOf(e.event), Exclusive(e, env));
  }

  /** One scheduler, what is elsewhere and the table change, and the tokens balance. */
  lemma MoveTokens(s: System, sid: nat, l: Local, s': System)
    requires ExecutionsConserved(s) && sid < |s.scheds| && s'.scheds == s.scheds[sid := l]
    requires TokensAt(l) + Elsewhere(s') + multiset(s.table.Keys)
          == TokensAt(s.scheds[sid]) + Elsewhere(s) + multiset(s'.table.Keys)
    ensures ExecutionsConserved(s')
  {
    hide TokensAt, Elsewhere, AllTokens;
    AllTokensUpdate(s.scheds, sid, l);
    Balance(AllTokens(s.scheds), TokensAt(s.scheds[sid]), Elsewhere(s), multiset(s.table.Keys),
            AllTokens(s'.scheds), TokensAt(l), Elsewhere(s'), multiset(s'.table.Keys));
  }

  /** An entry joins a queue, from outside or from the manual runs. */
  lemma EnqueueKeepsExecutions(s: System, sid: nat, e: Entry, asked: seq<Entry>)
    requires ExecutionsConserved(s) && sid < |s.scheds|
    requires Carried(asked) + Calls(e.execution) == Carried(s.asked)
    ensures var l := s.scheds[sid];
            ExecutionsConserved(s.(scheds := s.scheds[sid := l.(queue := l.queue + [e])], asked := asked,
                                   nextTicket := s.nextTicket + 1))
  {
    var l := s.scheds[sid];
    var l' := l.(queue := l.queue + [e]);
    var s' := s.(scheds := s.scheds[sid := l'], asked := asked, nextTicket := s.nextTicket + 1);
    CarriedAppend(l.queue, e);
    hide ExecutionsConserved;
    MoveTokens(s, sid, l', s');
  }

  lemma {:induction false} CarriedSplit(a: seq<Entry>, b: seq<Entry>)
    ensures Carried(a + b) == Carried(a) + Carried(b)
  {
    hide Calls;
    if a == [] {
      assert a + b == b;
    } else {
      assert (a + b)[1..] == a[1..] + b;
      CarriedSplit(a[1..], b);
    }
  }

  lemma CarriedFirst(e: Entry, b: seq<Entry>)
    ensures Carried([e] + b) == Calls(e.execution) + Carried(b)
  {
    assert ([e] + b)[1..] == b;
  }

  lemma AskedRemoved(es: seq<Entry>, k: nat)
    requires k < |es|
    ensures Carried(es[..k] + es[k + 1..]) + Calls(es[k].execution) == Carried(es)
  {
    hide *;
    assert es == es[..k] + ([es[k]] + es[k + 1..]);
    CarriedSplit(es[..k], [es[k]] + es[k + 1..]);
    CarriedFirst(es[k], es[k + 1..]);
    CarriedSplit(es[..k], es[k + 1..]);
  }

  lemma AskKeepsExecutions(s: System, workflowId: string, event: Event, env: Env)
    requires ExecutionsConserved(s)
    ensures ExecutionsConserved(DoAsk(s, workflowId, event, env))
  {
    var number := env.randomNumber % (MAX_SIZE_SIGNED_INT + 1);
    RowAdded(s.table, env.newId, workflowId, number, env.slot, FingerprintOf(event), false);
    CarriedAppend(s.asked, Entry(0, workflowId, None, Some(env.newId), event, false));
    PassOver(AllTokens(s.scheds), Carried(s.asked), Executions(s.workers), s.calls + s.leaked, multiset(s.table.Keys),
             multiset{env.newId});
    hide AllTokens, Insert, Carried, Executions, FingerprintOf;
  }

  lemma PassOver<T>(a: multiset<T>, asked: multiset<T>, w: multiset<T>, c: multiset<T>, keys: multiset<T>,
                    one: multiset<T>)
    ensures a + (asked + w + c) == keys ==> a + ((asked + one) + w + c) == keys + one
  {
    if a + (asked + w + c) == keys {
      assert forall k :: (a + (asked + w + c))[k] == keys[k];
    }
  }

  lemma HandledQueue(l: Local, v: Verdict)
    requires l.held != [] && (v.Requeued? ==> Calls(l.held[0].execution) == multiset{})
    ensures Carried(HandledLocal(l, v).queue) == Carried(l.queue)
  {
    CarriedAppend(l.queue, Retried(l.held[0]));
    hide Carried, Calls;
  }

  lemma HandledRest(l: Local, v: Verdict)
    requires l.held != []
    ensures Carried(HandledLocal(l, v).held) + HandledLeaks(l.held, v) == Carried(l.held[1..])
    ensures Carried(l.held) == Calls(l.held[0].execution) + Carried(l.held[1..])
  {}

  lemma HandledTokens(l: Local, v: Verdict)
    requires l.held != [] && (v.Requeued? ==> Calls(l.held[0].execution) == multiset{})
    ensures TokensAt(HandledLocal(l, v)) + HandledLeaks(l.held, v) + (Calls(l.held[0].execution) + TurnTokens(l.turn))
         == TokensAt(l)
  {
    hide Carried, Calls, Executions, Raises, HandledLeaks;
    HandledQueue(l, v);
    HandledRest(l, v);
    var l' := HandledLocal(l, v);
    assert TokensAt(l') == Carried(l.queue) + Carried(l'.held) + Executions(l.handed);
    Handed(Carried(l.queue), Carried(l'.held), Executions(l.handed), HandledLeaks(l.held, v),
           Calls(l.held[0].execution), TurnTokens(l.turn), Carried(l.held[1..]));
  }

  lemma Handed<T>(q: multiset<T>, h: multiset<T>, x: multiset<T>, leaked: multiset<T>, c: multiset<T>, turn: multiset<T>,
                  rest: multiset<T>)
    requires h + leaked == rest
    ensures (q + h + x) + leaked + (c + turn) == q + ((c + rest) + turn) + x
  {
    assert forall k :: (h + leaked)[k] == rest[k];
  }

  lemma HandleKeepsExecutions(hash: string -> nat, s: System, sid: nat, env: Env)
    requires ExecutionsConserved(s) && sid < |s.scheds| && s.scheds[sid].held != [] && TurnSound(s.scheds[sid])
    ensures ExecutionsConserved(DoHandle(hash, s, sid, env))
  {
    hide Advance, ExecutionsConserved, Carried, Calls, Spends;
    var l := s.scheds[sid];
    var (t, n) := Advance(hash, l.held[0], l.turn, s.table, env);
    AdvanceTokens(hash, l.held[0], l.turn, s.table, env);
    match n {
      case Over(v) => EndPassKeepsExecutions(s, sid, t, v);
      case On(turn) => TurnKeepsExecutions(s, sid, t, turn);
    }
  }

  lemma TurnKeepsExecutions(s: System, sid: nat, t: Table, turn: Turn)
    requires ExecutionsConserved(s) && sid < |s.scheds| && s.scheds[sid].turn.Fresh?
    requires multiset(t.Keys) == multiset(s.table.Keys) + TurnTokens(turn)
    ensures ExecutionsConserved(s.(scheds := s.scheds[sid := s.scheds[sid].(turn := turn)], table := t))
  {
    hide Carried, Executions, ExecutionsConserved;
    MoveTokens(s, sid, s.scheds[sid].(turn := turn),
               s.(scheds := s.scheds[sid := s.scheds[sid].(turn := turn)], table := t));
  }

  lemma EndPassKeepsExecutions(s: System, sid: nat, t: Table, v: Verdict)
    requires ExecutionsConserved(s) && sid < |s.scheds| && s.scheds[sid].held != []
    requires Spends(s.table, t, Calls(s.scheds[sid].held[0].execution) + TurnTokens(s.scheds[sid].turn), v)
    ensures ExecutionsConserved(DoEndPass(s, sid, t, v))
  {
    var l, s' := s.scheds[sid], DoEndPass(s, sid, t, v);
    HandledTokens(l, v);
    WorkersOf(s.workers, v);
    assert s'.scheds == s.scheds[sid := HandledLocal(l, v)] && s'.table == t;
    assert Elsewhere(s) == Carried(s.asked) + Executions(s.workers) + (s.calls + s.leaked);
    assert Elsewhere(s') == Carried(s.asked) + (Executions(s.workers) + Executions(HandledWorkers(v)))
                            + ((s.calls + HandledCalls(v)) + (s.leaked + HandledLeaks(l.held, v)));
    hide *;
    Spend(TokensAt(HandledLocal(l, v)), TokensAt(l), HandledLeaks(l.held, v),
          Calls(l.held[0].execution) + TurnTokens(l.turn), Carried(s.asked),
          Executions(s.workers), Executions(HandledWorkers(v)), s.calls, HandledCalls(v), s.leaked,
          multiset(s.table.Keys), multiset(t.Keys));
    MoveTokens(s, sid, HandledLocal(l, v), s');
  }

  lemma Spend<T>(at': multiset<T>, at: multiset<T>, lost: multiset<T>, own: multiset<T>, asked: multiset<T>,
                 w: multiset<T>, w1: multiset<T>, c: multiset<T>, c1: multiset<T>, leaked: multiset<T>,
                 keys: multiset<T>, keys': multiset<T>)
    requires at' + lost + own == at && w1 + c1 + keys == keys' + own
    ensures at' + (asked + (w + w1) + ((c + c1) + (leaked + lost))) + keys == at + (asked + w + (c + leaked)) + keys'
  {
    forall k
      ensures (at' + (asked + (w + w1) + ((c + c1) + (leaked + lost))) + keys)[k]
           == (at + (asked + w + (c + leaked)) + keys')[k]
    {
      assert (at' + lost + own)[k] == at[k] && (w1 + c1 + keys)[k] == (keys' + own)[k];
    }
  }

  lemma WorkersOf(ws: seq<Worker>, v: Verdict)
    ensures Executions(ws + HandledWorkers(v)) == Executions(ws) + Executions(HandledWorkers(v))
  {
    ExecutionsSplit(ws, HandledWorkers(v));
  }

  /** An interval execution leaves the hand-over list: started, or finished; if the
      finish call raises, the rest of the list is left behind. */
  lemma HandOverMoves(s: System, sid: nat, s': System, started: bool, raised: bool)
    requires ExecutionsConserved(s) && sid < |s.scheds| && s.scheds[sid].handed != []
    requires var l, w := s.scheds[sid], s.scheds[sid].handed[0];
             && s'.scheds == s.scheds[sid := l.(handed := if raised then [] else l.handed[1..])]
             && s'.asked == s.asked && s'.workers == s.workers + (if started then [w] else [])
             && s'.calls == s.calls + (if started then multiset{} else multiset{w.id})
             && s'.leaked == s.leaked + (if raised then Executions(l.handed[1..]) else multiset{})
             && multiset(s'.table.Keys) == multiset(s.table.Keys)
    ensures ExecutionsConserved(s')
  {
    hide *;
    var l, w := s.scheds[sid], s.scheds[sid].handed[0];
    var own: multiset<ExecId>, none: multiset<ExecId> := multiset{w.id}, multiset{};
    var lost := if raised then Executions(l.handed[1..]) else none;
    HandOverTokens(l, raised);
    HandOverElsewhere(s, s', if started then own else none, if started then none else own, lost,
                      if started then [w] else []);
    Spend(TokensAt(s'.scheds[sid]), TokensAt(l), lost, own, Carried(s.asked), Executions(s.workers),
          if started then own else none, s.calls, if started then none else own, s.leaked,
          multiset(s.table.Keys), multiset(s'.table.Keys));
    MoveTokens(s, sid, s'.scheds[sid], s');
  }

  lemma HandOverElsewhere(s: System, s': System, started: multiset<ExecId>, called: multiset<ExecId>, lost: multiset<ExecId>,
                          ws: seq<Worker>)
    requires s'.asked == s.asked && s'.workers == s.workers + ws && |ws| <= 1
    requires started == if ws == [] then multiset{} else multiset{ws[0].id}
    requires s'.calls == s.calls + called && s'.leaked == s.leaked + lost
    ensures Elsewhere(s) == Carried(s.asked) + Executions(s.workers) + (s.calls + s.leaked)
    ensures Elsewhere(s') == Carried(s.asked) + (Executions(s.workers) + started) + ((s.calls + called) + (s.leaked + lost))
  {
    ExecutionsSplit(s.workers, ws);
    if ws != [] {
      assert ws[1..] == [];
    }
    hide Carried;
  }

  lemma HandOverTokens(l: Local, raised: bool)
    requires l.handed != []
    ensures TokensAt(l.(handed := if raised then [] else l.handed[1..]))
            + (if raised then Executions(l.handed[1..]) else multiset{}) + multiset{l.handed[0].id}
         == TokensAt(l)
  {}

  lemma IntervalKeepsExecutions(s: System, sid: nat, env: Env)
    requires ExecutionsConserved(s) && sid < |s.scheds| && s.scheds[sid].handed != []
    ensures ExecutionsConserved(DoInterval(s, sid, env))
  {
    var w := s.scheds[sid].handed[0];
    FinishKeepsIds(s.table, Some(w.id), w.workflowId, env);
    hide ExecutionsConserved, CallFinish, Executions;
    HandOverMoves(s, sid, DoInterval(s, sid, env), env.load.Loaded?,
                  !env.load.Loaded? && CallFinish(s.table, Some(w.id), w.workflowId, env).1);
  }

  lemma QueryKeepsExecutions(s: System, sid: nat, workflowId: string, number: nat, env: Env)
    requires ExecutionsConserved(s) && sid < |s.scheds|
    ensures ExecutionsConserved(DoQuery(s, sid, workflowId, number, env))
  {
    RowAdded(s.table, env.newId, workflowId, number, env.slot, "", false);
    hide Insert, ExecutionsConserved, TokensAt, Elsewhere;
    var l, s', w := s.scheds[sid], DoQuery(s, sid, workflowId, number, env), Worker(env.newId, workflowId);
    if Insert(s.table, env.newId, workflowId, number, env.slot, "", false).Some? {
      HandedTokens(l, w);
      assert Elsewhere(s') == Elsewhere(s) by { SameElsewhere(s, s'); }
      AddOneToken(TokensAt(l), Elsewhere(s), multiset(s.table.Keys), multiset{w.id});
      MoveTokens(s, sid, s'.scheds[sid], s');
    }
  }

  lemma HandedTokens(l: Local, w: Worker)
    ensures TokensAt(l.(handed := l.handed + [w])) == TokensAt(l) + multiset{w.id}
  {
    ExecutionsSplit(l.handed, [w]);
    assert [w][1..] == [];
    hide Carried;
  }

  lemma SameElsewhere(s: System, s': System)
    requires s'.asked == s.asked && s'.workers == s.workers && s'.calls == s.calls && s'.leaked == s.leaked
    ensures Elsewhere(s') == Elsewhere(s)
  {}

  lemma AddOneToken<T>(a: multiset<T>, b: multiset<T>, keys: multiset<T>, one: multiset<T>)
    ensures (a + one) + b + keys == a + b + (keys + one)
  {}

  lemma EndKeepsExecutions(s: System, k: nat, outcome: Outcome, env: Env)
    requires ExecutionsConserved(s) && k < |s.workers|
    ensures ExecutionsConserved(DoEnd(s, k, outcome, env))
  {
    var w, s' := s.workers[k], DoEnd(s, k, outcome, env);
    FinishKeepsIds(s.table, Some(w.id), w.workflowId, env);
    WorkerRemoved(s.workers, k);
    PassOn(AllTokens(s.scheds), Carried(s.asked), Executions(s'.workers), s.calls, s.leaked, multiset{w.id});
    hide CallFinish, AllTokens, Executions, Carried;
  }

  lemma PassOn<T>(a: multiset<T>, asked: multiset<T>, b: multiset<T>, c: multiset<T>, d: multiset<T>, one: multiset<T>)
    ensures a + (asked + (b + one) + (c + d)) == a + (asked + b + ((c + one) + d))
  {}

  lemma WorkerRemoved(ws: seq<Worker>, k: nat)
    requires k < |ws|
    ensures Executions(ws) == Executions(ws[..k] + ws[k + 1..]) + multiset{ws[k].id}
  {
    hide *;
    assert ws == ws[..k] + ([ws[k]] + ws[k + 1..]);
    TakenOut(ws[..k], ws[k], ws[k + 1..]);
  }

  lemma TakenOut(a: seq<Worker>, w: Worker, b: seq<Worker>)
    ensures Executions(a + ([w] + b)) == Executions(a + b) + multiset{w.id}
  {
    ExecutionsFirst(w, b);
    hide *;
    ExecutionsSplit(a, [w] + b);
    ExecutionsSplit(a, b);
  }

  lemma ExecutionsFirst(w: Worker, b: seq<Worker>)
    ensures Executions([w] + b) == multiset{w.id} + Executions(b)
  {
    assert ([w] + b)[1..] == b;
  }

  lemma StepKeepsExecutions(hash: string -> nat, s: System, a: Action)
    requires ExecutionsConserved(s) && TurnsSound(s) && Enabled(s, a)
    ensures ExecutionsConserved(Apply(hash, s, a))
  {
    hide ExecutionsConserved, Carried, Insert, Advance, CallFinish;
    match a
    case Enqueue(sid, workflowId, strategy, event) =>
      EnqueueKeepsExecutions(s, sid, Entry(s.nextTicket, workflowId, Some(strategy), None, event, false), s.asked);
    case AskManual(workflowId, event, env) => AskKeepsExecutions(s, workflowId, event, env);
    case QueueManual(sid, k) =>
      AskedRemoved(s.asked, k);
      EnqueueKeepsExecutions(s, sid, s.asked[k].(ticket := s.nextTicket), s.asked[..k] + s.asked[k + 1..]);
    case Swap(sid) => SwapKeepsExecutions(s, sid);
    case HandleNext(sid, env) => HandleKeepsExecutions(hash, s, sid, env);
    case QueryInterval(sid, workflowId, number, env) => QueryKeepsExecutions(s, sid, workflowId, number, env);
    case StartInterval(sid, env) => IntervalKeepsExecutions(s, sid, env);
    case WorkerEnds(k, outcome, env) => EndKeepsExecutions(s, k, outcome, env);
  }

  lemma SwapKeepsExecutions(s: System, sid: nat)
    requires ExecutionsConserved(s) && sid < |s.scheds| && s.scheds[sid].held == [] && TurnSound(s.scheds[sid])
    ensures ExecutionsConserved(DoSwap(s, sid))
  {
    MoveTokens(s, sid, DoSwap(s, sid).scheds[sid], DoSwap(s, sid));
  }

  lemma StepKeepsTurns(hash: string -> nat, s: System, a: Action)
    requires TurnsSound(s) && Enabled(s, a)
    ensures TurnsSound(Apply(hash, s, a))
  {
    hide Insert, CallFinish, Claim, Launch, TurnSound;
    match a
    case Enqueue(sid, workflowId, strategy, event) => TurnMoves(s, sid, Apply(hash, s, a));
    case AskManual(workflowId, event, env) =>
    case QueueManual(sid, k) => TurnMoves(s, sid, Apply(hash, s, a));
    case Swap(sid) => TurnMoves(s, sid, Apply(hash, s, a));
    case HandleNext(sid, env) => HandleKeepsTurns(hash, s, sid, env);
    case QueryInterval(sid, workflowId, number, env) =>
      if Insert(s.table, env.newId, workflowId, number, env.slot, "", false).Some? {
        TurnMoves(s, sid, Apply(hash, s, a));
      }
    case StartInterval(sid, env) => TurnMoves(s, sid, Apply(hash, s, a));
    case WorkerEnds(k, outcome, env) =>
  }

  lemma TurnMoves(s: System, sid: nat, s': System)
    requires TurnsSound(s) && sid < |s.scheds| && |s'.scheds| == |s.scheds|
    requires s'.scheds == s.scheds[sid := s'.scheds[sid]]
    requires s'.scheds[sid].turn.Fresh?
          || (s'.scheds[sid].turn == s.scheds[sid].turn && s'.scheds[sid].held == s.scheds[sid].held)
    ensures TurnsSound(s')
  {
    assert TurnSound(s.scheds[sid]);
  }

  lemma HandleKeepsTurns(hash: string -> nat, s: System, sid: nat, env: Env)
    requires TurnsSound(s) && sid < |s.scheds| && s.scheds[sid].held != []
    ensures TurnsSound(DoHandle(hash, s, sid, env))
  {
    hide Insert, CallFinish, Claim, Launch, NeedsLoad, StrategyOf;
  }
}
