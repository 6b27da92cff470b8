// The order of retries, and what holds in every reachable state of the scheduler system.
module SchedulerRuns {
  import opened Wrappers
  import opened ExecutionTable
  import opened SchedulerModel
  import opened SchedulerSystem
  import opened SchedulerInvariants
  import opened SchedulerSafety

  // ---- Retries keep their order ----

  /** Where a ticket stands in a batch; its length if it does not. */
  function Position(es: seq<Entry>, ticket: nat): (p: nat)
    ensures p <= |es|
    ensures p < |es| ==> es[p].ticket == ticket
    ensures forall i :: 0 <= i < p ==> es[i].ticket != ticket
  {
    if es == [] || es[0].ticket == ticket then 0 else 1 + Position(es[1..], ticket)
  }

  /** Where the k-th queued entry stands in the current batch. */
  function Origin(l: Local, k: nat): nat
    requires k < |l.queue|
  {
    Position(l.batch, l.queue[k].ticket)
  }

  ghost predicate BatchFresh(l: Local, next: nat) {
    && (forall i, j :: 0 <= i < j < |l.batch| ==> l.batch[i].ticket != l.batch[j].ticket)
    && (forall i :: 0 <= i < |l.batch| ==> l.batch[i].ticket < next)
  }

  /** What the queue holds of the batch was put back by the drain, and stands there in
      the batch's order. */
  ghost predicate QueueOrdered(l: Local) {
    && |l.held| <= |l.batch|
    && (forall k :: 0 <= k < |l.queue| && Origin(l, k) < |l.batch| ==> Origin(l, k) < |l.batch| - |l.held|)
    && (forall i, j :: 0 <= i < j < |l.queue| && Origin(l, i) < |l.batch| && Origin(l, j) < |l.batch| ==>
          Origin(l, i) < Origin(l, j))
  }

  /** The held entries are the tail of the batch. */
  ghost predicate InOrder(l: Local, next: nat) {
    && |l.held| <= |l.batch| && l.held == l.batch[|l.batch| - |l.held|..]
    && BatchFresh(l, next) && QueueOrdered(l)
  }

  ghost predicate RetriesInOrder(s: System) {
    forall sid :: 0 <= sid < |s.scheds| ==> InOrder(s.scheds[sid], s.nextTicket)
  }

  lemma InOrderLater(l: Local, next: nat, next': nat)
    requires InOrder(l, next) && next <= next'
    ensures InOrder(l, next')
  {}

  /** An entry joins the queue from outside the batch, or is put back by the drain. */
  lemma QueueGrows(l: Local, l': Local, e: Entry)
    requires QueueOrdered(l) && l'.batch == l.batch && l'.queue == l.queue + [e] && |l'.held| <= |l.held|
    requires var p := Position(l.batch, e.ticket);
             p == |l.batch| || (p == |l.batch| - |l.held| && |l'.held| < |l.held|)
    ensures QueueOrdered(l')
  {
    var n := |l.batch|;
    assert forall k :: 0 <= k < |l.queue| ==> Origin(l', k) == Origin(l, k);
    assert Origin(l', |l.queue|) == Position(l.batch, e.ticket);
    hide Position, Origin;
    forall i, j | 0 <= i < j < |l'.queue| && Origin(l', i) < n && Origin(l', j) < n
      ensures Origin(l', i) < Origin(l', j)
    {
      assert Origin(l, i) < n;
    }
  }

  lemma InOrderEnqueue(l: Local, next: nat, e: Entry)
    requires InOrder(l, next) && e.ticket == next
    ensures InOrder(l.(queue := l.queue + [e]), next + 1)
  {
    assert Position(l.batch, next) == |l.batch|;
    QueueGrows(l, l.(queue := l.queue + [e]), e);
  }

  lemma InOrderHandle(l: Local, next: nat, v: Verdict)
    requires InOrder(l, next) && l.held != []
    ensures InOrder(HandledLocal(l, v), next)
  {
    var n, m, l' := |l.batch|, |l.batch| - |l.held|, HandledLocal(l, v);
    assert l.held[0] == l.batch[m];
    assert Position(l.batch, l.held[0].ticket) == m;
    assert l.held[1..] == l.batch[m + 1..] && l.batch[n..] == [];
    if v.Requeued? {
      QueueGrows(l, l', Retried(l.held[0]));
    } else {
      QueueStays(l, l');
    }
  }

  lemma QueueStays(l: Local, l': Local)
    requires QueueOrdered(l) && l'.batch == l.batch && l'.queue == l.queue && |l'.held| <= |l.held|
    ensures QueueOrdered(l')
  {
    assert forall k :: 0 <= k < |l.queue| ==> Origin(l', k) == Origin(l, k);
  }

  lemma TicketIssued(s: System, sid: nat, i: nat)
    requires EntriesConserved(s) && sid < |s.scheds| && i < |s.scheds[sid].queue|
    ensures s.scheds[sid].queue[i].ticket < s.nextTicket
  {
    var k := s.scheds[sid].queue[i].ticket;
    TicketCounted(s.scheds[sid].queue, i);
    AllTicketsUpdate(s.scheds, sid, Idle);
    assert (AllTickets(s.scheds[sid := Idle]) + TicketsAt(s.scheds[sid]))[k] == (AllTickets(s.scheds) + TicketsAt(Idle))[k];
    assert (AllTickets(s.scheds) + multiset(s.fates.Keys))[k] == multiset(Issued(s.nextTicket))[k];
    assert k in Issued(s.nextTicket);
  }

  lemma InOrderSwap(s: System, sid: nat)
    requires EntriesConserved(s) && sid < |s.scheds| && s.scheds[sid].held == []
    ensures InOrder(DoSwap(s, sid).scheds[sid], s.nextTicket)
  {
    var q := s.scheds[sid].queue;
    TicketOnce(s, sid);
    forall i, j | 0 <= i < j < |q| ensures q[i].ticket != q[j].ticket {
      assert Tickets(q)[q[i].ticket] <= TicketsAt(s.scheds[sid])[q[i].ticket] <= 1;
      if q[i].ticket == q[j].ticket {
        TicketTwice(q, i, j);
      }
    }
    forall i | 0 <= i < |q| ensures q[i].ticket < s.nextTicket {
      TicketIssued(s, sid, i);
    }
    assert q[|q| - |q|..] == q;
  }

  /** Only the acting scheduler changes, and its queue, batch and held list are in order. */
  lemma OrderMoves(s: System, sid: nat, s': System)
    requires RetriesInOrder(s) && sid < |s.scheds| && |s'.scheds| == |s.scheds| && s.nextTicket <= s'.nextTicket
    requires s'.scheds == s.scheds[sid := s'.scheds[sid]] && InOrder(s'.scheds[sid], s'.nextTicket)
    ensures RetriesInOrder(s')
  {
    forall k | 0 <= k < |s'.scheds| ensures InOrder(s'.scheds[k], s'.nextTicket) {
      if k != sid {
        InOrderLater(s.scheds[k], s.nextTicket, s'.nextTicket);
      }
    }
  }

  /** Only the turn or the hand-over list changes. */
  lemma InOrderSame(l: Local, l': Local, next: nat)
    requires InOrder(l, next) && l'.queue == l.queue && l'.batch == l.batch && l'.held == l.held
    ensures InOrder(l', next)
  {
    QueueStays(l, l');
  }

  lemma QueueKeepsOrder(s: System, sid: nat, k: nat)
    requires RetriesInOrder(s) && sid < |s.scheds| && k < |s.asked|
    ensures RetriesInOrder(DoQueue(s, sid, k))
  {
    InOrderEnqueue(s.scheds[sid], s.nextTicket, s.asked[k].(ticket := s.nextTicket));
    hide InOrder;
    OrderMoves(s, sid, DoQueue(s, sid, k));
  }

  lemma IntervalKeepsOrder(s: System, sid: nat, workflowId: string, number: nat, env: Env)
    requires RetriesInOrder(s) && sid < |s.scheds|
    ensures RetriesInOrder(DoQuery(s, sid, workflowId, number, env))
    ensures s.scheds[sid].handed != [] ==> RetriesInOrder(DoInterval(s, sid, env))
  {
    hide InOrder, Insert, CallFinish;
    if Insert(s.table, env.newId, workflowId, number, env.slot, "", false).Some? {
      HandedKeepsOrder(s, sid, DoQuery(s, sid, workflowId, number, env));
    }
    if s.scheds[sid].handed != [] {
      HandedKeepsOrder(s, sid, DoInterval(s, sid, env));
    }
  }

  lemma HandedKeepsOrder(s: System, sid: nat, s': System)
    requires RetriesInOrder(s) && sid < |s.scheds| && |s'.scheds| == |s.scheds| && s'.nextTicket == s.nextTicket
    requires s'.scheds == s.scheds[sid := s.scheds[sid].(handed := s'.scheds[sid].handed)]
    ensures RetriesInOrder(s')
  {
    hide InOrder;
    InOrderSame(s.scheds[sid], s'.scheds[sid], s.nextTicket);
    OrderMoves(s, sid, s');
  }

  lemma HandleKeepsOrder(hash: string -> nat, s: System, sid: nat, env: Env)
    requires RetriesInOrder(s) && sid < |s.scheds| && s.scheds[sid].held != []
    ensures RetriesInOrder(DoHandle(hash, s, sid, env))
  {
    var l, s' := s.scheds[sid], DoHandle(hash, s, sid, env);
    var n := Advance(hash, l.held[0], l.turn, s.table, env).1;
    hide Advance, InOrder;
    match n {
      case Over(v) => InOrderHandle(l, s.nextTicket, v);
      case On(turn) => InOrderSame(l, s'.scheds[sid], s.nextTicket);
    }
    OrderMoves(s, sid, s');
  }

  lemma StepKeepsOrder(hash: string -> nat, s: System, a: Action)
    requires RetriesInOrder(s) && EntriesConserved(s) && Enabled(s, a)
    ensures RetriesInOrder(Apply(hash, s, a))
  {
    hide EntriesConserved, InOrder;
    match a
    case Enqueue(sid, workflowId, strategy, event) =>
      InOrderEnqueue(s.scheds[sid], s.nextTicket, Entry(s.nextTicket, workflowId, Some(strategy), None, event, false));
      OrderMoves(s, sid, DoEnqueue(s, sid, workflowId, strategy, event));
    case AskManual(workflowId, event, env) =>
    case QueueManual(sid, k) => QueueKeepsOrder(s, sid, k);
    case Swap(sid) =>
      InOrderSwap(s, sid);
      OrderMoves(s, sid, DoSwap(s, sid));
    case HandleNext(sid, env) => HandleKeepsOrder(hash, s, sid, env);
    case QueryInterval(sid, workflowId, number, env) => IntervalKeepsOrder(s, sid, workflowId, number, env);
    case StartInterval(sid, env) => IntervalKeepsOrder(s, sid, "", 0, env);
    case WorkerEnds(k, outcome, env) => EndKeepsOrder(s, k, outcome, env);
  }

  lemma EndKeepsOrder(s: System, k: nat, outcome: Outcome, env: Env)
    requires RetriesInOrder(s) && k < |s.workers|
    ensures RetriesInOrder(DoEnd(s, k, outcome, env))
  {}

  // ---- Everything at once, on every run ----

  ghost predicate Invariant(hash: string -> nat, s: System) {
    && EntriesConserved(s) && ExecutionsConserved(s) && TurnsSound(s) && RowsSound(hash, s.table) && OpenUntilCalled(s)
    && RetriesInOrder(s)
  }

  lemma {:induction false} NothingYet(n: nat)
    ensures AllTickets(seq(n, _ => Idle)) == multiset{} && AllTokens(seq(n, _ => Idle)) == multiset{}
  {
    if n > 0 {
      assert seq(n, _ => Idle)[1..] == seq(n - 1, _ => Idle);
      NothingYet(n - 1);
    }
  }

  lemma StartInvariant(hash: string -> nat, n: nat)
    ensures Invariant(hash, Start(n))
  {
    NothingYet(n);
    StartInOrder(n);
    StartConserved(n);
    hide EntriesConserved, ExecutionsConserved, RetriesInOrder;
  }

  lemma StartConserved(n: nat)
    requires AllTickets(seq(n, _ => Idle)) == multiset{} && AllTokens(seq(n, _ => Idle)) == multiset{}
    ensures EntriesConserved(Start(n)) && ExecutionsConserved(Start(n))
  {
    hide AllTickets, AllTokens;
    var none: map<nat, Fate>, empty: Table := map[], map[];
    assert Start(n).scheds == seq(n, _ => Idle) && Start(n).fates == none && Start(n).table == empty;
    assert multiset(none.Keys) == multiset{} && multiset(empty.Keys) == multiset{} && multiset(Issued(0)) == multiset{};
  }

  lemma StartInOrder(n: nat)
    ensures RetriesInOrder(Start(n))
  {
    hide InOrder;
    IdleInOrder();
    var s := Start(n);
    forall sid | 0 <= sid < |s.scheds| ensures InOrder(s.scheds[sid], s.nextTicket) {
      assert s.scheds[sid] == Idle;
    }
  }

  lemma IdleInOrder()
    ensures InOrder(Idle, 0)
  {
    hide Position, Origin;
  }

  lemma {:induction false} RunInvariant(hash: string -> nat, s: System, actions: seq<Action>, s': System)
    requires Invariant(hash, s) && Run(hash, s, actions, s')
    ensures Invariant(hash, s')
    decreases actions
  {
    if actions != [] {
      StepKeepsEntries(hash, s, actions[0]);
      StepKeepsExecutions(hash, s, actions[0]);
      StepKeepsTurns(hash, s, actions[0]);
      StepKeepsRows(hash, s, actions[0]);
      StepKeepsOrder(hash, s, actions[0]);
      hide Apply, Enabled, EntriesConserved, ExecutionsConserved, TurnsSound, RowsSound, OpenUntilCalled, RetriesInOrder;
      RunInvariant(hash, Apply(hash, s, actions[0]), actions[1..], s');
    }
  }

  lemma ReachableInvariant(hash: string -> nat, s: System)
    requires Reachable(hash, s)
    ensures Invariant(hash, s)
  {
    var n, actions :| Run(hash, Start(n), actions, s);
    StartInvariant(hash, n);
    RunInvariant(hash, Start(n), actions, s);
  }

  /** On every run a finish call is made at most once for an execution, never while a
      worker, an entry or a pass still carries it, and an execution that is neither
      carried, nor called for, nor left behind does not exist. */
  lemma FinishedAtMostOnce(hash: string -> nat, s: System, id: ExecId)
    requires Reachable(hash, s)
    ensures s.calls[id] + Executions(s.workers)[id] + Carried(s.asked)[id] + AllTokens(s.scheds)[id] + s.leaked[id]
         == if id in s.table then 1 else 0
  {
    ReachableInvariant(hash, s);
    assert (AllTokens(s.scheds) + Elsewhere(s))[id] == multiset(s.table.Keys)[id];
  }

  /** On every run, two conflicting executions come from different slots. */
  lemma SameSlotExclusion(hash: string -> nat, s: System, i: ExecId, j: ExecId)
    requires Reachable(hash, s) && Conflict(s.table, i, j)
    ensures s.table[i].slot != s.table[j].slot
  {
    ReachableInvariant(hash, s);
    ConflictsCrossSlots(hash, s.table, i, j);
  }

  /** From the start, mutual exclusion holds all through a run exactly when the run never
      claims past an execution from another slot. */
  lemma ExclusionIff(hash: string -> nat, schedulers: nat, actions: seq<Action>, s: System)
    requires Run(hash, Start(schedulers), actions, s)
    ensures ExclusiveThroughout(hash, Start(schedulers), actions) <==> TimelyThroughout(hash, Start(schedulers), actions)
  {
    StartInvariant(hash, schedulers);
    RunExclusionIff(hash, Start(schedulers), actions, s);
  }
}
