// What one batch of alerts does to incidents
// (ee/experimental/incident_utils.py, process_graph_component and the in-memory helpers),
// on values. Incidents.dfy has the objects the program updates.
module IncidentModel {
  datatype Alert = Alert(id: int, fingerprint: string, time: real)

  datatype State = State(alerts: seq<Alert>, lastSeen: real)

  datatype Settings = Settings(minSize: int, validity: real)

  function Fingerprints(alerts: seq<Alert>): set<string> {
    set a | a in alerts :: a.fingerprint
  }

  function Ids(alerts: seq<Alert>): set<int> {
    set a | a in alerts :: a.id
  }

  /** The alerts of the component whose ids are not known yet, in order. */
  function Unseen(alerts: seq<Alert>, component: set<string>, known: set<int>): (r: seq<Alert>)
    ensures forall a :: a in r <==> a in alerts && a.fingerprint in component && a.id !in known
  {
    if alerts == [] then []
    else
      var rest := Unseen(alerts[1..], component, known);
      if alerts[0].fingerprint in component && alerts[0].id !in known then [alerts[0]] + rest else rest
  }

  function InComponent(alerts: seq<Alert>, component: set<string>): seq<Alert> {
    Unseen(alerts, component, {})
  }

  function Earliest(alerts: seq<Alert>): (t: real)
    requires alerts != []
    ensures (exists k :: 0 <= k < |alerts| && alerts[k].time == t) && forall a :: a in alerts ==> t <= a.time
  {
    if |alerts| == 1 then assert alerts[0].time == alerts[|alerts| - 1].time; alerts[0].time
    else
      var rest := Earliest(alerts[1..]);
      assert forall k :: 0 <= k < |alerts[1..]| ==> alerts[1..][k] == alerts[k + 1];
      if alerts[0].time <= rest then alerts[0].time else rest
  }

  function Latest(alerts: seq<Alert>): (t: real)
    requires alerts != []
    ensures (exists k :: 0 <= k < |alerts| && alerts[k].time == t) && forall a :: a in alerts ==> a.time <= t
  {
    if |alerts| == 1 then assert alerts[0].time == alerts[|alerts| - 1].time; alerts[0].time
    else
      var rest := Latest(alerts[1..]);
      assert forall k :: 0 <= k < |alerts[1..]| ==> alerts[1..][k] == alerts[k + 1];
      if alerts[0].time >= rest then alerts[0].time else rest
  }

  // ---- One component ----

  /** The incident lies inside the component and shares a fingerprint with the batch. */
  predicate Matches(s: State, component: set<string>, batch: set<string>) {
    Fingerprints(s.alerts) <= component && Fingerprints(s.alerts) * batch != {}
  }

  /** So neither the minimum nor the maximum taken for a match can be of nothing. */
  lemma MatchHasAlert(s: State, component: set<string>, alerts: seq<Alert>)
    requires Matches(s, component, Fingerprints(alerts))
    ensures s.alerts != [] && InComponent(alerts, component) != []
  {
    var f :| f in Fingerprints(s.alerts) && f in Fingerprints(alerts);
    var a :| a in alerts && a.fingerprint == f;
    assert a in InComponent(alerts, component);
  }

  predicate Accepts(s: State, component: set<string>, alerts: seq<Alert>, settings: Settings) {
    && Matches(s, component, Fingerprints(alerts))
    && (MatchHasAlert(s, component, alerts);
        Earliest(InComponent(alerts, component)) - s.lastSeen < settings.validity)
  }

  /** The first incident from `from` on that accepts, or the number of incidents. */
  function FirstAccepting(states: seq<State>, component: set<string>, alerts: seq<Alert>, settings: Settings, from: nat)
    : (i: nat)
    requires from <= |states|
    ensures from <= i <= |states|
    ensures i < |states| ==> Accepts(states[i], component, alerts, settings)
    ensures forall k :: from <= k < i ==> !Accepts(states[k], component, alerts, settings)
    decreases |states| - from
  {
    if from == |states| || Accepts(states[from], component, alerts, settings) then from
    else FirstAccepting(states, component, alerts, settings, from + 1)
  }

  function Merge(s: State, component: set<string>, alerts: seq<Alert>): State
    requires s.alerts != []
  {
    var all := s.alerts + Unseen(alerts, component, Ids(s.alerts));
    State(all, Latest(all))
  }

  function NewIncident(component: set<string>, alerts: seq<Alert>): State
    requires InComponent(alerts, component) != []
  {
    State(InComponent(alerts, component), Latest(InComponent(alerts, component)))
  }

  /** What becomes of a component. `Failed` is the error of taking the minimum of nothing. */
  datatype Outcome = Updated(index: nat) | Created(state: State) | Dropped | Failed

  function Assign(states: seq<State>, component: set<string>, alerts: seq<Alert>, settings: Settings): (o: Outcome)
    ensures o.Updated? ==> o.index < |states| && Accepts(states[o.index], component, alerts, settings)
  {
    var i := FirstAccepting(states, component, alerts, settings, 0);
    if i < |states| then Updated(i)
    else if |component| < settings.minSize then Dropped
    else if InComponent(alerts, component) == [] then Failed
    else Created(NewIncident(component, alerts))
  }

  /** Large enough for an incident of its own, but without an alert in the batch. */
  predicate Breaking(component: set<string>, alerts: seq<Alert>, settings: Settings) {
    |component| >= settings.minSize && component * Fingerprints(alerts) == {}
  }

  /** A component fails exactly when it is large enough for an incident of its own but
      has no alert in the batch; the incidents do not matter. */
  lemma AssignFailsIff(states: seq<State>, component: set<string>, alerts: seq<Alert>, settings: Settings)
    ensures Assign(states, component, alerts, settings).Failed? <==> Breaking(component, alerts, settings)
  {
    var i := FirstAccepting(states, component, alerts, settings, 0);
    if i < |states| {
      MatchHasAlert(states[i], component, alerts);
    }
    InComponentEmptyIff(alerts, component);
  }

  lemma InComponentEmptyIff(alerts: seq<Alert>, component: set<string>)
    ensures InComponent(alerts, component) == [] <==> component * Fingerprints(alerts) == {}
  {
    var inside := InComponent(alerts, component);
    if inside != [] {
      assert inside[0] in inside;
      assert inside[0].fingerprint in component * Fingerprints(alerts);
    }
    if f :| f in component * Fingerprints(alerts) {
      var a :| a in alerts && a.fingerprint == f;
      assert a in inside;
    }
  }

  // ---- One batch ----

  /** The incidents of the batch as they are now, and the outcome of each component so far. */
  datatype BatchState = BatchState(states: seq<State>, outcomes: seq<Outcome>)

  predicate Broken(p: BatchState) {
    p.outcomes != [] && p.outcomes[|p.outcomes| - 1].Failed?
  }

  function Apply(states: seq<State>, o: Outcome, component: set<string>, alerts: seq<Alert>): (r: seq<State>)
    requires o.Updated? ==> o.index < |states| && states[o.index].alerts != []
    ensures |r| == |states|
  {
    if o.Updated? then states[o.index := Merge(states[o.index], component, alerts)] else states
  }

  function Next(p: BatchState, component: set<string>, alerts: seq<Alert>, settings: Settings): (r: BatchState)
    ensures |r.states| == |p.states|
  {
    var o := Assign(p.states, component, alerts, settings);
    if o.Updated? then MatchHasAlert(p.states[o.index], component, alerts);
      BatchState(Apply(p.states, o, component, alerts), p.outcomes + [o])
    else BatchState(p.states, p.outcomes + [o])
  }

  /** The components one after the other, each seeing what the ones before it did. */
  function Process(states: seq<State>, parts: seq<set<string>>, alerts: seq<Alert>, settings: Settings): (p: BatchState)
    ensures |p.states| == |states| && |p.outcomes| <= |parts|
  {
    if parts == [] then BatchState(states, [])
    else
      var p := Process(states, parts[..|parts| - 1], alerts, settings);
      if Broken(p) then p else Next(p, parts[|parts| - 1], alerts, settings)
  }

  ghost predicate Apart(parts: seq<set<string>>) {
    forall k, l :: 0 <= k < l < |parts| ==> parts[k] !! parts[l]
  }

  /** Component `k` extended incident `i`. */
  ghost predicate Extends(p: BatchState, k: nat, i: nat) {
    k < |p.outcomes| && p.outcomes[k] == Updated(i)
  }

  ghost predicate Untouched(s: State, p: BatchState, i: nat)
    requires i < |p.states|
  {
    p.states[i] == s && forall k: nat :: !Extends(p, k, i)
  }

  /** Component `k` and no other extended incident `i`, which it found in state `s`. */
  ghost predicate ExtendedBy(s: State, parts: seq<set<string>>, alerts: seq<Alert>, p: BatchState, i: nat, k: nat)
    requires i < |p.states|
  {
    && Extends(p, k, i) && (forall l: nat :: Extends(p, l, i) ==> l == k)
    && k < |parts| && s.alerts != [] && Fingerprints(s.alerts) <= parts[k] && p.states[i] == Merge(s, parts[k], alerts)
  }

  ghost predicate FateOf(s: State, parts: seq<set<string>>, alerts: seq<Alert>, p: BatchState, i: nat)
    requires i < |p.states|
  {
    Untouched(s, p, i) || exists k: nat :: ExtendedBy(s, parts, alerts, p, i, k)
  }

  ghost predicate Outcomes(states: seq<State>, parts: seq<set<string>>, alerts: seq<Alert>, settings: Settings,
                           p: BatchState) {
    |p.outcomes| <= |parts|
    && forall k :: 0 <= k < |p.outcomes| ==> p.outcomes[k] == Assign(states, parts[k], alerts, settings)
  }

  /** Every component met the incidents as they were before the batch, and no incident
      was extended twice. */
  ghost predicate EachAlone(states: seq<State>, parts: seq<set<string>>, alerts: seq<Alert>, settings: Settings,
                            p: BatchState) {
    && |p.states| == |states| && Outcomes(states, parts, alerts, settings, p)
    && forall i: nat :: i < |states| ==> FateOf(states[i], parts, alerts, p, i)
  }

  /** Components are independent: whatever order they come in, each is treated as if it
      were alone, and each incident is extended at most once. */
  lemma {:induction false} ComponentsIndependent(states: seq<State>, parts: seq<set<string>>, alerts: seq<Alert>,
                                                 settings: Settings)
    requires Apart(parts)
    ensures var p := Process(states, parts, alerts, settings);
            EachAlone(states, parts, alerts, settings, p) && (Broken(p) || |p.outcomes| == |parts|)
  {
    if parts == [] {
    } else {
      var n := |parts| - 1;
      ComponentsIndependent(states, parts[..n], alerts, settings);
      var p := Process(states, parts[..n], alerts, settings);
      if Broken(p) {
        AloneMore(states, parts, alerts, settings, p);
      } else {
        AloneNext(states, parts, alerts, settings, p);
      }
    }
  }

  lemma AloneMore(states: seq<State>, parts: seq<set<string>>, alerts: seq<Alert>, settings: Settings, p: BatchState)
    requires parts != [] && EachAlone(states, parts[..|parts| - 1], alerts, settings, p)
    ensures EachAlone(states, parts, alerts, settings, p)
  {
    hide Assign, Merge, Fingerprints;
    var before := parts[..|parts| - 1];
    forall i: nat | i < |states| ensures FateOf(states[i], parts, alerts, p, i) {
      if k: nat :| ExtendedBy(states[i], before, alerts, p, i, k) {
        assert ExtendedBy(states[i], parts, alerts, p, i, k);
      }
    }
  }

  lemma AloneNext(states: seq<State>, parts: seq<set<string>>, alerts: seq<Alert>, settings: Settings, p: BatchState)
    requires parts != [] && Apart(parts) && EachAlone(states, parts[..|parts| - 1], alerts, settings, p)
    requires |p.outcomes| == |parts| - 1
    ensures EachAlone(states, parts, alerts, settings, Next(p, parts[|parts| - 1], alerts, settings))
  {
    hide FateOf, Apply, Merge, Assign, Accepts, Extends, Untouched, ExtendedBy;
    SameAssign(states, parts, alerts, settings, p);
    forall i: nat | i < |states|
      ensures FateOf(states[i], parts, alerts, Next(p, parts[|parts| - 1], alerts, settings), i)
    {
      FateNext(states, parts, alerts, settings, p, i);
    }
  }

  lemma FateNext(states: seq<State>, parts: seq<set<string>>, alerts: seq<Alert>, settings: Settings, p: BatchState,
                 i: nat)
    requires parts != [] && Apart(parts) && EachAlone(states, parts[..|parts| - 1], alerts, settings, p)
    requires |p.outcomes| == |parts| - 1 && i < |states|
    requires Assign(p.states, parts[|parts| - 1], alerts, settings) == Assign(states, parts[|parts| - 1], alerts, settings)
    ensures FateOf(states[i], parts, alerts, Next(p, parts[|parts| - 1], alerts, settings), i)
  {
    hide Assign, Accepts;
    var n, c := |parts| - 1, parts[|parts| - 1];
    var o, p' := Assign(states, c, alerts, settings), Next(p, c, alerts, settings);
    var before := parts[..n];
    assert FateOf(states[i], before, alerts, p, i);
    OneMoreOutcome(p, p', i);
    if o == Updated(i) {
      MatchesIfAccepts(states[i], c, alerts, settings);
      MatchHasAlert(states[i], c, alerts);
      SameAccepts(states, parts, alerts, settings, p, i);
      assert ExtendedBy(states[i], parts, alerts, p', i, n);
    } else {
      if k: nat :| ExtendedBy(states[i], before, alerts, p, i, k) {
        assert ExtendedBy(states[i], parts, alerts, p', i, k);
      } else {
        assert Untouched(states[i], p', i);
      }
    }
  }

  lemma MatchesIfAccepts(s: State, component: set<string>, alerts: seq<Alert>, settings: Settings)
    requires Accepts(s, component, alerts, settings)
    ensures Matches(s, component, Fingerprints(alerts))
  {}

  lemma OneMoreOutcome(p: BatchState, p': BatchState, i: nat)
    requires |p'.outcomes| == |p.outcomes| + 1 && p'.outcomes[..|p.outcomes|] == p.outcomes
    ensures forall k: nat :: Extends(p', k, i) <==>
              Extends(p, k, i) || (k == |p.outcomes| && p'.outcomes[|p.outcomes|] == Updated(i))
  {
    forall k: nat
      ensures Extends(p', k, i) <==> Extends(p, k, i) || (k == |p.outcomes| && p'.outcomes[|p.outcomes|] == Updated(i))
    {
      if k < |p.outcomes| {
        assert p'.outcomes[k] == p'.outcomes[..|p.outcomes|][k];
      }
    }
  }

  lemma SameAssign(states: seq<State>, parts: seq<set<string>>, alerts: seq<Alert>, settings: Settings, p: BatchState)
    requires parts != [] && Apart(parts) && EachAlone(states, parts[..|parts| - 1], alerts, settings, p)
    ensures Assign(p.states, parts[|parts| - 1], alerts, settings) == Assign(states, parts[|parts| - 1], alerts, settings)
  {
    hide Accepts, FateOf, Outcomes;
    forall i: nat | i < |states|
      ensures Accepts(p.states[i], parts[|parts| - 1], alerts, settings)
           == Accepts(states[i], parts[|parts| - 1], alerts, settings)
    {
      SameAccepts(states, parts, alerts, settings, p, i);
    }
  }

  /** An incident that an earlier component extended fits no later one, before or after. */
  lemma SameAccepts(states: seq<State>, parts: seq<set<string>>, alerts: seq<Alert>, settings: Settings, p: BatchState,
                    i: nat)
    requires parts != [] && Apart(parts) && EachAlone(states, parts[..|parts| - 1], alerts, settings, p) && i < |states|
    ensures Accepts(p.states[i], parts[|parts| - 1], alerts, settings) == Accepts(states[i], parts[|parts| - 1], alerts, settings)
    ensures Accepts(states[i], parts[|parts| - 1], alerts, settings) ==> Untouched(states[i], p, i)
  {
    var before := parts[..|parts| - 1];
    assert FateOf(states[i], before, alerts, p, i);
    if k: nat :| ExtendedBy(states[i], before, alerts, p, i, k) {
      var c := parts[|parts| - 1];
      assert parts[k] !! c;
      assert states[i].alerts[0] in states[i].alerts;
      assert states[i].alerts[0].fingerprint in Fingerprints(states[i].alerts);
      assert states[i].alerts[0] in p.states[i].alerts;
      assert states[i].alerts[0].fingerprint in Fingerprints(p.states[i].alerts);
    }
  }

  /** The batch breaks off if and only if it has such a component. */
  lemma BatchFailsIff(states: seq<State>, parts: seq<set<string>>, alerts: seq<Alert>, settings: Settings)
    requires Apart(parts)
    ensures Broken(Process(states, parts, alerts, settings)) <==> exists c :: c in parts && Breaking(c, alerts, settings)
  {
    hide *;
    var p := Process(states, parts, alerts, settings);
    ComponentsIndependent(states, parts, alerts, settings);
    if Broken(p) {
      var k := BreaksAt(states, parts, alerts, settings, p);
      AssignFailsIff(states, parts[k], alerts, settings);
      assert parts[k] in parts;
    }
    if c :| c in parts && Breaking(c, alerts, settings) {
      AssignFailsIff(states, c, alerts, settings);
      var k :| 0 <= k < |parts| && parts[k] == c;
      if !Broken(p) {
        NoFailure(states, parts, alerts, settings, k);
      }
    }
  }

  lemma BreaksAt(states: seq<State>, parts: seq<set<string>>, alerts: seq<Alert>, settings: Settings,
                 p: BatchState) returns (k: nat)
    requires Broken(p) && EachAlone(states, parts, alerts, settings, p)
    ensures k < |parts| && Assign(states, parts[k], alerts, settings).Failed?
  {
    k := |p.outcomes| - 1;
  }

  /** Only the last outcome can be a failure. */
  lemma {:induction false} NoFailure(states: seq<State>, parts: seq<set<string>>, alerts: seq<Alert>,
                                     settings: Settings, k: nat)
    requires Apart(parts) && !Broken(Process(states, parts, alerts, settings)) && k < |parts|
    ensures !Assign(states, parts[k], alerts, settings).Failed?
  {
    hide *;
    var n := |parts| - 1;
    if k < n {
      FrontNotBroken(states, parts, alerts, settings);
      NoFailure(states, parts[..n], alerts, settings, k);
      assert parts[..n][k] == parts[k];
    } else {
      ComponentsIndependent(states, parts, alerts, settings);
      LastNotFailed(states, parts, alerts, settings, Process(states, parts, alerts, settings));
    }
  }

  lemma FrontNotBroken(states: seq<State>, parts: seq<set<string>>, alerts: seq<Alert>, settings: Settings)
    requires Apart(parts) && parts != [] && !Broken(Process(states, parts, alerts, settings))
    ensures Apart(parts[..|parts| - 1]) && !Broken(Process(states, parts[..|parts| - 1], alerts, settings))
  {
    hide Next, Broken;
  }

  lemma LastNotFailed(states: seq<State>, parts: seq<set<string>>, alerts: seq<Alert>, settings: Settings,
                      p: BatchState)
    requires parts != [] && EachAlone(states, parts, alerts, settings, p) && !Broken(p) && |p.outcomes| == |parts|
    ensures !Assign(states, parts[|parts| - 1], alerts, settings).Failed?
  {
    hide Assign, FateOf;
  }

  // ---- What a batch gives to whom ----

  /** Component `k` puts alert `a` into an incident, old or new. */
  ghost predicate PutInto(states: seq<State>, p: BatchState, k: nat, a: Alert)
    requires k < |p.outcomes| && |p.states| == |states|
  {
    match p.outcomes[k]
    case Updated(i) => i < |states| && a in p.states[i].alerts && a !in states[i].alerts
    case Created(s) => a in s.alerts
    case _ => false
  }

  /** What a component puts into an incident are alerts of the batch inside the component. */
  lemma PutStaysInside(states: seq<State>, parts: seq<set<string>>, alerts: seq<Alert>, settings: Settings, k: nat,
                       a: Alert)
    requires Apart(parts)
    requires var p := Process(states, parts, alerts, settings); k < |p.outcomes| && PutInto(states, p, k, a)
    ensures a in alerts && a.fingerprint in parts[k]
  {
    hide Accepts;
    ComponentsIndependent(states, parts, alerts, settings);
    var p := Process(states, parts, alerts, settings);
    if p.outcomes[k].Updated? {
      var i := p.outcomes[k].index;
      assert Extends(p, k, i) && FateOf(states[i], parts, alerts, p, i);
    }
  }

  /** Each alert of the batch goes into at most one incident. */
  lemma AlertPutOnce(states: seq<State>, parts: seq<set<string>>, alerts: seq<Alert>, settings: Settings, k: nat,
                     l: nat, a: Alert)
    requires Apart(parts)
    requires var p := Process(states, parts, alerts, settings); k < |p.outcomes| && PutInto(states, p, k, a)
    requires var p := Process(states, parts, alerts, settings); l < |p.outcomes| && PutInto(states, p, l, a)
    ensures k == l
  {
    PutStaysInside(states, parts, alerts, settings, k, a);
    PutStaysInside(states, parts, alerts, settings, l, a);
  }

  /** An extended incident stays inside its component, and holds all of the component's
      alerts of the batch. */
  lemma ExtendedIsComponent(states: seq<State>, parts: seq<set<string>>, alerts: seq<Alert>, settings: Settings,
                            k: nat, i: nat)
    requires Apart(parts) && Extends(Process(states, parts, alerts, settings), k, i)
    ensures var p := Process(states, parts, alerts, settings);
            && k < |parts| && i < |states|
            && Fingerprints(p.states[i].alerts) <= parts[k]
            && Ids(InComponent(alerts, parts[k])) <= Ids(p.states[i].alerts)
            && (forall j: nat :: Extends(p, j, i) ==> j == k)
  {
    hide Accepts;
    ComponentsIndependent(states, parts, alerts, settings);
    var p := Process(states, parts, alerts, settings);
    assert FateOf(states[i], parts, alerts, p, i);
    assert ExtendedBy(states[i], parts, alerts, p, i, k);
    MergeHasAll(states[i], parts[k], alerts);
  }

  lemma MergeHasAll(s: State, component: set<string>, alerts: seq<Alert>)
    requires s.alerts != [] && Fingerprints(s.alerts) <= component
    ensures Fingerprints(Merge(s, component, alerts).alerts) <= component
    ensures Ids(InComponent(alerts, component)) <= Ids(Merge(s, component, alerts).alerts)
  {
    var all := Merge(s, component, alerts).alerts;
    forall a | a in all ensures a.fingerprint in component {
      assert a in s.alerts ==> a.fingerprint in Fingerprints(s.alerts);
    }
    forall a | a in InComponent(alerts, component) ensures a.id in Ids(all) {
      if a.id in Ids(s.alerts) {
        var b :| b in s.alerts && b.id == a.id;
        assert b in all;
      } else {
        assert a in all;
      }
    }
  }

  /** The order in which the components come makes no difference: the same incidents come
      out, and the same ones are created. */
  lemma OrderMakesNoDifference(states: seq<State>, parts: seq<set<string>>, parts': seq<set<string>>,
                               alerts: seq<Alert>, settings: Settings)
    requires Apart(parts) && Apart(parts') && (forall c :: c in parts <==> c in parts')
    requires !Broken(Process(states, parts, alerts, settings))
    ensures var p, p' := Process(states, parts, alerts, settings), Process(states, parts', alerts, settings);
            && !Broken(p') && p'.states == p.states
            && forall s :: Created(s) in p'.outcomes <==> Created(s) in p.outcomes
  {
    hide *;
    var p, p' := Process(states, parts, alerts, settings), Process(states, parts', alerts, settings);
    ComponentsIndependent(states, parts, alerts, settings);
    ComponentsIndependent(states, parts', alerts, settings);
    BatchFailsIff(states, parts, alerts, settings);
    BatchFailsIff(states, parts', alerts, settings);
    forall i: nat | i < |states| ensures p'.states[i] == p.states[i] {
      SameFate(states, parts, parts', alerts, settings, p, p', i);
    }
    forall s ensures Created(s) in p'.outcomes <==> Created(s) in p.outcomes {
      if Created(s) in p'.outcomes {
        SameOutcome(states, parts', parts, alerts, settings, p', p, Created(s));
      }
      if Created(s) in p.outcomes {
        SameOutcome(states, parts, parts', alerts, settings, p, p', Created(s));
      }
    }
  }

  lemma SameOutcome(states: seq<State>, parts: seq<set<string>>, parts': seq<set<string>>, alerts: seq<Alert>,
                    settings: Settings,
                    p: BatchState, p': BatchState, o: Outcome)
    requires EachAlone(states, parts, alerts, settings, p) && EachAlone(states, parts', alerts, settings, p')
    requires |p'.outcomes| == |parts'| && (forall c :: c in parts ==> c in parts') && o in p.outcomes
    ensures o in p'.outcomes
  {
    hide Assign, FateOf;
    var k :| 0 <= k < |p.outcomes| && p.outcomes[k] == o;
    assert parts[k] in parts;
    var l :| 0 <= l < |parts'| && parts'[l] == parts[k];
    assert p'.outcomes[l] == o;
  }

  lemma SameFate(states: seq<State>, parts: seq<set<string>>, parts': seq<set<string>>, alerts: seq<Alert>,
                 settings: Settings,
                 p: BatchState, p': BatchState, i: nat)
    requires EachAlone(states, parts, alerts, settings, p) && EachAlone(states, parts', alerts, settings, p')
    requires |p.outcomes| == |parts| && |p'.outcomes| == |parts'| && (forall c :: c in parts <==> c in parts') && i < |states|
    ensures p'.states[i] == p.states[i]
  {
    hide Assign, Merge, ExtendedBy;
    assert FateOf(states[i], parts, alerts, p, i);
    assert FateOf(states[i], parts', alerts, p', i);
    if k: nat :| ExtendedBy(states[i], parts, alerts, p, i, k) {
      ExtendedAlso(states, parts, parts', alerts, settings, p, p', i, k);
    } else if k: nat :| ExtendedBy(states[i], parts', alerts, p', i, k) {
      ExtendedAlso(states, parts', parts, alerts, settings, p', p, i, k);
    }
  }

  lemma ExtendedAlso(states: seq<State>, parts: seq<set<string>>, parts': seq<set<string>>, alerts: seq<Alert>,
                     settings: Settings,
                     p: BatchState, p': BatchState, i: nat, k: nat)
    requires EachAlone(states, parts, alerts, settings, p) && EachAlone(states, parts', alerts, settings, p')
    requires |p'.outcomes| == |parts'| && (forall c :: c in parts ==> c in parts')
    requires i < |states| && ExtendedBy(states[i], parts, alerts, p, i, k)
    ensures p'.states[i] == p.states[i]
  {
    hide Assign, Merge;
    assert parts[k] in parts;
    var l :| 0 <= l < |parts'| && parts'[l] == parts[k];
    assert p'.outcomes[l] == p.outcomes[k];
    assert Extends(p', l, i);
    assert FateOf(states[i], parts', alerts, p', i);
  }
}
