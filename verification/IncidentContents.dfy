// Who gets which alerts, alert by alert: which incident takes a component, and what it or a
// new one then holds (ee/experimental/incident_utils.py, process_graph_component).
module IncidentContents {
  import opened IncidentModel
  import opened Selections

  /** The latest time of some alerts. */
  ghost predicate IsLatest(t: real, alerts: seq<Alert>) {
    (exists a :: a in alerts && a.time == t) && forall a :: a in alerts ==> a.time <= t
  }

  /** The incident lies inside the component, shares a fingerprint with the batch, and some
      alert of the component comes less than the validity after the incident was last seen. */
  ghost predicate Takes(s: State, component: set<string>, alerts: seq<Alert>, settings: Settings) {
    && (forall a :: a in s.alerts ==> a.fingerprint in component)
    && (exists a, b :: a in s.alerts && b in alerts && a.fingerprint == b.fingerprint)
    && (exists a :: a in alerts && a.fingerprint in component && a.time - s.lastSeen < settings.validity)
  }

  lemma AcceptsIff(s: State, component: set<string>, alerts: seq<Alert>, settings: Settings)
    ensures Accepts(s, component, alerts, settings) <==> Takes(s, component, alerts, settings)
  {
    InsideIff(s, component);
    SharesIff(s, alerts);
    if Matches(s, component, Fingerprints(alerts)) {
      MatchHasAlert(s, component, alerts);
      var own := InComponent(alerts, component);
      var k :| 0 <= k < |own| && own[k].time == Earliest(own);
      assert own[k] in own;
    }
    hide Fingerprints, Unseen, Earliest;
  }

  lemma InsideIff(s: State, component: set<string>)
    ensures Fingerprints(s.alerts) <= component <==> forall a :: a in s.alerts ==> a.fingerprint in component
  {
    assert forall a :: a in s.alerts ==> a.fingerprint in Fingerprints(s.alerts);
  }

  lemma SharesIff(s: State, alerts: seq<Alert>)
    ensures Fingerprints(s.alerts) * Fingerprints(alerts) != {}
       <==> exists a, b :: a in s.alerts && b in alerts && a.fingerprint == b.fingerprint
  {
    if a, b :| a in s.alerts && b in alerts && a.fingerprint == b.fingerprint {
      assert a.fingerprint in Fingerprints(s.alerts) * Fingerprints(alerts);
    }
    if f :| f in Fingerprints(s.alerts) * Fingerprints(alerts) {
      var a :| a in s.alerts && a.fingerprint == f;
      var b :| b in alerts && b.fingerprint == f;
    }
  }

  lemma {:induction false} UnseenIs(alerts: seq<Alert>, component: set<string>, known: set<int>, keep: Alert -> bool)
    requires forall a :: keep(a) <==> a.fingerprint in component && a.id !in known
    ensures Unseen(alerts, component, known) == Filter(alerts, keep)
  {
    if alerts != [] {
      UnseenIs(alerts[1..], component, known, keep);
    }
  }

  /** What becomes of a component: the first incident that takes it is extended; if none does
      it is dropped when it is too small, fails when it has no alert in the batch, and
      otherwise becomes an incident of exactly the batch's alerts inside it, each as often
      and in the order they stand there, last seen at the latest of them. */
  ghost predicate RightOutcome(states: seq<State>, component: set<string>, alerts: seq<Alert>, settings: Settings,
                               inside: Alert -> bool, o: Outcome)
  {
    match o
    case Updated(i) =>
      && i < |states| && Takes(states[i], component, alerts, settings)
      && forall j :: 0 <= j < i ==> !Takes(states[j], component, alerts, settings)
    case Dropped => NoneTakes(states, component, alerts, settings) && |component| < settings.minSize
    case Failed =>
      && NoneTakes(states, component, alerts, settings) && |component| >= settings.minSize
      && forall a :: a in alerts ==> a.fingerprint !in component
    case Created(s) =>
      && NoneTakes(states, component, alerts, settings) && |component| >= settings.minSize
      && (exists a :: a in alerts && a.fingerprint in component)
      && s.alerts == Filter(alerts, inside) && IsLatest(s.lastSeen, s.alerts)
  }

  ghost predicate NoneTakes(states: seq<State>, component: set<string>, alerts: seq<Alert>, settings: Settings) {
    forall j :: 0 <= j < |states| ==> !Takes(states[j], component, alerts, settings)
  }

  lemma AssignIsRight(states: seq<State>, component: set<string>, alerts: seq<Alert>, settings: Settings,
                      inside: Alert -> bool)
    requires forall a :: inside(a) <==> a.fingerprint in component
    ensures RightOutcome(states, component, alerts, settings, inside, Assign(states, component, alerts, settings))
  {
    forall s ensures Accepts(s, component, alerts, settings) <==> Takes(s, component, alerts, settings) {
      AcceptsIff(s, component, alerts, settings);
    }
    UnseenIs(alerts, component, {}, inside);
    var own := InComponent(alerts, component);
    if own != [] {
      assert own[0] in own;
      LatestIs(own);
    } else {
      assert forall a :: a in alerts && a.fingerprint in component ==> a in own;
    }
    hide Accepts, Takes, Unseen, Latest, IsLatest;
  }

  lemma LatestIs(alerts: seq<Alert>)
    requires alerts != []
    ensures IsLatest(Latest(alerts), alerts)
  {
    var k :| 0 <= k < |alerts| && alerts[k].time == Latest(alerts);
    assert alerts[k] in alerts;
  }

  /** An extended incident has what it had and behind it exactly the batch's alerts inside the
      component whose ids it does not have yet, and was last seen at the latest of all. */
  lemma MergeIs(s: State, component: set<string>, alerts: seq<Alert>, added: Alert -> bool)
    requires s.alerts != []
    requires forall a :: added(a) <==> a.fingerprint in component && forall b :: b in s.alerts ==> b.id != a.id
    ensures var m := Merge(s, component, alerts);
            m.alerts == s.alerts + Filter(alerts, added) && IsLatest(m.lastSeen, m.alerts)
  {
    assert forall a: Alert :: a.id in Ids(s.alerts) <==> exists b :: b in s.alerts && b.id == a.id;
    UnseenIs(alerts, component, Ids(s.alerts), added);
    LatestIs(s.alerts + Unseen(alerts, component, Ids(s.alerts)));
  }

  /** Every component of a batch that gets its turn has the right outcome, over the incidents
      as they were before the batch. */
  lemma OutcomesRight(states: seq<State>, parts: seq<set<string>>, alerts: seq<Alert>, settings: Settings, k: nat,
                      inside: Alert -> bool)
    requires Apart(parts) && k < |Process(states, parts, alerts, settings).outcomes|
    requires k < |parts| ==> forall a :: inside(a) <==> a.fingerprint in parts[k]
    ensures k < |parts|
    ensures RightOutcome(states, parts[k], alerts, settings, inside, Process(states, parts, alerts, settings).outcomes[k])
  {
    hide Assign, RightOutcome, Process;
    ComponentsIndependent(states, parts, alerts, settings);
    AssignIsRight(states, parts[k], alerts, settings, inside);
  }

  /** Every alert of a component that gets its turn and is neither dropped nor fails ends up in
      that component's incident, old or new, and is put into no other one. */
  lemma EveryAlertPlaced(states: seq<State>, parts: seq<set<string>>, alerts: seq<Alert>, settings: Settings, k: nat,
                         a: Alert)
    requires Apart(parts) && k < |Process(states, parts, alerts, settings).outcomes| && k < |parts|
    requires a in alerts && a.fingerprint in parts[k]
    ensures var p := Process(states, parts, alerts, settings);
            && (match p.outcomes[k]
                case Updated(i) => i < |p.states| && (exists b :: b in p.states[i].alerts && b.id == a.id)
                case Created(s) => multiset(s.alerts)[a] == multiset(alerts)[a]
                case Dropped => |parts[k]| < settings.minSize
                case Failed => false)
            && forall l: nat :: l < |p.outcomes| && l != k ==> !PutInto(states, p, l, a)
  {
    var p := Process(states, parts, alerts, settings);
    var inside := (b: Alert) => b.fingerprint in parts[k];
    OutcomesRight(states, parts, alerts, settings, k, inside);
    FilterCounts(alerts, inside, a);
    forall l: nat | l < |p.outcomes| && l != k ensures !PutInto(states, p, l, a) {
      if PutInto(states, p, l, a) {
        PutStaysInside(states, parts, alerts, settings, l, a);
      }
    }
    if p.outcomes[k].Updated? {
      assert Extends(p, k, p.outcomes[k].index);
      ExtendedIsComponent(states, parts, alerts, settings, k, p.outcomes[k].index);
      assert a.id in Ids(InComponent(alerts, parts[k]));
    }
    hide Process, Takes, NoneTakes;
  }
}
