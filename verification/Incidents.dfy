// Correlation as the program runs it: incidents are objects that batches update in place
// (ee/experimental/incident_utils.py).
module Incidents {
  import opened Wrappers
  import opened AlertGraph
  import opened IncidentModel
  import opened IncidentRounds

  class Incident {
    var alerts: seq<Alert>
    var lastSeen: real

    constructor (alerts: seq<Alert>, lastSeen: real)
      ensures Now() == State(alerts, lastSeen)
    {
      this.alerts, this.lastSeen := alerts, lastSeen;
    }

    ghost function Now(): State
      reads this
    {
      State(alerts, lastSeen)
    }
  }

  ghost function Snapshot(incidents: seq<Incident>): (s: seq<State>)
    reads incidents
    ensures |s| == |incidents| && forall k :: 0 <= k < |s| ==> s[k] == incidents[k].Now()
  {
    seq(|incidents|, k requires 0 <= k < |incidents| reads incidents => incidents[k].Now())
  }

  ghost predicate Different(incidents: seq<Incident>) {
    forall i, j :: 0 <= i < j < |incidents| ==> incidents[i] != incidents[j]
  }

  /** `update_existing_incident_inmem` */
  method UpdateExistingIncident(incident: Incident, alerts: seq<Alert>)
    requires incident.alerts + alerts != []
    modifies incident
    ensures incident.alerts == old(incident.alerts) + alerts && incident.lastSeen == Latest(incident.alerts)
  {
    incident.alerts := incident.alerts + alerts;
    incident.lastSeen := Latest(incident.alerts);
  }

  /** `create_new_incident_inmem`; None stands for the minimum of no alerts. */
  method CreateNewIncident(component: set<string>, alerts: seq<Alert>) returns (incident: Option<Incident>)
    ensures incident.None? <==> InComponent(alerts, component) == []
    ensures incident.Some? ==> fresh(incident.value) && incident.value.Now() == NewIncident(component, alerts)
  {
    var own := InComponent(alerts, component);
    if own == [] {
      return None;
    }
    var i := new Incident(own, Latest(own));
    incident := Some(i);
  }

  /** `process_graph_component`: the incident, whether it was there before, and whether
      taking a minimum failed. */
  method ProcessGraphComponent(component: set<string>, incidents: seq<Incident>, alerts: seq<Alert>, settings: Settings)
    returns (incident: Option<Incident>, updated: bool, failed: bool)
    requires Different(incidents)
    modifies incidents
    ensures var before := old(Snapshot(incidents));
            match Assign(before, component, alerts, settings)
            case Updated(i) =>
              && incident == Some(incidents[i]) && updated && !failed && before[i].alerts != []
              && Snapshot(incidents) == before[i := Merge(before[i], component, alerts)]
            case Created(s) =>
              && incident.Some? && fresh(incident.value) && incident.value.Now() == s && !updated && !failed
              && Snapshot(incidents) == before
            case Dropped => incident.None? && !updated && !failed && Snapshot(incidents) == before
            case Failed => incident.None? && failed && Snapshot(incidents) == before
  {
    hide Unseen, Earliest, Latest, Ids, Fingerprints, InComponent;
    ghost var before := Snapshot(incidents);
    var batch := Fingerprints(alerts);
    for i := 0 to |incidents|
      invariant Snapshot(incidents) == before
      invariant FirstAccepting(before, component, alerts, settings, 0) == FirstAccepting(before, component, alerts, settings, i)
    {
      assert before[i] == incidents[i].Now();
      var own := Fingerprints(incidents[i].alerts);
      if own <= component {
        if own * batch != {} {
          MatchHasAlert(before[i], component, alerts);
          var amendment := Earliest(InComponent(alerts, component));
          if amendment - incidents[i].lastSeen < settings.validity {
            UpdateExistingIncident(incidents[i], Unseen(alerts, component, Ids(incidents[i].alerts)));
            return Some(incidents[i]), true, false;
          }
        }
      }
    }
    if |component| >= settings.minSize {
      incident := CreateNewIncident(component, alerts);
      return incident, false, incident.None?;
    }
    return None, false, false;
  }

  // ---- One batch ----

  ghost predicate Lists(order: seq<string>, names: set<string>) {
    AlertGraph.Distinct(order) && Members(order) == names
  }

  ghost predicate ListsComponents(parts: seq<set<string>>, g: Graph) {
    && (forall c :: c in parts <==> c in Components(g))
    && forall k, l :: 0 <= k < l < |parts| ==> parts[k] != parts[l]
  }

  /** The choices the program leaves to its libraries, call by call: how a set of
      fingerprints is turned into a list, and how networkx orders components. */
  datatype Library = Library(list: (nat, set<string>) -> seq<string>, split: (nat, Graph) -> seq<set<string>>) {
    ghost predicate Valid() {
      && (forall turn, names :: Lists(list(turn, names), names))
      && forall turn, g :: Closed(g) ==> ListsComponents(split(turn, g), g)
    }
  }

  /** `parts` are the components of the correlation graph over `names`. */
  ghost predicate ComponentsOver(scores: Scores, threshold: real, names: set<string>, parts: seq<set<string>>)
    requires scores.Valid()
  {
    exists order, g :: Lists(order, names) && IsGraphOf(scores, threshold, order, g) && ListsComponents(parts, g)
  }

  lemma ComponentsApart(scores: Scores, threshold: real, names: set<string>, parts: seq<set<string>>)
    requires scores.Valid() && ComponentsOver(scores, threshold, names, parts)
    ensures Apart(parts) && forall k :: 0 <= k < |parts| ==> parts[k] <= names
  {
    var order, g :| Lists(order, names) && IsGraphOf(scores, threshold, order, g) && ListsComponents(parts, g);
    GraphInside(scores, threshold, order, g);
    hide Closed, Component, IsGraphOf, Components;
    forall k, l | 0 <= k < l < |parts| ensures parts[k] !! parts[l] {
      assert parts[k] in parts && parts[l] in parts;
      if x :| x in parts[k] && x in parts[l] {
        ComponentsDisjoint(g, parts[k], parts[l], x);
      }
    }
    forall k | 0 <= k < |parts| ensures parts[k] <= names {
      assert parts[k] in parts;
      ComponentInside(g, parts[k]);
    }
  }

  lemma ComponentInside(g: Graph, c: set<string>)
    requires c in Components(g)
    ensures c <= g.nodes
  {}

  lemma GraphInside(scores: Scores, threshold: real, order: seq<string>, g: Graph)
    requires scores.Valid() && IsGraphOf(scores, threshold, order, g)
    ensures Closed(g) && g.nodes <= Members(order)
  {
    if |order| != 1 {
      forall a | a in g.nodes ensures a in order {
        assert HasEdge(g, a);
        var b :| (a, b) in g.edges;
        assert IsJoined(scores, threshold, order, (a, b));
      }
    }
  }

  function UpdatedOf(outcomes: seq<Outcome>): (r: seq<nat>)
    ensures forall i :: i in r <==> Updated(i) in outcomes
  {
    if outcomes == [] then []
    else
      var n := |outcomes| - 1;
      UpdatedOf(outcomes[..n]) + if outcomes[n].Updated? then [outcomes[n].index] else []
  }

  ghost predicate At(incidents: seq<Incident>, positions: seq<nat>, r: seq<Incident>) {
    |r| == |positions| && forall k :: 0 <= k < |r| ==> positions[k] < |incidents| && r[k] == incidents[positions[k]]
  }

  lemma OneMore(outcomes: seq<Outcome>, o: Outcome)
    ensures CreatedOf(outcomes + [o]) == if o.Created? then CreatedOf(outcomes) + [o.state] else CreatedOf(outcomes)
    ensures UpdatedOf(outcomes + [o]) == if o.Updated? then UpdatedOf(outcomes) + [o.index] else UpdatedOf(outcomes)
    ensures Broken(BatchState([], outcomes + [o])) == o.Failed?
  {
    assert (outcomes + [o])[..|outcomes|] == outcomes;
  }

  lemma ProcessStep(states: seq<State>, parts: seq<set<string>>, alerts: seq<Alert>, settings: Settings, k: nat)
    requires k < |parts| && !Broken(Process(states, parts[..k], alerts, settings))
    ensures Process(states, parts[..k + 1], alerts, settings)
         == Next(Process(states, parts[..k], alerts, settings), parts[k], alerts, settings)
  {
    assert parts[..k + 1][..k] == parts[..k];
  }

  lemma {:induction false} ProcessStops(states: seq<State>, parts: seq<set<string>>, alerts: seq<Alert>,
                                        settings: Settings, k: nat)
    requires k <= |parts| && Broken(Process(states, parts[..k], alerts, settings))
    ensures Process(states, parts, alerts, settings) == Process(states, parts[..k], alerts, settings)
  {
    hide Next, Broken;
    if k == |parts| {
      assert parts[..k] == parts;
    } else {
      var n := |parts| - 1;
      assert parts[..n][..k] == parts[..k];
      ProcessStops(states, parts[..n], alerts, settings, k);
    }
  }

  lemma SnapshotMore(created: seq<Incident>, i: Incident)
    ensures Snapshot(created + [i]) == Snapshot(created) + [i.Now()]
  {}

  /** The fingerprints the graph is built over: a loop that keeps only its last turn. */
  method AmendedFingerprints(incidents: seq<Incident>, batch: set<string>) returns (amended: set<string>)
    ensures amended == Amended(Snapshot(incidents), batch)
  {
    amended := batch;
    for k := 0 to |incidents|
      invariant amended == Amended(Snapshot(incidents)[..k], batch)
    {
      amended := Fingerprints(incidents[k].alerts) + batch;
    }
    assert Snapshot(incidents)[..|incidents|] == Snapshot(incidents);
  }

  /** The components of a batch, one after the other; an error ends it. */
  method ProcessComponents(components: seq<set<string>>, incidents: seq<Incident>, alerts: seq<Alert>,
                           settings: Settings)
    returns (created: seq<Incident>, updated: seq<Incident>, failed: bool)
    requires Different(incidents)
    modifies incidents
    ensures var p := Process(old(Snapshot(incidents)), components, alerts, settings);
            && Snapshot(incidents) == p.states && failed == Broken(p)
            && (!failed ==> Snapshot(created) == CreatedOf(p.outcomes) && At(incidents, UpdatedOf(p.outcomes), updated))
    ensures Different(created) && forall k :: 0 <= k < |created| ==> fresh(created[k])
  {
    ghost var before := Snapshot(incidents);
    hide Process, CreatedOf, UpdatedOf, Assign, Merge, Snapshot, At;
    created, updated, failed := [], [], false;
    ghost var p := BatchState(before, []);
    Nothing(before, components, alerts, settings);
    NoneAt(incidents);
    for k := 0 to |components|
      invariant p == Process(before, components[..k], alerts, settings) && !Broken(p)
      invariant Snapshot(incidents) == p.states
      invariant Snapshot(created) == CreatedOf(p.outcomes) && At(incidents, UpdatedOf(p.outcomes), updated)
      invariant Different(created) && forall j :: 0 <= j < |created| ==> fresh(created[j]) && created[j] !in incidents
    {
      ghost var o, q, made := Assign(p.states, components[k], alerts, settings), p.outcomes, Snapshot(created);
      OneMore(p.outcomes, o);
      ProcessStep(before, components, alerts, settings, k);
      var incident, wasThere, raised := ProcessGraphComponent(components[k], incidents, alerts, settings);
      p := Next(p, components[k], alerts, settings);
      forall j | 0 <= j < |created| ensures Snapshot(created)[j] == made[j] {
        assert created[j].Now() == made[j];
      }
      if raised {
        ProcessStops(before, components, alerts, settings, k + 1);
        return [], [], true;
      }
      if incident.Some? {
        if wasThere {
          AtMore(incidents, UpdatedOf(q), updated, o.index);
          updated := updated + [incident.value];
        } else {
          SnapshotMore(created, incident.value);
          created := created + [incident.value];
        }
      }
    }
    assert components[..|components|] == components;
  }

  lemma Nothing(states: seq<State>, parts: seq<set<string>>, alerts: seq<Alert>, settings: Settings)
    ensures Process(states, parts[..0], alerts, settings) == BatchState(states, [])
    ensures CreatedOf([]) == [] && UpdatedOf([]) == []
  {}

  lemma NoneAt(incidents: seq<Incident>)
    ensures At(incidents, [], [])
  {}

  lemma AtMore(incidents: seq<Incident>, positions: seq<nat>, r: seq<Incident>, i: nat)
    requires i < |incidents|
    ensures At(incidents, positions, r) ==> At(incidents, positions + [i], r + [incidents[i]])
  {}

  /** `process_alert_batch`: the incidents it created and the ones it extended. */
  method ProcessAlertBatch(incidents: seq<Incident>, alerts: seq<Alert>, settings: Settings,
                           scores: Scores, threshold: real, library: Library, turn: nat)
    returns (created: seq<Incident>, updated: seq<Incident>, failed: bool, ghost parts: seq<set<string>>)
    requires Different(incidents) && scores.Valid() && library.Valid()
    modifies incidents
    ensures ComponentsOver(scores, threshold, Amended(old(Snapshot(incidents)), Fingerprints(alerts)), parts)
    ensures var p := Process(old(Snapshot(incidents)), parts, alerts, settings);
            && Snapshot(incidents) == p.states && failed == Broken(p)
            && (!failed ==> Snapshot(created) == CreatedOf(p.outcomes) && At(incidents, UpdatedOf(p.outcomes), updated))
    ensures Different(created) && forall k :: 0 <= k < |created| ==> fresh(created[k])
  {
    var amended := AmendedFingerprints(incidents, Fingerprints(alerts));
    var order := library.list(turn, amended);
    var g := CreateGraph(scores, threshold, order);
    GraphInside(scores, threshold, order, g);
    var components := library.split(turn, g);
    parts := components;
    assert ComponentsOver(scores, threshold, amended, parts);
    hide *;
    created, updated, failed := ProcessComponents(components, incidents, alerts, settings);
  }
}
