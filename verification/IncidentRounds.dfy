// A whole mining run over its batches, on values
// (ee/experimental/incident_utils.py, mine_incidents_and_create_objects and process_alert_batch).
module IncidentRounds {
  import opened IncidentModel

  /** One batch: the bounds between which an incident takes part, the alerts, and the
      components of their graph in the order they came. */
  datatype Round = Round(lower: real, upper: real, alerts: seq<Alert>, parts: seq<set<string>>)

  /** The fingerprints the graph is built over. Each incident's turn replaces what the one
      before it added, so only the last incident's fingerprints join those of the batch. */
  function Amended(states: seq<State>, batch: set<string>): set<string> {
    if states == [] then batch else Fingerprints(states[|states| - 1].alerts) + batch
  }

  // ---- A run ----

  ghost predicate Positions(picked: seq<nat>, n: nat) {
    (forall k, l :: 0 <= k < l < |picked| ==> picked[k] < picked[l]) && forall k :: 0 <= k < |picked| ==> picked[k] < n
  }

  /** The positions of the incidents last seen strictly between the bounds, in order. */
  function Picked(states: seq<State>, lower: real, upper: real): (r: seq<nat>)
    ensures Positions(r, |states|)
    ensures forall i :: i in r <==> 0 <= i < |states| && lower < states[i].lastSeen < upper
  {
    if states == [] then []
    else
      var n := |states| - 1;
      var r := Picked(states[..n], lower, upper);
      if lower < states[n].lastSeen < upper then r + [n] else r
  }

  function Pick(states: seq<State>, picked: seq<nat>): seq<State>
    requires Positions(picked, |states|)
  {
    seq(|picked|, k requires 0 <= k < |picked| => states[picked[k]])
  }

  function WriteBack(states: seq<State>, picked: seq<nat>, updated: seq<State>): (r: seq<State>)
    requires Positions(picked, |states|) && |picked| == |updated|
    ensures |r| == |states|
    ensures forall k :: 0 <= k < |picked| ==> r[picked[k]] == updated[k]
    ensures forall i :: 0 <= i < |states| && i !in picked ==> r[i] == states[i]
  {
    if picked == [] then states
    else
      var n := |picked| - 1;
      WriteBack(states, picked[..n], updated[..n])[picked[n] := updated[n]]
  }

  function CreatedOf(outcomes: seq<Outcome>): (r: seq<State>)
    ensures forall s :: s in r <==> Created(s) in outcomes
  {
    if outcomes == [] then []
    else
      var n := |outcomes| - 1;
      CreatedOf(outcomes[..n]) + if outcomes[n].Created? then [outcomes[n].state] else []
  }

  datatype Mined = Mined(states: seq<State>, broken: bool)

  /** An empty batch is skipped. Incidents a broken batch created are not kept. */
  function AfterRound(states: seq<State>, r: Round, settings: Settings): Mined {
    if r.alerts == [] then Mined(states, false)
    else
      var picked := Picked(states, r.lower, r.upper);
      var p := Process(Pick(states, picked), r.parts, r.alerts, settings);
      var kept := WriteBack(states, picked, p.states);
      if Broken(p) then Mined(kept, true) else Mined(kept + CreatedOf(p.outcomes), false)
  }

  /** The first broken batch ends the run. */
  function AfterRounds(states: seq<State>, rounds: seq<Round>, settings: Settings): Mined {
    if rounds == [] then Mined(states, false)
    else
      var m := AfterRounds(states, rounds[..|rounds| - 1], settings);
      if m.broken then m else AfterRound(m.states, rounds[|rounds| - 1], settings)
  }

  // ---- What every run keeps ----

  ghost predicate DistinctIds(alerts: seq<Alert>) {
    forall i, j :: 0 <= i < j < |alerts| ==> alerts[i].id != alerts[j].id
  }

  /** No alert is in the incident twice, and it was last seen at its latest alert. */
  ghost predicate Sound(s: State) {
    DistinctIds(s.alerts) && (s.alerts != [] ==> s.lastSeen == Latest(s.alerts))
  }

  /** An incident only gains alerts; a sound one stays sound and its time never goes back. */
  ghost predicate Grown(s: State, t: State) {
    s.alerts <= t.alerts && (Sound(s) ==> Sound(t) && s.lastSeen <= t.lastSeen)
  }

  lemma {:induction false} UnseenDistinct(alerts: seq<Alert>, component: set<string>, known: set<int>)
    requires DistinctIds(alerts)
    ensures DistinctIds(Unseen(alerts, component, known))
  {
    if alerts == [] {
    } else {
      var rest := Unseen(alerts[1..], component, known);
      UnseenDistinct(alerts[1..], component, known);
      forall a | a in rest ensures a.id != alerts[0].id {
        var i :| 0 <= i < |alerts[1..]| && alerts[1..][i] == a;
        assert alerts[i + 1] == a;
      }
    }
  }

  lemma MergeGrows(s: State, component: set<string>, alerts: seq<Alert>)
    requires s.alerts != [] && DistinctIds(alerts)
    ensures Grown(s, Merge(s, component, alerts))
  {
    var added := Unseen(alerts, component, Ids(s.alerts));
    UnseenDistinct(alerts, component, Ids(s.alerts));
    hide Unseen, Ids, Latest, DistinctIds;
    assert s.alerts <= s.alerts + added;
    if Sound(s) {
      DistinctJoin(s.alerts, added);
      LatestGrows(s.alerts, added);
    }
  }

  lemma DistinctJoin(a: seq<Alert>, b: seq<Alert>)
    requires DistinctIds(a) && DistinctIds(b) && forall x :: x in b ==> x.id !in Ids(a)
    ensures DistinctIds(a + b)
  {
    assert forall k :: 0 <= k < |a| ==> a[k] in a && a[k].id in Ids(a);
    hide Ids;
    forall i, j | 0 <= i < j < |a + b| ensures (a + b)[i].id != (a + b)[j].id {
      if i < |a| && |a| <= j {
        assert b[j - |a|] in b;
      }
    }
  }

  lemma LatestGrows(a: seq<Alert>, b: seq<Alert>)
    requires a != []
    ensures Latest(a) <= Latest(a + b)
  {
    var k :| 0 <= k < |a| && a[k].time == Latest(a);
    assert a[k] in a + b;
  }

  lemma BatchGrows(states: seq<State>, parts: seq<set<string>>, alerts: seq<Alert>, settings: Settings)
    requires Apart(parts) && DistinctIds(alerts)
    ensures var p := Process(states, parts, alerts, settings);
            && (forall i :: 0 <= i < |states| ==> Grown(states[i], p.states[i]))
            && forall s :: Created(s) in p.outcomes ==> Sound(s)
  {
    hide Grown, Sound, Assign, Merge;
    ComponentsIndependent(states, parts, alerts, settings);
    var p := Process(states, parts, alerts, settings);
    forall i: nat | i < |states| ensures Grown(states[i], p.states[i]) {
      assert FateOf(states[i], parts, alerts, p, i);
      if k: nat :| ExtendedBy(states[i], parts, alerts, p, i, k) {
        MergeGrows(states[i], parts[k], alerts);
      } else {
        GrownSelf(states[i]);
      }
    }
    forall s | Created(s) in p.outcomes ensures Sound(s) {
      var k :| 0 <= k < |p.outcomes| && p.outcomes[k] == Created(s);
      CreatedSound(states, parts[k], alerts, settings, s);
    }
  }

  lemma GrownSelf(s: State)
    ensures Grown(s, s)
  {}

  lemma CreatedSound(states: seq<State>, component: set<string>, alerts: seq<Alert>, settings: Settings, s: State)
    requires DistinctIds(alerts) && Assign(states, component, alerts, settings) == Created(s)
    ensures Sound(s)
  {
    UnseenDistinct(alerts, component, {});
  }

  /** The incidents there were have grown, and the new ones are sound. */
  ghost predicate AllGrown(before: seq<State>, after: seq<State>) {
    && |before| <= |after| && (forall i :: 0 <= i < |before| ==> Grown(before[i], after[i]))
    && forall i :: |before| <= i < |after| ==> Sound(after[i])
  }

  lemma RoundGrows(states: seq<State>, r: Round, settings: Settings)
    requires Apart(r.parts) && DistinctIds(r.alerts)
    ensures AllGrown(states, AfterRound(states, r, settings).states)
  {
    hide Grown, Sound, Process, DistinctIds;
    var picked := Picked(states, r.lower, r.upper);
    var p := Process(Pick(states, picked), r.parts, r.alerts, settings);
    BatchGrows(Pick(states, picked), r.parts, r.alerts, settings);
    var kept := WriteBack(states, picked, p.states);
    forall i | 0 <= i < |states| ensures Grown(states[i], kept[i]) && Grown(states[i], states[i]) {
      GrownSelf(states[i]);
      if i in picked {
        var k :| 0 <= k < |picked| && picked[k] == i;
        assert Pick(states, picked)[k] == states[i] && kept[picked[k]] == p.states[k];
      }
    }
  }

  /** Over all batches of a run, overlapping windows and repeated alerts included, no
      incident loses an alert or has one twice, each was last seen at its latest alert,
      and that time never goes back. */
  lemma {:induction false} RoundsGrow(states: seq<State>, rounds: seq<Round>, settings: Settings)
    requires forall r :: r in rounds ==> Apart(r.parts) && DistinctIds(r.alerts)
    ensures AllGrown(states, AfterRounds(states, rounds, settings).states)
  {
    if rounds == [] {
      forall s ensures Grown(s, s) { GrownSelf(s); }
    } else {
      var n := |rounds| - 1;
      RoundsGrow(states, rounds[..n], settings);
      var m := AfterRounds(states, rounds[..n], settings);
      if !m.broken {
        RoundGrows(m.states, rounds[n], settings);
        GrownOn(states, m.states, AfterRound(m.states, rounds[n], settings).states);
      }
    }
  }

  lemma GrownOn(a: seq<State>, b: seq<State>, c: seq<State>)
    requires AllGrown(a, b) && AllGrown(b, c)
    ensures AllGrown(a, c)
  {
    hide Sound;
    forall i | 0 <= i < |a| ensures Grown(a[i], c[i]) {
      assert Grown(a[i], b[i]) && Grown(b[i], c[i]);
    }
    forall i | |a| <= i < |c| ensures Sound(c[i]) {
      if i < |b| {
        assert Grown(b[i], c[i]);
      }
    }
  }
}
