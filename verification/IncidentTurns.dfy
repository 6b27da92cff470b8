// Which alerts and incidents a batch looks at, and what becomes of the others
// (ee/experimental/incident_utils.py, get_last_incidents_inmem and
// mine_incidents_and_create_objects).
module IncidentTurns {
  import opened IncidentModel
  import opened IncidentRounds
  import opened IncidentMining
  import opened MiningWindows
  import opened Selections

  /** The slice for a window is the alerts in it, its bounds included. */
  lemma SliceIs(alerts: seq<Alert>, w: Window, inside: Alert -> bool)
    requires Sorted(Times(alerts)) && w.start <= w.end
    requires forall a :: inside(a) <==> w.start <= a.time <= w.end
    ensures SliceOf(alerts, w) == Filter(alerts, inside)
  {
    var ts := Times(alerts);
    SliceIsWindow(ts, w);
    hide SearchLeft, SearchRight, Sorted;
    var from, to := SearchLeft(ts, w.start, 0, |ts|), SearchRight(ts, w.end, 0, |ts|);
    forall i | 0 <= i < |alerts| ensures inside(alerts[i]) <==> from <= i < to {
      assert ts[i] == alerts[i].time;
    }
    FilterRange(alerts, inside, from, to);
  }

  /** The incidents that take part are those last seen strictly between the bounds, in order. */
  lemma {:induction false} PickIs(states: seq<State>, lower: real, upper: real, between: State -> bool)
    requires forall s :: between(s) <==> lower < s.lastSeen < upper
    ensures Pick(states, Picked(states, lower, upper)) == Filter(states, between)
    ensures |Picked(states, lower, upper)| == |Filter(states, between)|
  {
    if states != [] {
      var n := |states| - 1;
      PickIs(states[..n], lower, upper, between);
      FilterLast(states, between);
      PickLast(states, lower, upper);
    }
  }

  lemma FilterLast(states: seq<State>, keep: State -> bool)
    requires states != []
    ensures var n := |states| - 1;
            Filter(states, keep) == Filter(states[..n], keep) + (if keep(states[n]) then [states[n]] else [])
  {
    var n := |states| - 1;
    assert states == states[..n] + [states[n]];
    FilterConcat(states[..n], [states[n]], keep);
    assert [states[n]][1..] == [];
  }

  lemma PickLast(states: seq<State>, lower: real, upper: real)
    requires states != []
    ensures var n := |states| - 1;
            Pick(states, Picked(states, lower, upper))
            == Pick(states[..n], Picked(states[..n], lower, upper))
               + (if lower < states[n].lastSeen < upper then [states[n]] else [])
  {}

  /** Where an incident that takes part stands among those that do. */
  lemma {:induction false} PickedRank(states: seq<State>, lower: real, upper: real, i: nat)
    requires i < |states| && lower < states[i].lastSeen < upper
    ensures var (rank, picked) := (|Picked(states[..i], lower, upper)|, Picked(states, lower, upper));
            rank < |picked| && picked[rank] == i
  {
    var n := |states| - 1;
    if i < n {
      PickedRank(states[..n], lower, upper, i);
      assert states[..n][..i] == states[..i];
    }
  }

  /** The incidents that were created, in the order of their components. */
  lemma {:induction false} CreatedOfIs(outcomes: seq<Outcome>, created: Outcome -> bool)
    requires forall o :: created(o) <==> o.Created?
    ensures |CreatedOf(outcomes)| == |Filter(outcomes, created)|
    ensures forall k :: 0 <= k < |CreatedOf(outcomes)| ==>
              Filter(outcomes, created)[k].Created? && CreatedOf(outcomes)[k] == Filter(outcomes, created)[k].state
  {
    if outcomes != [] {
      var n := |outcomes| - 1;
      CreatedOfIs(outcomes[..n], created);
      assert outcomes == outcomes[..n] + [outcomes[n]];
      FilterConcat(outcomes[..n], [outcomes[n]], created);
      assert [outcomes[n]][1..] == [];
    }
  }

  /** What a batch does to the whole list of incidents, nothing if it has no alerts: one that
      takes part is as the batch leaves it, any other one as it was, and behind them come the
      ones the batch created, unless it broke off. */
  lemma RoundEffects(states: seq<State>, r: Round, settings: Settings, between: State -> bool)
    requires forall s :: between(s) <==> r.lower < s.lastSeen < r.upper
    ensures var m := AfterRound(states, r, settings);
            && (r.alerts == [] ==> m == Mined(states, false))
            && (r.alerts != [] ==>
                  var p := Process(Filter(states, between), r.parts, r.alerts, settings);
                  && m.broken == Broken(p)
                  && |m.states| == |states| + (if m.broken then 0 else |CreatedOf(p.outcomes)|)
                  && (!m.broken ==> m.states[|states|..] == CreatedOf(p.outcomes))
                  && (forall i :: 0 <= i < |states| && !between(states[i]) ==> m.states[i] == states[i])
                  && (forall i :: 0 <= i < |states| && between(states[i]) ==>
                        var rank := |Filter(states[..i], between)|;
                        rank < |p.states| && m.states[i] == p.states[rank]))
  {
    hide *;
    RoundIs(states, r, settings);
    if r.alerts != [] {
      var p := Process(Filter(states, between), r.parts, r.alerts, settings);
      PickIs(states, r.lower, r.upper, between);
      forall i | 0 <= i < |states|
        ensures var (rank, kept) := (|Filter(states[..i], between)|, WriteBack(states, Picked(states, r.lower, r.upper), p.states));
                if between(states[i]) then rank < |p.states| && kept[i] == p.states[rank] else kept[i] == states[i]
      {
        KeptAt(states, r.lower, r.upper, between, p.states, i);
      }
    }
  }

  lemma RoundIs(states: seq<State>, r: Round, settings: Settings)
    ensures var (m, picked) := (AfterRound(states, r, settings), Picked(states, r.lower, r.upper));
            if r.alerts == [] then m == Mined(states, false)
            else
              var p := Process(Pick(states, picked), r.parts, r.alerts, settings);
              var kept := WriteBack(states, picked, p.states);
              && |p.states| == |picked| && |kept| == |states| && m.broken == Broken(p)
              && m.states == kept + (if m.broken then [] else CreatedOf(p.outcomes))
  {
    hide Process, Broken, CreatedOf, Picked;
  }

  /** One incident, written back or left alone. */
  lemma KeptAt(states: seq<State>, lower: real, upper: real, between: State -> bool, updated: seq<State>, i: nat)
    requires forall s :: between(s) <==> lower < s.lastSeen < upper
    requires i < |states| && |updated| == |Picked(states, lower, upper)|
    ensures var (rank, kept) := (|Filter(states[..i], between)|, WriteBack(states, Picked(states, lower, upper), updated));
            if between(states[i]) then rank < |updated| && kept[i] == updated[rank] else kept[i] == states[i]
  {
    hide WriteBack, Picked, Filter;
    if between(states[i]) {
      PickedRank(states, lower, upper, i);
      PickIs(states[..i], lower, upper, between);
    }
  }
}
