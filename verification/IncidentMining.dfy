// The mining loop: one batch of alerts per window, against one growing list of incidents
// (ee/experimental/incident_utils.py, mine_incidents_and_create_objects).
module IncidentMining {
  import opened Wrappers
  import opened AlertGraph
  import opened IncidentModel
  import opened IncidentRounds
  import opened Incidents
  import opened MiningWindows

  function Times(alerts: seq<Alert>): seq<real> {
    seq(|alerts|, k requires 0 <= k < |alerts| => alerts[k].time)
  }

  /** The alerts between the two positions that the searches find for the window. */
  function SliceOf(alerts: seq<Alert>, w: Window): seq<Alert> {
    var ts := Times(alerts);
    var from, to := SearchLeft(ts, w.start, 0, |ts|), SearchRight(ts, w.end, 0, |ts|);
    if from <= to then alerts[from..to] else []
  }

  /** `get_last_incidents_inmem` */
  method GetLastIncidents(incidents: seq<Incident>, upper: real, lower: real) returns (r: seq<Incident>)
    ensures At(incidents, Picked(Snapshot(incidents), lower, upper), r)
  {
    r := [];
    ghost var states := Snapshot(incidents);
    for k := 0 to |incidents|
      invariant At(incidents, Picked(states[..k], lower, upper), r)
    {
      assert states[..k + 1][..k] == states[..k] && states[k] == incidents[k].Now();
      if lower < incidents[k].lastSeen < upper {
        r := r + [incidents[k]];
      }
    }
    assert states[..|incidents|] == states;
  }

  /** The round that window `w` makes over incidents in `states`. */
  ghost predicate IsRound(states: seq<State>, r: Round, w: Window, alerts: seq<Alert>, settings: Settings,
                          scores: Scores, threshold: real)
    requires scores.Valid()
  {
    && r.lower == w.start - settings.validity && r.upper == w.end && r.alerts == SliceOf(alerts, w)
    && if r.alerts == [] then r.parts == []
       else
         var taking := Pick(states, Picked(states, r.lower, r.upper));
         ComponentsOver(scores, threshold, Amended(taking, Fingerprints(r.alerts)), r.parts)
  }

  /** One turn of the loop. The incidents a broken batch created are not added. */
  method MineBatch(incidents: seq<Incident>, alerts: seq<Alert>, w: Window, settings: Settings,
                   scores: Scores, threshold: real, library: Library, turn: nat)
    returns (created: seq<Incident>, failed: bool, ghost r: Round)
    requires Different(incidents) && scores.Valid() && library.Valid()
    modifies incidents
    ensures IsRound(old(Snapshot(incidents)), r, w, alerts, settings, scores, threshold)
    ensures Mined(Snapshot(incidents) + Snapshot(created), failed) == AfterRound(old(Snapshot(incidents)), r, settings)
    ensures Different(created) && forall k :: 0 <= k < |created| ==> fresh(created[k])
  {
    hide Process, SliceOf, Picked, ComponentsOver, Amended, Fingerprints, CreatedOf, UpdatedOf, Broken, IsRound, AfterRound;
    hide Scores.Valid, Library.Valid, Snapshot, WriteBack;
    var batch := SliceOf(alerts, w);
    if batch == [] {
      r := Round(w.start - settings.validity, w.end, [], []);
      EmptyRound(Snapshot(incidents), r, w, alerts, settings, scores, threshold);
      created, failed := [], false;
      assert Snapshot(incidents) + Snapshot(created) == Snapshot(incidents);
      assert Mined(Snapshot(incidents) + Snapshot(created), failed) == AfterRound(Snapshot(incidents), r, settings);
      return;
    }
    ghost var states := Snapshot(incidents);
    ghost var picked := Picked(states, w.start - settings.validity, w.end);
    var taking := GetLastIncidents(incidents, w.end, w.start - settings.validity);
    assert Snapshot(taking) == Pick(states, picked);
    var updated;
    ghost var parts;
    created, updated, failed, parts := ProcessAlertBatch(taking, batch, settings, scores, threshold, library, turn);
    r := Round(w.start - settings.validity, w.end, batch, parts);
    ghost var p := Process(Pick(states, picked), parts, batch, settings);
    TakenBack(incidents, states, picked, p.states, taking);
    if failed {
      created := [];
      assert Snapshot(created) == [];
    }
    assert Snapshot(created) == if Broken(p) then [] else CreatedOf(p.outcomes);
    assert picked == Picked(states, r.lower, r.upper);
    FullRound(states, r, w, alerts, settings, scores, threshold, picked, p, Snapshot(incidents), Snapshot(created));
  }

  /** The incidents that took part are changed, the others are as they were. */
  lemma TakenBack(incidents: seq<Incident>, states: seq<State>, picked: seq<nat>, updated: seq<State>,
                  taking: seq<Incident>)
    requires Positions(picked, |states|) && |states| == |incidents| && At(incidents, picked, taking)
    requires |updated| == |picked| && Snapshot(taking) == updated && Different(incidents)
    requires forall i :: 0 <= i < |incidents| && incidents[i] !in taking ==> incidents[i].Now() == states[i]
    ensures Snapshot(incidents) == WriteBack(states, picked, updated)
  {
    hide WriteBack, Snapshot;
    forall i | 0 <= i < |incidents| ensures incidents[i].Now() == WriteBack(states, picked, updated)[i] {
      if i in picked {
        var k :| 0 <= k < |picked| && picked[k] == i;
        assert taking[k] == incidents[i] && Snapshot(taking)[k] == updated[k];
      } else {
        assert incidents[i] !in taking;
      }
    }
  }

  lemma EmptyRound(states: seq<State>, r: Round, w: Window, alerts: seq<Alert>, settings: Settings, scores: Scores,
                   threshold: real)
    requires scores.Valid() && r == Round(w.start - settings.validity, w.end, [], []) && SliceOf(alerts, w) == []
    ensures IsRound(states, r, w, alerts, settings, scores, threshold)
    ensures AfterRound(states, r, settings) == Mined(states, false)
  {}

  lemma FullRound(states: seq<State>, r: Round, w: Window, alerts: seq<Alert>, settings: Settings, scores: Scores,
                  threshold: real,
                  picked: seq<nat>, p: BatchState, kept: seq<State>, created: seq<State>)
    requires scores.Valid() && r.lower == w.start - settings.validity && r.upper == w.end
    requires r.alerts == SliceOf(alerts, w) != []
    requires picked == Picked(states, r.lower, r.upper) && p == Process(Pick(states, picked), r.parts, r.alerts, settings)
    requires ComponentsOver(scores, threshold, Amended(Pick(states, picked), Fingerprints(r.alerts)), r.parts)
    requires kept == WriteBack(states, picked, p.states) && created == if Broken(p) then [] else CreatedOf(p.outcomes)
    ensures IsRound(states, r, w, alerts, settings, scores, threshold)
    ensures AfterRound(states, r, settings) == Mined(kept + created, Broken(p))
  {
    hide Picked, Pick, Process, SliceOf, ComponentsOver, Amended, Fingerprints, Broken, CreatedOf, WriteBack;
    if Broken(p) {
      assert kept + created == kept;
    }
  }

  /** The loop over all windows. The rounds it went through are returned as evidence. */
  method MineIncidents(existing: seq<Incident>, alerts: seq<Alert>, windows: seq<Window>, settings: Settings,
                       scores: Scores, threshold: real, library: Library)
    returns (incidents: seq<Incident>, failed: bool, ghost rounds: seq<Round>)
    requires Different(existing) && scores.Valid() && library.Valid()
    modifies existing
    ensures existing <= incidents && Different(incidents)
    ensures forall k :: 0 <= k < |incidents| ==> incidents[k] in existing || fresh(incidents[k])
    ensures |rounds| <= |windows| && (failed || |rounds| == |windows|)
    ensures AreRounds(old(Snapshot(existing)), rounds, windows, alerts, settings, scores, threshold)
    ensures Mined(Snapshot(incidents), failed) == AfterRounds(old(Snapshot(existing)), rounds, settings)
    ensures DistinctIds(alerts) ==> AllGrown(old(Snapshot(existing)), Snapshot(incidents))
  {
    hide AreRounds, AfterRounds, AfterRound, IsRound, Snapshot, AllGrown, IncidentRounds.DistinctIds, Library.Valid, Scores.Valid;
    ghost var before := Snapshot(existing);
    NoRounds(before, windows, alerts, settings, scores, threshold);
    incidents, failed, rounds := existing, false, [];
    for k := 0 to |windows|
      invariant existing <= incidents && Different(incidents)
      invariant forall k :: 0 <= k < |incidents| ==> incidents[k] in existing || fresh(incidents[k])
      invariant |rounds| == k && AreRounds(before, rounds, windows, alerts, settings, scores, threshold)
      invariant Mined(Snapshot(incidents), false) == AfterRounds(before, rounds, settings)
    {
      ghost var states := Snapshot(incidents);
      var created, raised;
      ghost var r;
      created, raised, r := MineBatch(incidents, alerts, windows[k], settings, scores, threshold, library, k);
      OneMoreRound(before, rounds, r, windows, alerts, settings, scores, threshold);
      rounds := rounds + [r];
      assert forall i, j :: 0 <= i < |incidents| && 0 <= j < |created| ==> incidents[i] != created[j];
      assert Snapshot(incidents + created) == Snapshot(incidents) + Snapshot(created);
      incidents := incidents + created;
      if raised {
        failed := true;
        break;
      }
    }
    if DistinctIds(alerts) {
      RunGrows(before, rounds, windows, alerts, settings, scores, threshold);
    }
  }

  lemma NoRounds(states: seq<State>, windows: seq<Window>, alerts: seq<Alert>, settings: Settings, scores: Scores,
                 threshold: real)
    requires scores.Valid()
    ensures AreRounds(states, [], windows, alerts, settings, scores, threshold)
    ensures AfterRounds(states, [], settings) == Mined(states, false)
  {}

  ghost predicate AreRounds(states: seq<State>, rounds: seq<Round>, windows: seq<Window>, alerts: seq<Alert>,
                            settings: Settings,
                            scores: Scores, threshold: real)
    requires scores.Valid()
  {
    |rounds| <= |windows| && forall k :: 0 <= k < |rounds| ==>
      IsRound(AfterRounds(states, rounds[..k], settings).states, rounds[k], windows[k], alerts, settings, scores, threshold)
  }

  lemma OneMoreRound(states: seq<State>, rounds: seq<Round>, r: Round, windows: seq<Window>, alerts: seq<Alert>,
                     settings: Settings, scores: Scores, threshold: real)
    requires scores.Valid() && |rounds| < |windows|
    requires AreRounds(states, rounds, windows, alerts, settings, scores, threshold)
    requires var m := AfterRounds(states, rounds, settings);
             !m.broken && IsRound(m.states, r, windows[|rounds|], alerts, settings, scores, threshold)
    ensures AreRounds(states, rounds + [r], windows, alerts, settings, scores, threshold)
    ensures AfterRounds(states, rounds + [r], settings) == AfterRound(AfterRounds(states, rounds, settings).states, r, settings)
  {
    hide IsRound, AfterRound;
    var more := rounds + [r];
    assert more[..|rounds|] == rounds;
    forall k | 0 <= k < |more|
      ensures IsRound(AfterRounds(states, more[..k], settings).states, more[k], windows[k], alerts, settings, scores, threshold)
    {
      if k < |rounds| {
        assert more[..k] == rounds[..k];
      }
    }
  }

  /** A run over alerts with distinct ids keeps every incident sound. */
  lemma RunGrows(states: seq<State>, rounds: seq<Round>, windows: seq<Window>, alerts: seq<Alert>, settings: Settings,
                 scores: Scores, threshold: real)
    requires scores.Valid() && DistinctIds(alerts)
    requires AreRounds(states, rounds, windows, alerts, settings, scores, threshold)
    ensures AllGrown(states, AfterRounds(states, rounds, settings).states)
  {
    hide IsRound, AfterRounds, AllGrown;
    forall r | r in rounds ensures Apart(r.parts) && DistinctIds(r.alerts) {
      var k :| 0 <= k < |rounds| && rounds[k] == r;
      RoundApart(AfterRounds(states, rounds[..k], settings).states, r, windows[k], alerts, settings, scores, threshold);
    }
    RoundsGrow(states, rounds, settings);
  }

  lemma RoundApart(states: seq<State>, r: Round, w: Window, alerts: seq<Alert>, settings: Settings, scores: Scores,
                   threshold: real)
    requires scores.Valid() && DistinctIds(alerts) && IsRound(states, r, w, alerts, settings, scores, threshold)
    ensures Apart(r.parts) && DistinctIds(r.alerts)
  {
    hide ComponentsOver, Picked, SearchLeft, SearchRight;
    if r.alerts != [] {
      var taking := Pick(states, Picked(states, r.lower, r.upper));
      ComponentsApart(scores, threshold, Amended(taking, Fingerprints(r.alerts)), r.parts);
    }
  }

  // ---- A run, from its bounds ----

  /** Every alert between the bounds is in the batch of some round. */
  ghost predicate AllMined(alerts: seq<Alert>, lower: real, upper: real, rounds: seq<Round>) {
    forall a :: a in alerts && lower <= a.time <= upper ==> exists k :: 0 <= k < |rounds| && a in rounds[k].alerts
  }

  /** A run from where its caller says, the stored checkpoint, or the first alert, to
      `upper`: the windows between them, the loop over these, and the checkpoint to store.
      Without alerts to start from, or with a zero stride, it fails before the loop. When it
      gets through, the alerts come in the order of their times, and there is a batch at
      all, no alert between the bounds is passed over. */
  method MineRun(existing: seq<Incident>, alerts: seq<Alert>, given: Option<real>, checkpoint: Option<real>, upper: real,
                 validity: int, settings: Settings, scores: Scores, threshold: real, library: Library)
    returns (incidents: seq<Incident>, failed: bool, stored: Option<real>, ghost rounds: seq<Round>)
    requires Different(existing) && scores.Valid() && library.Valid()
    modifies existing
    ensures existing <= incidents && Different(incidents)
    ensures Snapshot(incidents) == AfterRounds(old(Snapshot(existing)), rounds, settings).states
    ensures DistinctIds(alerts) ==> AllGrown(old(Snapshot(existing)), Snapshot(incidents))
    ensures var before, run := Progress(checkpoint, None, []), Run(upper, given, Times(alerts), failed);
            var after := AfterRun(before, run, validity);
            && stored == after.checkpoint
            && AreRounds(old(Snapshot(existing)), rounds, RunWindows(before, run, validity), alerts, settings, scores, threshold)
            && (!failed && Sorted(Times(alerts)) && validity >= STRIDE_DENOMINATOR && after.covered != [] ==>
                  AllMined(alerts, LowerBound(before, run).value, upper, rounds))
  {
    hide AreRounds, AfterRounds, AllGrown, IncidentRounds.DistinctIds, Library.Valid, Scores.Valid, Snapshot;
    hide AllMined, Batches, Windows, Sorted, Batch;
    ghost var before := Snapshot(existing);
    var times, stride := Times(alerts), Stride(validity);
    var lower := if given.Some? then given else if checkpoint.Some? then checkpoint
                 else if times == [] then None else Some(Least(times));
    if lower.None? || stride == 0 {
      incidents, failed, stored, rounds := existing, true, checkpoint, [];
      NoRun(before, alerts, settings, scores, threshold);
      NoRounds(before, [], alerts, settings, scores, threshold);
      return;
    }
    var n := Batches(lower.value, upper, stride);
    var windows := Windows(lower.value, stride, validity, n);
    incidents, failed, rounds := MineIncidents(existing, alerts, windows, settings, scores, threshold, library);
    stored := if failed then checkpoint else Some(Batch(lower.value, stride, n - 1));
    if !failed && Sorted(times) && validity >= STRIDE_DENOMINATOR && windows != [] {
      RunMinesAll(before, alerts, lower.value, upper, validity, rounds, settings, scores, threshold);
    }
    assert [] + windows == windows;
  }

  /** The windows of a run; none when it fails before the loop. */
  function RunWindows(p: Progress, r: Run, validity: int): seq<Window> {
    var lower, stride := LowerBound(p, r), Stride(validity);
    if lower.None? || stride == 0 then []
    else Windows(lower.value, stride, validity, Batches(lower.value, r.upper, stride))
  }

  lemma NoRun(states: seq<State>, alerts: seq<Alert>, settings: Settings, scores: Scores, threshold: real)
    requires scores.Valid()
    ensures AllGrown(states, AfterRounds(states, [], settings).states)
    ensures AfterRounds(states, [], settings) == Mined(states, false)
  {
    forall s ensures Grown(s, s) { GrownSelf(s); }
  }

  /** An alert whose time is in a window is in the slice for it. */
  lemma SliceHas(alerts: seq<Alert>, w: Window, i: nat)
    requires Sorted(Times(alerts)) && w.start <= w.end && i < |alerts| && Inside(alerts[i].time, w)
    ensures alerts[i] in SliceOf(alerts, w)
  {
    var ts := Times(alerts);
    SliceIsWindow(ts, w);
    hide SearchLeft, SearchRight, Sorted;
    var from, to := SearchLeft(ts, w.start, 0, |ts|), SearchRight(ts, w.end, 0, |ts|);
    assert ts[i] == alerts[i].time;
    assert alerts[from..to][i - from] == alerts[i];
  }

  lemma WindowsForward(lower: real, stride: int, validity: int, n: int, k: nat)
    requires validity >= 0 && k < n
    ensures var w := Windows(lower, stride, validity, n)[k]; w.start <= w.end
  {}

  lemma RunMinesAll(states: seq<State>, alerts: seq<Alert>, lower: real, upper: real, validity: int, rounds: seq<Round>,
                    settings: Settings, scores: Scores, threshold: real)
    requires scores.Valid() && validity >= STRIDE_DENOMINATOR && Sorted(Times(alerts))
    requires var stride := Stride(validity);
             var windows := Windows(lower, stride, validity, Batches(lower, upper, stride));
             && windows != [] && |rounds| == |windows|
             && AreRounds(states, rounds, windows, alerts, settings, scores, threshold)
    ensures AllMined(alerts, lower, upper, rounds)
  {
    hide Batches, Windows, SliceOf, Sorted, Scores.Valid, Inside, AreRounds;
    var stride := Stride(validity);
    var n := Batches(lower, upper, stride);
    var windows := Windows(lower, stride, validity, n);
    forall a | a in alerts && lower <= a.time <= upper ensures exists k :: 0 <= k < |rounds| && a in rounds[k].alerts {
      RunCoversToUpper(lower, upper, validity, a.time);
      var k :| 0 <= k < |windows| && Inside(a.time, windows[k]);
      var i :| 0 <= i < |alerts| && alerts[i] == a;
      WindowsForward(lower, stride, validity, n, k);
      SliceHas(alerts, windows[k], i);
      RoundSlice(states, rounds, windows, alerts, settings, scores, threshold, k);
    }
  }

  lemma RoundSlice(states: seq<State>, rounds: seq<Round>, windows: seq<Window>, alerts: seq<Alert>, settings: Settings,
                   scores: Scores, threshold: real, k: nat)
    requires scores.Valid() && AreRounds(states, rounds, windows, alerts, settings, scores, threshold) && k < |rounds|
    ensures k < |windows| && rounds[k].alerts == SliceOf(alerts, windows[k])
  {
    hide AfterRounds, SliceOf, ComponentsOver;
  }
}
