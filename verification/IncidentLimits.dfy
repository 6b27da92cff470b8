// Which incidents a batch extends, exactly, and two batches that show what it misses
// (ee/experimental/incident_utils.py, process_alert_batch).
module IncidentLimits {
  import opened AlertGraph
  import opened IncidentModel
  import opened IncidentRounds
  import opened Incidents

  // ---- Fingerprints the graph leaves out ----

  /** The fingerprints of all incidents. */
  function KnownTo(states: seq<State>): (r: set<string>)
    ensures forall f :: f in r <==> exists i :: 0 <= i < |states| && f in Fingerprints(states[i].alerts)
  {
    if states == [] then {}
    else
      var n := |states| - 1;
      assert forall i :: 0 <= i < n ==> states[..n][i] == states[i];
      KnownTo(states[..n]) + Fingerprints(states[n].alerts)
  }

  /** The graph is built over the fingerprints of the batch and of all incidents if and only
      if those of every incident are in the batch or in the last incident. */
  lemma AmendedIsAllIff(states: seq<State>, batch: set<string>)
    requires states != []
    ensures Amended(states, batch) == batch + KnownTo(states)
        <==> forall i :: 0 <= i < |states| ==>
               Fingerprints(states[i].alerts) <= batch + Fingerprints(states[|states| - 1].alerts)
  {
    hide Fingerprints;
    var last := Fingerprints(states[|states| - 1].alerts);
    assert last <= KnownTo(states);
    if batch + last == batch + KnownTo(states) {
      forall i | 0 <= i < |states| ensures Fingerprints(states[i].alerts) <= batch + last {
        assert Fingerprints(states[i].alerts) <= KnownTo(states);
      }
    }
    if forall i :: 0 <= i < |states| ==> Fingerprints(states[i].alerts) <= batch + last {
      assert KnownTo(states) <= batch + last;
      assert batch + KnownTo(states) == batch + last;
    }
  }

  /** An incident with a fingerprint that the graph leaves out is never extended. */
  lemma ForgottenNeverExtended(states: seq<State>, parts: seq<set<string>>, alerts: seq<Alert>, settings: Settings,
                               i: nat)
    requires Apart(parts) && (forall k :: 0 <= k < |parts| ==> parts[k] <= Amended(states, Fingerprints(alerts)))
    requires i < |states| && !(Fingerprints(states[i].alerts) <= Amended(states, Fingerprints(alerts)))
    ensures forall k: nat :: !Extends(Process(states, parts, alerts, settings), k, i)
    ensures Process(states, parts, alerts, settings).states[i] == states[i]
  {
    ComponentsIndependent(states, parts, alerts, settings);
    var p := Process(states, parts, alerts, settings);
    assert FateOf(states[i], parts, alerts, p, i);
    hide Process, Assign, Fingerprints, Merge;
  }

  // ---- Which incidents are extended ----

  /** Component `k` gets its turn: none before it breaks the batch off. */
  ghost predicate Reached(parts: seq<set<string>>, alerts: seq<Alert>, settings: Settings, k: nat) {
    k < |parts| && forall l :: 0 <= l < k ==> !Breaking(parts[l], alerts, settings)
  }

  lemma {:induction false} ReachedIff(states: seq<State>, parts: seq<set<string>>, alerts: seq<Alert>,
                                      settings: Settings, k: nat)
    requires Apart(parts)
    ensures k < |Process(states, parts, alerts, settings).outcomes| <==> Reached(parts, alerts, settings, k)
  {
    hide *;
    if parts == [] {
      NoParts(states, alerts, settings, k);
    } else {
      var n := |parts| - 1;
      FrontApart(parts);
      ReachedIff(states, parts[..n], alerts, settings, k);
      ComponentsIndependent(states, parts[..n], alerts, settings);
      BatchFailsIff(states, parts[..n], alerts, settings);
      OneMorePart(states, parts, alerts, settings, k);
    }
  }

  lemma FrontApart(parts: seq<set<string>>)
    requires parts != [] && Apart(parts)
    ensures Apart(parts[..|parts| - 1])
  {}

  lemma NoParts(states: seq<State>, alerts: seq<Alert>, settings: Settings, k: nat)
    ensures k < |Process(states, [], alerts, settings).outcomes| <==> Reached([], alerts, settings, k)
  {}

  lemma OneMorePart(states: seq<State>, parts: seq<set<string>>, alerts: seq<Alert>, settings: Settings, k: nat)
    requires parts != []
    requires var front := parts[..|parts| - 1];
             var p := Process(states, front, alerts, settings);
             && (Broken(p) || |p.outcomes| == |front|)
             && (Broken(p) <==> exists c :: c in front && Breaking(c, alerts, settings))
             && (k < |p.outcomes| <==> Reached(front, alerts, settings, k))
    ensures k < |Process(states, parts, alerts, settings).outcomes| <==> Reached(parts, alerts, settings, k)
  {
    hide Breaking, Assign, Broken, Apply;
    var n := |parts| - 1;
    var front := parts[..n];
    var p := Process(states, front, alerts, settings);
    assert forall l :: 0 <= l < n ==> front[l] == parts[l];
    if Broken(p) {
      var c :| c in front && Breaking(c, alerts, settings);
      var l :| 0 <= l < n && front[l] == c;
    } else {
      forall l | 0 <= l < n ensures !Breaking(parts[l], alerts, settings) {
        assert front[l] in front;
      }
    }
  }

  /** An incident is extended in a batch if and only if, over the incidents as they were
      before the batch, it is the first to accept some component that gets its turn. */
  lemma ExtendedIff(states: seq<State>, parts: seq<set<string>>, alerts: seq<Alert>, settings: Settings, i: nat)
    requires Apart(parts) && i < |states|
    ensures (exists k: nat :: Extends(Process(states, parts, alerts, settings), k, i))
        <==> exists k: nat :: k < |parts| && Reached(parts, alerts, settings, k)
                              && FirstAccepting(states, parts[k], alerts, settings, 0) == i
  {
    hide Process, Accepts, FirstAccepting, Breaking;
    var p := Process(states, parts, alerts, settings);
    ComponentsIndependent(states, parts, alerts, settings);
    if k: nat :| Extends(p, k, i) {
      ReachedIff(states, parts, alerts, settings, k);
      AssignedTo(states, parts[k], alerts, settings, i);
    }
    if k: nat :| k < |parts| && Reached(parts, alerts, settings, k)
                && FirstAccepting(states, parts[k], alerts, settings, 0) == i {
      ReachedIff(states, parts, alerts, settings, k);
      AssignedTo(states, parts[k], alerts, settings, i);
      assert Extends(p, k, i);
    }
  }

  lemma AssignedTo(states: seq<State>, component: set<string>, alerts: seq<Alert>, settings: Settings, i: nat)
    requires i < |states|
    ensures Assign(states, component, alerts, settings) == Updated(i)
        <==> FirstAccepting(states, component, alerts, settings, 0) == i
  {
    hide Accepts;
  }

  // ---- Two incidents and one alert ----

  /** Alerts a and b occur together, c does not. */
  const Three: Scores :=
    Scores(map["a" := 0, "b" := 1, "c" := 2], [[1.0, 1.0, 0.0], [1.0, 1.0, 0.0], [0.0, 0.0, 1.0]])

  const Half: real := 0.5

  const AB: State := State([Alert(1, "a", 0.0), Alert(2, "b", 0.0)], 0.0)

  const C: State := State([Alert(3, "c", 0.0)], 0.0)

  const NewA: seq<Alert> := [Alert(4, "a", 1.0)]

  const NewC: seq<Alert> := [Alert(4, "c", 1.0)]

  const Pairs: Settings := Settings(2, 10.0)

  /** Apart from themselves, only these two fingerprints score over the threshold. */
  ghost predicate LinksOnly(s: Scores, threshold: real, a: string, b: string) {
    s.Valid() && a != b
    && forall f, h :: f != h ==> (Over(s, threshold, f, h) <==> ((f == a && h == b) || (f == b && h == a)))
  }

  lemma ThreeLinks()
    ensures LinksOnly(Three, Half, "a", "b")
  {}

  lemma OneEdge(s: Scores, threshold: real, a: string, b: string, order: seq<string>, g: Graph, f: string, h: string)
    requires LinksOnly(s, threshold, a, b)
    requires AlertGraph.Distinct(order) && IsGraphOf(s, threshold, order, g) && |order| != 1
    ensures (f, h) in g.edges
        <==> a in order && b in order && ((f == a && h == b) || (f == b && h == a))
  {
    assert SymmetricOn(s, threshold, Members(order)) by { hide IsGraphOf, Over; }
    assert Over(s, threshold, f, h) <==> f in s.index && h in s.index && s.values[s.index[f]][s.index[h]] > threshold;
    hide Over, IsGraphOf, SymmetricOn, Scores.Valid;
    EdgeIffOver(s, threshold, order, g, f, h);
  }

  lemma TwoNodes(s: Scores, threshold: real, a: string, b: string, order: seq<string>, g: Graph)
    requires LinksOnly(s, threshold, a, b)
    requires AlertGraph.Distinct(order) && IsGraphOf(s, threshold, order, g) && |order| != 1
    ensures g.nodes == if a in order && b in order then {a, b} else {}
  {
    hide LinksOnly, IsGraphOf;
    assert s.Valid() && a != b by { LinksValid(s, threshold, a, b); }
    GraphProper(s, threshold, order, g);
    forall f | f in g.nodes ensures a in order && b in order && (f == a || f == b) {
      assert HasEdge(g, f);
      var h :| (f, h) in g.edges;
      OneEdge(s, threshold, a, b, order, g, f, h);
    }
    OneEdge(s, threshold, a, b, order, g, a, b);
    OneEdge(s, threshold, a, b, order, g, b, a);
  }

  lemma LinksValid(s: Scores, threshold: real, a: string, b: string)
    requires LinksOnly(s, threshold, a, b)
    ensures s.Valid() && a != b
  {}

  lemma PairComponent(g: Graph, a: string, b: string, f: string)
    requires g.nodes == {a, b} && (a, b) in g.edges && (b, a) in g.edges && f in g.nodes
    ensures Component(g, f) == {a, b}
  {
    LinkedSelf(g, f);
    var h := if f == a then b else a;
    var path := [f, h];
    assert Path(g, path) && path[|path| - 1] == h;
    assert Linked(g, f, h);
  }

  lemma PairComponents(g: Graph, a: string, b: string)
    requires g.nodes == {a, b} && (a, b) in g.edges && (b, a) in g.edges
    ensures Components(g) == {{a, b}}
  {
    PairComponent(g, a, b, a);
    PairComponent(g, a, b, b);
    hide Component;
    assert Component(g, a) in Components(g);
  }

  lemma OnePart(parts: seq<set<string>>, c: set<string>)
    requires forall d :: d in parts <==> d == c
    requires forall k, l :: 0 <= k < l < |parts| ==> parts[k] != parts[l]
    ensures parts == [c]
  {
    assert c in parts;
    if |parts| > 1 {
      TwoMembers(parts);
      assert false;
    }
  }

  lemma TwoMembers(parts: seq<set<string>>)
    requires |parts| > 1 && forall k, l :: 0 <= k < l < |parts| ==> parts[k] != parts[l]
    ensures exists c, d :: c in parts && d in parts && c != d
  {
    assert parts[0] in parts && parts[1] in parts;
  }

  lemma NoPart(parts: seq<set<string>>)
    requires forall c :: c !in parts
    ensures parts == []
  {
    if parts != [] {
      FirstMember(parts);
      assert false;
    }
  }

  lemma FirstMember(parts: seq<set<string>>)
    requires parts != []
    ensures exists c :: c in parts
  {
    assert parts[0] in parts;
  }

  /** The pair is the one component, or there is none. */
  lemma PairParts(s: Scores, threshold: real, a: string, b: string, names: set<string>, parts: seq<set<string>>)
    requires LinksOnly(s, threshold, a, b) && s.Valid() && ComponentsOver(s, threshold, names, parts)
    requires exists f, h :: f in names && h in names && f != h
    ensures parts == if a in names && b in names then [{a, b}] else []
  {
    hide LinksOnly, IsGraphOf, Components, Scores.Valid;
    var order, g :| Lists(order, names) && IsGraphOf(s, threshold, order, g) && ListsComponents(parts, g);
    assert forall f :: f in order <==> f in names;
    TwoNodes(s, threshold, a, b, order, g);
    if a in names && b in names {
      OneEdge(s, threshold, a, b, order, g, a, b);
      OneEdge(s, threshold, a, b, order, g, b, a);
      PairComponents(g, a, b);
      OnePart(parts, {a, b});
    } else {
      NoComponents(g);
      NoPart(parts);
    }
  }

  lemma NoComponents(g: Graph)
    requires g.nodes == {}
    ensures Components(g) == {}
  {}

  lemma PrintsOf()
    ensures Fingerprints(NewA) == {"a"} && Fingerprints(NewC) == {"c"} && Fingerprints(C.alerts) == {"c"}
    ensures Fingerprints(AB.alerts) == {"a", "b"}
  {
    assert AB.alerts[0] in AB.alerts && AB.alerts[1] in AB.alerts;
    assert NewA[0] in NewA && NewC[0] in NewC && C.alerts[0] in C.alerts;
  }

  lemma KnownToBoth()
    ensures KnownTo([AB, C]) == {"a", "b", "c"}
  {
    PrintsOf();
    hide Fingerprints;
    assert [AB, C][0] == AB && [AB, C][1] == C;
    assert forall i :: 0 <= i < 2 ==> [AB, C][i] == AB || [AB, C][i] == C;
  }

  lemma FirstExtended()
    ensures Assign([AB, C], {"a", "b"}, NewA, Pairs) == Updated(0)
  {
    PrintsOf();
    assert "a" in Fingerprints(AB.alerts) * Fingerprints(NewA);
    hide Fingerprints;
    assert InComponent(NewA, {"a", "b"}) == NewA by {
      assert NewA[1..] == [];
    }
    assert Accepts(AB, {"a", "b"}, NewA, Pairs);
  }

  lemma OneComponentExtends()
    ensures Extends(Process([AB, C], [{"a", "b"}], NewA, Pairs), 0, 0)
  {
    FirstExtended();
    var parts := [{"a", "b"}];
    assert parts[..0] == [];
    hide Assign, Fingerprints;
  }

  /** The graph over two unlinked fingerprints is empty; over all three it is one edge. */
  lemma ThreeHaveParts()
    ensures ComponentsOver(Three, Half, {"a", "c"}, []) && ComponentsOver(Three, Half, {"a", "b", "c"}, [{"a", "b"}])
  {
    var none, one := Graph({}, {}), Graph({"a", "b"}, {("a", "b"), ("b", "a")});
    GraphsOfThree(none, one);
    NoComponents(none);
    PairComponents(one, "a", "b");
    hide *;
    ListsOfThree(none, one);
    PartsGiven(["a", "c"], {"a", "c"}, none, []);
    PartsGiven(["a", "b", "c"], {"a", "b", "c"}, one, [{"a", "b"}]);
  }

  lemma PartsGiven(order: seq<string>, names: set<string>, g: Graph, parts: seq<set<string>>)
    requires Lists(order, names) && IsGraphOf(Three, Half, order, g) && ListsComponents(parts, g)
    ensures ComponentsOver(Three, Half, names, parts)
  {
    hide IsGraphOf, Lists, ListsComponents;
  }

  lemma ListsOfThree(none: Graph, one: Graph)
    requires Components(none) == {} && Components(one) == {{"a", "b"}}
    ensures Lists(["a", "c"], {"a", "c"}) && Lists(["a", "b", "c"], {"a", "b", "c"})
    ensures ListsComponents([], none) && ListsComponents([{"a", "b"}], one)
  {
    hide Components;
    var two, three := ["a", "c"], ["a", "b", "c"];
    assert two[0] in two && two[1] in two && three[0] in three && three[1] in three && three[2] in three;
  }

  lemma GraphsOfThree(none: Graph, one: Graph)
    requires none == Graph({}, {}) && one == Graph({"a", "b"}, {("a", "b"), ("b", "a")})
    ensures IsGraphOf(Three, Half, ["a", "c"], none) && IsGraphOf(Three, Half, ["a", "b", "c"], one)
  {
    OnlyPair("a", "c");
    OnlyPair("a", "b");
    OnlyPair("b", "c");
    hide Over, Scores.Valid;
    var two, three := ["a", "c"], ["a", "b", "c"];
    assert forall i: nat, j: nat :: !Joined(Three, Half, two, i, j);
    assert forall i: nat, j: nat :: Joined(Three, Half, three, i, j) <==> i == 0 && j == 1;
    assert Joined(Three, Half, three, 0, 1);
    assert IsJoined(Three, Half, three, ("a", "b")) && IsJoined(Three, Half, three, ("b", "a"));
    assert HasEdge(one, "a") && HasEdge(one, "b");
  }

  lemma OnlyPair(f: string, h: string)
    requires f != h
    ensures Over(Three, Half, f, h) <==> (f == "a" && h == "b") || (f == "b" && h == "a")
  {
    ThreeLinks();
  }

  /** An alert on a comes in, and the first incident has a and b. The graph the program
      builds leaves b out, so whatever the libraries choose that incident is not extended;
      over all fingerprints it would be. */
  lemma OldIncidentForgotten()
    ensures ComponentsOver(Three, Half, Amended([AB, C], Fingerprints(NewA)), [])
    ensures forall parts :: ComponentsOver(Three, Half, Amended([AB, C], Fingerprints(NewA)), parts) ==>
              forall k: nat :: !Extends(Process([AB, C], parts, NewA, Pairs), k, 0)
    ensures ComponentsOver(Three, Half, KnownTo([AB, C]) + Fingerprints(NewA), [{"a", "b"}])
    ensures forall all :: ComponentsOver(Three, Half, KnownTo([AB, C]) + Fingerprints(NewA), all) ==>
              Extends(Process([AB, C], all, NewA, Pairs), 0, 0)
  {
    ThreeLinks();
    PrintsOf();
    KnownToBoth();
    ThreeHaveParts();
    hide LinksOnly, Scores.Valid, ComponentsOver, Fingerprints, KnownTo;
    assert Amended([AB, C], {"a"}) == {"a", "c"} && {"a", "b", "c"} + {"a"} == {"a", "b", "c"};
    forall parts | ComponentsOver(Three, Half, {"a", "c"}, parts)
      ensures forall k: nat :: !Extends(Process([AB, C], parts, NewA, Pairs), k, 0)
    {
      ComponentsApart(Three, Half, {"a", "c"}, parts);
      assert "b" in Fingerprints(AB.alerts);
      ForgottenNeverExtended([AB, C], parts, NewA, Pairs, 0);
    }
    forall all | ComponentsOver(Three, Half, {"a", "b", "c"}, all)
      ensures Extends(Process([AB, C], all, NewA, Pairs), 0, 0)
    {
      PairParts(Three, Half, "a", "b", {"a", "b", "c"}, all);
      OneComponentExtends();
    }
  }

  /** The last incident has a and b, and the batch only c: the component {a, b} is large
      enough for an incident, has no alert in the batch, and breaks the run off. */
  lemma BatchBreaksOff()
    ensures ComponentsOver(Three, Half, Amended([AB], Fingerprints(NewC)), [{"a", "b"}])
    ensures Broken(Process([AB], [{"a", "b"}], NewC, Pairs))
  {
    PrintsOf();
    ThreeHaveParts();
    PairBreaks();
    hide ComponentsOver, Fingerprints, Process;
    assert Amended([AB], {"c"}) == {"a", "b", "c"};
    assert {"a", "b"} in [{"a", "b"}];
    BatchFailsIff([AB], [{"a", "b"}], NewC, Pairs);
  }

  lemma PairBreaks()
    ensures Breaking({"a", "b"}, NewC, Pairs)
  {
    PrintsOf();
    hide Fingerprints;
    assert |{"a", "b"}| == 2;
  }
}
