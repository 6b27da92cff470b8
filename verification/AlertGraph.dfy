// The correlation graph over alert fingerprints and its components
// (ee/experimental/graph_utils.py, create_graph; ee/experimental/incident_utils.py,
// process_alert_batch). Node deletion is switched off.
module AlertGraph {

  /** The score matrix with the row and column of each known fingerprint. */
  datatype Scores = Scores(index: map<string, nat>, values: seq<seq<real>>) {
    predicate Valid() {
      forall f :: f in index ==> index[f] < |values| && forall r :: 0 <= r < |values| ==> index[f] < |values[r]|
    }
  }

  /** The entry in the row of `f` and the column of `g` exceeds the threshold; unknown
      fingerprints have no entry. */
  predicate Over(s: Scores, threshold: real, f: string, g: string)
    requires s.Valid()
  {
    f in s.index && g in s.index && s.values[s.index[f]][s.index[g]] > threshold
  }

  /** An undirected graph: `edges` holds each edge in both directions. */
  datatype Graph = Graph(nodes: set<string>, edges: set<(string, string)>)

  function AddEdge(g: Graph, a: string, b: string): Graph {
    Graph(g.nodes + {a, b}, g.edges + {(a, b), (b, a)})
  }

  /** The pair at positions `i < j` is joined. */
  predicate Joined(s: Scores, threshold: real, fs: seq<string>, i: nat, j: nat)
    requires s.Valid()
  {
    i < j < |fs| && Over(s, threshold, fs[i], fs[j])
  }

  /** Every joined pair with first position below `n`, or at `n` with second position
      below `m`, is an edge. */
  ghost predicate HasAll(s: Scores, threshold: real, fs: seq<string>, g: Graph, n: nat, m: nat)
    requires s.Valid()
  {
    forall i: nat, j: nat :: Joined(s, threshold, fs, i, j) && (i < n || (i == n && j < m)) ==> (fs[i], fs[j]) in g.edges
  }

  ghost predicate IsJoined(s: Scores, threshold: real, fs: seq<string>, e: (string, string))
    requires s.Valid()
  {
    exists i: nat, j: nat :: Joined(s, threshold, fs, i, j) && (e == (fs[i], fs[j]) || e == (fs[j], fs[i]))
  }

  ghost predicate OnlyJoined(s: Scores, threshold: real, fs: seq<string>, g: Graph)
    requires s.Valid()
  {
    forall e :: e in g.edges ==> IsJoined(s, threshold, fs, e)
  }

  ghost predicate HasEdge(g: Graph, a: string) {
    exists b :: (a, b) in g.edges
  }

  /** Edges go both ways, and join nodes. */
  ghost predicate Closed(g: Graph) {
    forall a, b :: (a, b) in g.edges ==> (b, a) in g.edges && a in g.nodes
  }

  /** Moreover every node is the end of an edge. */
  ghost predicate Proper(g: Graph) {
    Closed(g) && forall a :: a in g.nodes ==> HasEdge(g, a)
  }

  /** The edges so far are exactly the joined pairs tried so far. */
  ghost predicate Built(s: Scores, threshold: real, fs: seq<string>, g: Graph, n: nat, m: nat)
    requires s.Valid()
  {
    HasAll(s, threshold, fs, g, n, m) && OnlyJoined(s, threshold, fs, g) && Proper(g)
  }

  /** `create_graph` without node deletion: a lone fingerprint is a node by itself,
      otherwise every pair of positions is tried once. */
  method CreateGraph(s: Scores, threshold: real, fs: seq<string>) returns (g: Graph)
    requires s.Valid()
    ensures |fs| == 1 ==> g == Graph({fs[0]}, {})
    ensures |fs| != 1 ==> Built(s, threshold, fs, g, |fs|, 0)
  {
    g := Graph({}, {});
    if |fs| == 1 {
      return Graph({fs[0]}, {});
    }
    for i := 0 to |fs|
      invariant Built(s, threshold, fs, g, i, 0)
    {
      RowStarts(s, threshold, fs, g, i);
      if fs[i] in s.index {
        for j := i + 1 to |fs|
          invariant Built(s, threshold, fs, g, i, j)
        {
          if fs[j] in s.index && s.values[s.index[fs[i]]][s.index[fs[j]]] > threshold {
            AddedEdge(s, threshold, fs, g, i, j);
            g := AddEdge(g, fs[i], fs[j]);
          } else {
            Skipped(s, threshold, fs, g, i, j);
          }
        }
      }
      RowEnds(s, threshold, fs, g, i);
    }
  }

  lemma AddedEdge(s: Scores, threshold: real, fs: seq<string>, g: Graph, i: nat, j: nat)
    requires s.Valid() && Joined(s, threshold, fs, i, j) && Built(s, threshold, fs, g, i, j)
    ensures Built(s, threshold, fs, AddEdge(g, fs[i], fs[j]), i, j + 1)
  {
    hide HasAll, IsJoined, HasEdge, Proper, OnlyJoined, Over, AddEdge;
    AddedAll(s, threshold, fs, g, i, j);
    AddedOnly(s, threshold, fs, g, i, j);
    AddedProper(g, fs[i], fs[j]);
  }

  lemma AddedAll(s: Scores, threshold: real, fs: seq<string>, g: Graph, i: nat, j: nat)
    requires s.Valid() && i < |fs| && j < |fs| && HasAll(s, threshold, fs, g, i, j)
    ensures HasAll(s, threshold, fs, AddEdge(g, fs[i], fs[j]), i, j + 1)
  {
    var g' := AddEdge(g, fs[i], fs[j]);
    forall k: nat, l: nat | Joined(s, threshold, fs, k, l) && (k < i || (k == i && l < j + 1))
      ensures (fs[k], fs[l]) in g'.edges
    {
      hide Over, Joined;
      if k == i && l == j {
      } else {
        assert (fs[k], fs[l]) in g.edges;
      }
    }
  }

  lemma AddedOnly(s: Scores, threshold: real, fs: seq<string>, g: Graph, i: nat, j: nat)
    requires s.Valid() && Joined(s, threshold, fs, i, j) && OnlyJoined(s, threshold, fs, g)
    ensures OnlyJoined(s, threshold, fs, AddEdge(g, fs[i], fs[j]))
  {
    assert IsJoined(s, threshold, fs, (fs[i], fs[j])) && IsJoined(s, threshold, fs, (fs[j], fs[i]));
    hide IsJoined, Joined;
  }

  lemma AddedProper(g: Graph, x: string, y: string)
    requires Proper(g)
    ensures Proper(AddEdge(g, x, y))
  {
    var g' := AddEdge(g, x, y);
    forall a | a in g'.nodes ensures HasEdge(g', a) {
      StillHasEdge(g, x, y, a);
    }
  }

  lemma StillHasEdge(g: Graph, x: string, y: string, a: string)
    requires a == x || a == y || HasEdge(g, a)
    ensures HasEdge(AddEdge(g, x, y), a)
  {
    var b := if a == x then y else if a == y then x else var b :| (a, b) in g.edges; b;
    assert (a, b) in AddEdge(g, x, y).edges;
  }

  /** A pair that is not joined adds nothing. */
  lemma Skipped(s: Scores, threshold: real, fs: seq<string>, g: Graph, i: nat, j: nat)
    requires s.Valid() && !Joined(s, threshold, fs, i, j) && Built(s, threshold, fs, g, i, j)
    ensures Built(s, threshold, fs, g, i, j + 1)
  {}

  /** Nothing is joined from `i` to a position up to `i`, or beyond the list. */
  lemma RowStarts(s: Scores, threshold: real, fs: seq<string>, g: Graph, i: nat)
    requires s.Valid() && Built(s, threshold, fs, g, i, 0)
    ensures Built(s, threshold, fs, g, i, i + 1)
  {}

  lemma RowEnds(s: Scores, threshold: real, fs: seq<string>, g: Graph, i: nat)
    requires s.Valid() && i < |fs|
    requires Built(s, threshold, fs, g, i, |fs|) || (fs[i] !in s.index && Built(s, threshold, fs, g, i, i + 1))
    ensures Built(s, threshold, fs, g, i + 1, 0)
  {}

  ghost predicate Distinct(fs: seq<string>) {
    forall i, j :: 0 <= i < j < |fs| ==> fs[i] != fs[j]
  }

  function Members(fs: seq<string>): set<string> {
    set f | f in fs
  }

  /** The scores agree on which of the given fingerprints are linked, in both directions. */
  ghost predicate SymmetricOn(s: Scores, threshold: real, names: set<string>)
    requires s.Valid()
  {
    forall f, g :: f in names && g in names && f != g ==> Over(s, threshold, f, g) == Over(s, threshold, g, f)
  }

  ghost predicate IsGraphOf(s: Scores, threshold: real, fs: seq<string>, g: Graph)
    requires s.Valid()
  {
    if |fs| == 1 then g == Graph({fs[0]}, {}) else Built(s, threshold, fs, g, |fs|, 0)
  }

  /** The edges of a built graph, when the list has no duplicates: the later of two
      fingerprints is looked up in the row of the earlier one. */
  lemma BuiltEdge(s: Scores, threshold: real, fs: seq<string>, g: Graph, i: nat, j: nat)
    requires s.Valid() && Distinct(fs) && Built(s, threshold, fs, g, |fs|, 0) && i < j < |fs|
    ensures (fs[i], fs[j]) in g.edges <==> Over(s, threshold, fs[i], fs[j])
  {
    if (fs[i], fs[j]) in g.edges {
      assert IsJoined(s, threshold, fs, (fs[i], fs[j]));
      var k: nat, l: nat :| Joined(s, threshold, fs, k, l)
                  && ((fs[i], fs[j]) == (fs[k], fs[l]) || (fs[i], fs[j]) == (fs[l], fs[k]));
      assert fs[k] in {fs[i], fs[j]};
      assert k == i && l == j;
    }
    if Over(s, threshold, fs[i], fs[j]) {
      assert Joined(s, threshold, fs, i, j);
    }
  }

  /** With symmetric scores, two fingerprints are joined exactly when their score exceeds
      the threshold, wherever they stand in the list. */
  lemma EdgeIffOver(s: Scores, threshold: real, fs: seq<string>, g: Graph, a: string, b: string)
    requires s.Valid() && Distinct(fs) && |fs| != 1 && IsGraphOf(s, threshold, fs, g)
    requires SymmetricOn(s, threshold, Members(fs))
    ensures (a, b) in g.edges
       <==> a != b && a in fs && b in fs && a in s.index && b in s.index
            && s.values[s.index[a]][s.index[b]] > threshold
  {
    hide IsGraphOf, SymmetricOn;
    if (a, b) in g.edges {
      EdgeIsOver(s, threshold, fs, g, a, b);
    }
    if OverPair(s, threshold, fs, a, b) {
      OverIsEdge(s, threshold, fs, g, a, b);
    }
  }

  lemma EdgeIsOver(s: Scores, threshold: real, fs: seq<string>, g: Graph, a: string, b: string)
    requires s.Valid() && Distinct(fs) && |fs| != 1 && IsGraphOf(s, threshold, fs, g)
    requires SymmetricOn(s, threshold, Members(fs)) && (a, b) in g.edges
    ensures OverPair(s, threshold, fs, a, b)
  {
    assert IsJoined(s, threshold, fs, (a, b));
    hide IsGraphOf, Over;
    var k: nat, l: nat :| Joined(s, threshold, fs, k, l)
                  && ((a, b) == (fs[k], fs[l]) || (a, b) == (fs[l], fs[k]));
    assert a in Members(fs) && b in Members(fs);
  }

  lemma OverIsEdge(s: Scores, threshold: real, fs: seq<string>, g: Graph, a: string, b: string)
    requires s.Valid() && Distinct(fs) && |fs| != 1 && IsGraphOf(s, threshold, fs, g)
    requires SymmetricOn(s, threshold, Members(fs)) && OverPair(s, threshold, fs, a, b)
    ensures (a, b) in g.edges
  {
    assert a in Members(fs) && b in Members(fs);
    var i :| 0 <= i < |fs| && fs[i] == a;
    var j :| 0 <= j < |fs| && fs[j] == b;
    var k, l := if i < j then i else j, if i < j then j else i;
    assert Joined(s, threshold, fs, k, l);
    hide Over, Joined, OnlyJoined;
    assert (fs[k], fs[l]) in g.edges;
  }

  function Reverse(fs: seq<string>): (r: seq<string>)
    ensures |r| == |fs| && forall k :: 0 <= k < |fs| ==> r[k] == fs[|fs| - 1 - k]
  {
    seq(|fs|, k requires 0 <= k < |fs| => fs[|fs| - 1 - k])
  }

  /** Order does not matter if and only if the scores are symmetric on the fingerprints:
      with symmetric scores all orders give one graph, and otherwise already turning the
      list around gives another. */
  lemma OrderIndependentIff(s: Scores, threshold: real, fs: seq<string>, g: Graph, gr: Graph)
    requires s.Valid() && Distinct(fs) && |fs| != 1
    requires IsGraphOf(s, threshold, fs, g) && IsGraphOf(s, threshold, Reverse(fs), gr)
    ensures SymmetricOn(s, threshold, Members(fs)) <==> g == gr
    ensures SymmetricOn(s, threshold, Members(fs)) ==>
              forall fs', g' | Distinct(fs') && Members(fs') == Members(fs) && |fs'| == |fs|
                               && IsGraphOf(s, threshold, fs', g') :: g' == g
  {
    assert Members(Reverse(fs)) == Members(fs) by { ReverseMembers(fs); }
    if SymmetricOn(s, threshold, Members(fs)) {
      forall fs', g' | Distinct(fs') && Members(fs') == Members(fs) && |fs'| == |fs| && IsGraphOf(s, threshold, fs', g')
        ensures g' == g
      {
        SameGraph(s, threshold, fs, g, fs', g');
      }
      SameGraph(s, threshold, fs, g, Reverse(fs), gr);
    } else {
      AsymmetryShows(s, threshold, fs, g, gr);
    }
  }

  lemma ReverseMembers(fs: seq<string>)
    ensures Members(Reverse(fs)) == Members(fs)
    ensures Distinct(fs) ==> Distinct(Reverse(fs))
  {
    var r := Reverse(fs);
    forall f | f in fs ensures f in r {
      var k :| 0 <= k < |fs| && fs[k] == f;
      assert r[|fs| - 1 - k] == f;
    }
  }

  lemma SameGraph(s: Scores, threshold: real, fs: seq<string>, g: Graph, fs': seq<string>, g': Graph)
    requires s.Valid() && Distinct(fs) && Distinct(fs') && |fs| == |fs'| != 1 && Members(fs) == Members(fs')
    requires SymmetricOn(s, threshold, Members(fs))
    requires IsGraphOf(s, threshold, fs, g) && IsGraphOf(s, threshold, fs', g')
    ensures g == g'
  {
    forall a, b ensures (a, b) in g.edges <==> (a, b) in g'.edges {
      assert a in fs <==> a in Members(fs);
      assert b in fs <==> b in Members(fs);
      assert a in fs' <==> a in Members(fs');
      assert b in fs' <==> b in Members(fs');
      EdgeIffOver(s, threshold, fs, g, a, b);
      EdgeIffOver(s, threshold, fs', g', a, b);
    }
    assert g.edges == g'.edges;
    assert g.nodes == g'.nodes;
  }

  lemma AsymmetryShows(s: Scores, threshold: real, fs: seq<string>, g: Graph, gr: Graph)
    requires s.Valid() && Distinct(fs) && |fs| != 1 && !SymmetricOn(s, threshold, Members(fs))
    requires IsGraphOf(s, threshold, fs, g) && IsGraphOf(s, threshold, Reverse(fs), gr)
    ensures g != gr
  {
    hide *;
    var i, j := AsymmetricPair(s, threshold, fs);
    ForwardEdge(s, threshold, fs, g, i, j);
    BackwardEdge(s, threshold, fs, gr, i, j);
  }

  lemma ForwardEdge(s: Scores, threshold: real, fs: seq<string>, g: Graph, i: nat, j: nat)
    requires s.Valid() && Distinct(fs) && |fs| != 1 && IsGraphOf(s, threshold, fs, g) && i < j < |fs|
    ensures (fs[i], fs[j]) in g.edges <==> Over(s, threshold, fs[i], fs[j])
  {
    hide Built, Over;
    BuiltEdge(s, threshold, fs, g, i, j);
  }

  /** In the reversed list the pair is looked up the other way round. */
  lemma BackwardEdge(s: Scores, threshold: real, fs: seq<string>, gr: Graph, i: nat, j: nat)
    requires s.Valid() && Distinct(fs) && |fs| != 1 && IsGraphOf(s, threshold, Reverse(fs), gr) && i < j < |fs|
    ensures (fs[i], fs[j]) in gr.edges <==> Over(s, threshold, fs[j], fs[i])
  {
    hide Built, Over, HasAll, OnlyJoined;
    var n, r := |fs|, Reverse(fs);
    ReverseMembers(fs);
    BuiltEdge(s, threshold, r, gr, n - 1 - j, n - 1 - i);
    assert r[n - 1 - j] == fs[j] && r[n - 1 - i] == fs[i];
    BothWays(s, threshold, r, gr, fs[i], fs[j]);
  }

  lemma BothWays(s: Scores, threshold: real, fs: seq<string>, g: Graph, a: string, b: string)
    requires s.Valid() && Built(s, threshold, fs, g, |fs|, 0)
    ensures (a, b) in g.edges <==> (b, a) in g.edges
  {}

  lemma AsymmetricPair(s: Scores, threshold: real, fs: seq<string>) returns (i: nat, j: nat)
    requires s.Valid() && !SymmetricOn(s, threshold, Members(fs))
    ensures i < j < |fs| && Over(s, threshold, fs[i], fs[j]) != Over(s, threshold, fs[j], fs[i])
  {
    var a, b :| a in Members(fs) && b in Members(fs) && a != b && Over(s, threshold, a, b) != Over(s, threshold, b, a);
    var k :| 0 <= k < |fs| && fs[k] == a;
    var l :| 0 <= l < |fs| && fs[l] == b;
    i, j := if k < l then k else l, if k < l then l else k;
  }

  /** The score of a with b is over the threshold, that of b with a is not. */
  const Lopsided: Scores := Scores(map["a" := 0, "b" := 1], [[1.0, 1.0], [0.0, 1.0]])

  /** Then the two orders of the list give different graphs. */
  lemma OrderChangesGraph(g: Graph, gr: Graph)
    requires IsGraphOf(Lopsided, 0.5, ["a", "b"], g) && IsGraphOf(Lopsided, 0.5, ["b", "a"], gr)
    ensures g != gr
  {
    var fs := ["a", "b"];
    assert Reverse(fs) == ["b", "a"];
    assert fs[0] in fs && fs[1] in fs;
    assert "a" in Members(fs) && "b" in Members(fs);
    assert Over(Lopsided, 0.5, "a", "b") && !Over(Lopsided, 0.5, "b", "a");
    hide IsGraphOf;
    AsymmetryShows(Lopsided, 0.5, fs, g, gr);
  }

  // ---- Components ----

  /** A path through the graph from its first node to its last. */
  ghost predicate Path(g: Graph, path: seq<string>) {
    path != [] && path[0] in g.nodes && forall k :: 0 <= k < |path| - 1 ==> (path[k], path[k + 1]) in g.edges
  }

  ghost predicate Linked(g: Graph, a: string, b: string) {
    exists path :: Path(g, path) && path[0] == a && path[|path| - 1] == b
  }

  ghost function Component(g: Graph, a: string): set<string> {
    set b | b in g.nodes && Linked(g, a, b)
  }

  /** `nx.connected_components`, as a set. */
  ghost function Components(g: Graph): set<set<string>> {
    set a | a in g.nodes :: Component(g, a)
  }

  /** Some component holds both. */
  ghost predicate Share(g: Graph, a: string, b: string) {
    exists x :: x in g.nodes && a in Component(g, x) && b in Component(g, x)
  }

  lemma LinkedSelf(g: Graph, a: string)
    requires a in g.nodes
    ensures Linked(g, a, a)
  {
    assert Path(g, [a]);
  }

  lemma LinkedBack(g: Graph, a: string, b: string)
    requires Closed(g) && Linked(g, a, b)
    ensures Linked(g, b, a) && b in g.nodes
  {
    var path :| Path(g, path) && path[0] == a && path[|path| - 1] == b;
    var back := seq(|path|, k requires 0 <= k < |path| => path[|path| - 1 - k]);
    PathInside(g, path, |path| - 1);
    forall k | 0 <= k < |back| - 1 ensures (back[k], back[k + 1]) in g.edges {
      var i := |path| - 2 - k;
      assert (path[i], path[i + 1]) in g.edges;
    }
    assert Path(g, back);
  }

  lemma {:induction false} PathInside(g: Graph, path: seq<string>, k: nat)
    requires Closed(g) && Path(g, path) && k < |path|
    ensures path[k] in g.nodes
  {
    if k > 0 {
      assert (path[k - 1], path[k - 1 + 1]) in g.edges;
    }
  }

  lemma LinkedOn(g: Graph, a: string, b: string, c: string)
    requires Linked(g, a, b) && Linked(g, b, c)
    ensures Linked(g, a, c)
  {
    var p :| Path(g, p) && p[0] == a && p[|p| - 1] == b;
    var q :| Path(g, q) && q[0] == b && q[|q| - 1] == c;
    var r := p + q[1..];
    forall k | 0 <= k < |r| - 1 ensures (r[k], r[k + 1]) in g.edges {
      if k < |p| - 1 {
        assert (p[k], p[k + 1]) in g.edges;
      } else {
        var i := k - (|p| - 1);
        assert r[k] == q[i] && r[k + 1] == q[i + 1] && (q[i], q[i + 1]) in g.edges;
      }
    }
    assert Path(g, r);
  }

  /** Two nodes lie in one component exactly when a path joins them; so components that
      share a node are the same. */
  lemma ShareComponentIff(g: Graph, a: string, b: string)
    requires Closed(g)
    ensures Share(g, a, b) <==> a in g.nodes && Linked(g, a, b)
  {
    if Share(g, a, b) {
      var x :| x in g.nodes && a in Component(g, x) && b in Component(g, x);
      LinkedBack(g, x, a);
      LinkedOn(g, a, x, b);
    }
    if a in g.nodes && Linked(g, a, b) {
      LinkedBack(g, a, b);
      LinkedSelf(g, a);
      assert a in Component(g, a) && b in Component(g, a);
    }
  }

  lemma ComponentsDisjoint(g: Graph, c: set<string>, d: set<string>, x: string)
    requires Closed(g) && c in Components(g) && d in Components(g) && x in c && x in d
    ensures c == d
  {
    var a :| a in g.nodes && c == Component(g, a);
    var b :| b in g.nodes && d == Component(g, b);
    forall y ensures y in c <==> y in d {
      if y in c {
        LinkedBack(g, a, x);
        LinkedOn(g, x, a, y);
        LinkedOn(g, b, x, y);
      }
      if y in d {
        LinkedBack(g, b, x);
        LinkedOn(g, x, b, y);
        LinkedOn(g, a, x, y);
      }
    }
  }

  /** Two different fingerprints of the list that score over the threshold. */
  predicate OverPair(s: Scores, threshold: real, fs: seq<string>, a: string, b: string)
    requires s.Valid()
  {
    a in fs && b in fs && a != b && Over(s, threshold, a, b)
  }

  /** A chain of fingerprints of the list in which each pair of neighbours scores over
      the threshold. */
  ghost predicate OverChain(s: Scores, threshold: real, fs: seq<string>, path: seq<string>)
    requires s.Valid()
  {
    |path| >= 2 && forall k :: 0 <= k < |path| - 1 ==> OverPair(s, threshold, fs, path[k], path[k + 1])
  }

  ghost predicate Chained(s: Scores, threshold: real, fs: seq<string>, a: string, b: string)
    requires s.Valid()
  {
    exists path :: OverChain(s, threshold, fs, path) && path[0] == a && path[|path| - 1] == b
  }

  /** Components are right: two fingerprints share one if and only if a chain of
      over-threshold pairs leads from one to the other; in particular a fingerprint with
      no such pair is in none. */
  lemma ComponentsAreChains(s: Scores, threshold: real, fs: seq<string>, g: Graph, a: string, b: string)
    requires s.Valid() && Distinct(fs) && |fs| != 1 && IsGraphOf(s, threshold, fs, g)
    requires SymmetricOn(s, threshold, Members(fs))
    ensures Share(g, a, b) <==> Chained(s, threshold, fs, a, b)
  {
    ShareComponentIff(g, a, b);
    if Chained(s, threshold, fs, a, b) {
      ChainLinks(s, threshold, fs, g, a, b);
    }
    if a in g.nodes && Linked(g, a, b) {
      LinkChains(s, threshold, fs, g, a, b);
    }
  }

  lemma ChainLinks(s: Scores, threshold: real, fs: seq<string>, g: Graph, a: string, b: string)
    requires s.Valid() && Distinct(fs) && |fs| != 1 && IsGraphOf(s, threshold, fs, g)
    requires SymmetricOn(s, threshold, Members(fs)) && Chained(s, threshold, fs, a, b)
    ensures a in g.nodes && Linked(g, a, b)
  {
    var path :| OverChain(s, threshold, fs, path) && path[0] == a && path[|path| - 1] == b;
    forall k | 0 <= k < |path| - 1 ensures (path[k], path[k + 1]) in g.edges {
      EdgeIffOver(s, threshold, fs, g, path[k], path[k + 1]);
    }
    assert (path[0], path[0 + 1]) in g.edges;
    assert HasEdge(g, a);
    assert Path(g, path);
  }

  lemma LinkChains(s: Scores, threshold: real, fs: seq<string>, g: Graph, a: string, b: string)
    requires s.Valid() && Distinct(fs) && |fs| != 1 && IsGraphOf(s, threshold, fs, g)
    requires SymmetricOn(s, threshold, Members(fs)) && a in g.nodes && Linked(g, a, b)
    ensures Chained(s, threshold, fs, a, b)
  {
    hide Built, SymmetricOn, Over;
    GraphProper(s, threshold, fs, g);
    var path := LongPath(g, a, b);
    forall k | 0 <= k < |path| - 1 ensures OverPair(s, threshold, fs, path[k], path[k + 1]) {
      assert (path[k], path[k + 1]) in g.edges;
      EdgeIsOver(s, threshold, fs, g, path[k], path[k + 1]);
    }
    assert OverChain(s, threshold, fs, path);
  }

  lemma GraphProper(s: Scores, threshold: real, fs: seq<string>, g: Graph)
    requires s.Valid() && |fs| != 1 && IsGraphOf(s, threshold, fs, g)
    ensures Proper(g)
  {}

  /** A node by itself still has a neighbour: go there and back. */
  lemma LongPath(g: Graph, a: string, b: string) returns (path: seq<string>)
    requires Proper(g) && a in g.nodes && Linked(g, a, b)
    ensures |path| >= 2 && Path(g, path) && path[0] == a && path[|path| - 1] == b
  {
    path :| Path(g, path) && path[0] == a && path[|path| - 1] == b;
    if |path| == 1 {
      assert HasEdge(g, a);
      var n :| (a, n) in g.edges;
      path := [a, n, a];
    }
  }
}
