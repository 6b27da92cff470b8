// The edge list of a flattened workflow is a series-parallel graph: it only goes
// forward, every node but the last leads somewhere, and conditions fork in two.
module FlowShape {
  import opened Wrappers
  import opened FlowModel

  // ---- Graphs over a line of node ids ----

  /** The edge goes from one place on the line to a later one. */
  ghost predicate Forward(e: Edge, line: seq<string>) {
    exists i, j :: 0 <= i < j < |line| && line[i] == e.source && line[j] == e.target
  }

  ghost predicate AllForward(edges: seq<Edge>, line: seq<string>) {
    forall e :: e in edges ==> Forward(e, line)
  }

  ghost predicate Entered(edges: seq<Edge>, id: string) {
    exists e :: e in edges && e.target == id
  }

  /** Every id on the line but the first is the target of an edge. */
  ghost predicate AllEntered(edges: seq<Edge>, line: seq<string>) {
    forall k :: 1 <= k < |line| ==> Entered(edges, line[k])
  }

  ghost predicate Distinct(line: seq<string>) {
    forall i, j :: 0 <= i < j < |line| ==> line[i] != line[j]
  }

  /** The labels of the edges that leave `id`, in order. */
  function Out(edges: seq<Edge>, id: string): seq<Option<string>> {
    if edges == [] then []
    else (if edges[0].source == id then [edges[0].tag] else []) + Out(edges[1..], id)
  }

  ghost predicate Path(edges: seq<Edge>, path: seq<Edge>, a: string, b: string) {
    if path == [] then a == b
    else path[0] in edges && path[0].source == a && Path(edges, path[1..], path[0].target, b)
  }

  ghost predicate Connected(edges: seq<Edge>, a: string, b: string) {
    exists path :: Path(edges, path, a, b)
  }

  /** No path of at least one edge leads back to where it starts. */
  ghost predicate Acyclic(edges: seq<Edge>) {
    forall path, a :: path != [] ==> !Path(edges, path, a, a)
  }

  lemma ForwardAt(e: Edge, line: seq<string>, i: nat, j: nat)
    requires i < j < |line| && line[i] == e.source && line[j] == e.target
    ensures Forward(e, line)
  {}

  /** An edge that goes forward still does when the line is put between others, or
      when something is put into it. */
  lemma ForwardStays(e: Edge, a: seq<string>, b: seq<string>, c: seq<string>)
    ensures Forward(e, b) ==> Forward(e, a + b + c)
    ensures Forward(e, a + c) ==> Forward(e, a + b + c)
  {
    var line := a + b + c;
    if Forward(e, b) {
      var i, j :| 0 <= i < j < |b| && b[i] == e.source && b[j] == e.target;
      ForwardAt(e, line, |a| + i, |a| + j);
    }
    if Forward(e, a + c) {
      var i, j :| 0 <= i < j < |a + c| && (a + c)[i] == e.source && (a + c)[j] == e.target;
      ForwardAt(e, line, if i < |a| then i else i + |b|, if j < |a| then j else j + |b|);
    }
  }

  lemma AllForwardStays(edges: seq<Edge>, a: seq<string>, b: seq<string>, c: seq<string>)
    requires AllForward(edges, b) || AllForward(edges, a + c)
    ensures AllForward(edges, a + b + c)
  {
    forall e | e in edges ensures Forward(e, a + b + c) {
      ForwardStays(e, a, b, c);
    }
  }

  lemma {:induction false} OutConcat(a: seq<Edge>, b: seq<Edge>, id: string)
    ensures Out(a + b, id) == Out(a, id) + Out(b, id)
  {
    hide *;
    if a == [] {
      assert a + b == b && Out(a, id) == [] by { NoOut(id); }
    } else {
      assert (a + b)[0] == a[0] && (a + b)[1..] == a[1..] + b;
      OutFirst(a, id);
      OutFirst(a + b, id);
      OutConcat(a[1..], b, id);
    }
  }

  lemma NoOut(id: string)
    ensures Out([], id) == []
  {}

  lemma OutFirst(edges: seq<Edge>, id: string)
    requires edges != []
    ensures Out(edges, id) == (if edges[0].source == id then [edges[0].tag] else []) + Out(edges[1..], id)
  {}

  /** Edges that go forward on a line have their sources on it, before its last id. */
  lemma {:induction false} NoneOut(edges: seq<Edge>, line: seq<string>, next: string, id: string)
    requires AllForward(edges, line + [next]) && id !in line
    ensures Out(edges, id) == []
  {
    if edges != [] {
      assert edges[0] in edges && Forward(edges[0], line + [next]);
      NoneOut(edges[1..], line, next, id);
    }
  }

  // ---- What such a graph has, whatever it was built from ----

  /** Along a path the place on the line strictly increases; so there is no cycle. */
  lemma {:induction false} PathGoesForward(edges: seq<Edge>, line: seq<string>, path: seq<Edge>, i: nat, b: string)
    requires Distinct(line) && AllForward(edges, line) && i < |line|
    requires Path(edges, path, line[i], b) && path != []
    ensures exists j :: i < j < |line| && line[j] == b
    decreases path
  {
    var e := path[0];
    assert Forward(e, line);
    var i', j' :| 0 <= i' < j' < |line| && line[i'] == e.source && line[j'] == e.target;
    assert i' == i;
    if path[1..] != [] {
      PathGoesForward(edges, line, path[1..], j', b);
    }
  }

  lemma NoCycle(edges: seq<Edge>, line: seq<string>, path: seq<Edge>, a: string)
    requires Distinct(line) && AllForward(edges, line) && path != []
    ensures !Path(edges, path, a, a)
  {
    if Path(edges, path, a, a) {
      assert Forward(path[0], line);
      var i, j :| 0 <= i < j < |line| && line[i] == path[0].source && line[j] == path[0].target;
      PathGoesForward(edges, line, path, i, a);
    }
  }

  lemma {:induction false} PathAppend(edges: seq<Edge>, path: seq<Edge>, a: string, e: Edge)
    requires Path(edges, path, a, e.source) && e in edges
    ensures Path(edges, path + [e], a, e.target)
    decreases path
  {
    if path == [] {
      assert (path + [e])[1..] == [];
    } else {
      assert (path + [e])[1..] == path[1..] + [e];
      PathAppend(edges, path[1..], path[0].target, e);
    }
  }

  /** Every node is reached from the first. */
  lemma {:induction false} Reached(edges: seq<Edge>, line: seq<string>, k: nat) returns (path: seq<Edge>)
    requires AllForward(edges, line) && AllEntered(edges, line) && Distinct(line) && k < |line|
    ensures Path(edges, path, line[0], line[k])
  {
    if k == 0 {
      return [];
    }
    var e :| e in edges && e.target == line[k];
    assert Forward(e, line);
    var i, j :| 0 <= i < j < |line| && line[i] == e.source && line[j] == e.target;
    assert j == k;
    path := Reached(edges, line, i);
    PathAppend(edges, path, line[0], e);
    path := path + [e];
  }

  lemma {:induction false} LeavingEdge(edges: seq<Edge>, id: string) returns (e: Edge)
    requires Out(edges, id) != []
    ensures e in edges && e.source == id
  {
    if edges[0].source == id {
      e := edges[0];
    } else {
      e := LeavingEdge(edges[1..], id);
    }
  }

  /** Every node reaches the last, when every other node has an edge out. */
  lemma {:induction false} Reaches(edges: seq<Edge>, line: seq<string>, k: nat) returns (path: seq<Edge>)
    requires AllForward(edges, line) && Distinct(line) && k < |line|
    requires forall i :: 0 <= i < |line| - 1 ==> Out(edges, line[i]) != []
    ensures Path(edges, path, line[k], line[|line| - 1])
    decreases |line| - k
  {
    if k == |line| - 1 {
      return [];
    }
    var e := LeavingEdge(edges, line[k]);
    assert Forward(e, line);
    var i, j :| 0 <= i < j < |line| && line[i] == e.source && line[j] == e.target;
    assert i == k;
    path := Reaches(edges, line, j);
    path := [e] + path;
  }

  lemma AllReached(edges: seq<Edge>, line: seq<string>)
    requires AllForward(edges, line) && AllEntered(edges, line) && Distinct(line)
    ensures forall k :: 0 <= k < |line| ==> Connected(edges, line[0], line[k])
  {
    forall k | 0 <= k < |line| ensures Connected(edges, line[0], line[k]) {
      var path := Reached(edges, line, k);
    }
  }

  lemma AllReach(edges: seq<Edge>, line: seq<string>)
    requires AllForward(edges, line) && Distinct(line) && line != []
    requires forall i :: 0 <= i < |line| - 1 ==> Out(edges, line[i]) != []
    ensures forall k :: 0 <= k < |line| ==> Connected(edges, line[k], line[|line| - 1])
  {
    forall k | 0 <= k < |line| ensures Connected(edges, line[k], line[|line| - 1]) {
      var path := Reaches(edges, line, k);
    }
  }

  lemma ForwardIsAcyclic(edges: seq<Edge>, line: seq<string>)
    requires AllForward(edges, line) && Distinct(line)
    ensures Acyclic(edges)
  {
    forall path: seq<Edge>, a | path != [] ensures !Path(edges, path, a, a) {
      NoCycle(edges, line, path, a);
    }
  }
}
