// The shape of the flattened workflow's edge list. A block is a stretch of node
// ids with the edges that leave them; blocks compose in sequence and by forking.
module FlowGraph {
  import opened Wrappers
  import opened FlowModel
  import opened FlowShape

  /** `ids` in node order, the labels of the edges leaving each, and the edges. */
  datatype Block = Block(ids: seq<string>, outs: seq<seq<Option<string>>>, edges: seq<Edge>)

  function Total(outs: seq<seq<Option<string>>>): nat {
    if outs == [] then 0 else |outs[0]| + Total(outs[1..])
  }

  lemma {:induction false} TotalConcat(a: seq<seq<Option<string>>>, b: seq<seq<Option<string>>>)
    ensures Total(a + b) == Total(a) + Total(b)
  {
    if a == [] {
      assert a + b == b;
    } else {
      assert (a + b)[1..] == a[1..] + b;
      TotalConcat(a[1..], b);
    }
  }

  ghost predicate Leaves(b: Block) {
    |b.outs| == |b.ids| && forall k :: 0 <= k < |b.ids| ==> Out(b.edges, b.ids[k]) == b.outs[k]
  }

  /** The block's edges go forward along its ids and on to `next`, enter every id but
      the first and enter `next`, and leave each id as `outs` says. */
  ghost predicate Good(b: Block, next: string) {
    && |b.outs| == |b.ids| && |b.edges| == Total(b.outs)
    && AllForward(b.edges, b.ids + [next])
    && AllEntered(b.edges, b.ids + [next])
    && (Distinct(b.ids) ==> Leaves(b))
  }

  /** The id a block starts with; an empty block starts with what follows it. */
  function First(b: Block, next: string): string {
    (b.ids + [next])[0]
  }

  function Then(a: Block, b: Block): Block {
    Block(a.ids + b.ids, a.outs + b.outs, a.edges + b.edges)
  }

  function Unit(id: string, next: string): Block {
    Block([id], [[None]], [Edge(id, next, None)])
  }

  function Fork(start: string, f: Block, t: Block, end: string, next: string): Block {
    Block([start] + f.ids + t.ids + [end],
          [[Some("False"), Some("True")]] + f.outs + t.outs + [[None]],
          [Edge(start, First(f, end), Some("False"))] + f.edges
          + ([Edge(start, First(t, end), Some("True"))] + t.edges)
          + [Edge(end, next, None)])
  }

  lemma UnitGood(id: string, next: string)
    ensures Good(Unit(id, next), next)
  {
    var b := Unit(id, next);
    ForwardAt(b.edges[0], b.ids + [next], 0, 1);
    assert b.edges[0] in b.edges;
    assert b.edges[1..] == [] && b.outs[1..] == [];
  }

  lemma ThenGood(a: Block, b: Block, next: string)
    requires Good(a, First(b, next)) && Good(b, next)
    ensures Good(Then(a, b), next)
  {
    hide Leaves, Distinct, Entered;
    var c := Then(a, b);
    var mid, line := First(b, next), c.ids + [next];
    TotalConcat(a.outs, b.outs);
    assert AllForward(c.edges, line) by {
      assert line == [] + (a.ids + [mid]) + (b.ids + [next])[1..];
      AllForwardStays(a.edges, [], a.ids + [mid], (b.ids + [next])[1..]);
      assert line == a.ids + (b.ids + [next]) + [];
      AllForwardStays(b.edges, a.ids, b.ids + [next], []);
    }
    assert AllEntered(c.edges, line) by {
      forall k | 1 <= k < |line| ensures Entered(c.edges, line[k]) {
        EnteredEither(a.edges, b.edges, line[k]);
        if k <= |a.ids| {
          assert line[k] == (a.ids + [mid])[k];
        } else {
          assert line[k] == (b.ids + [next])[k - |a.ids|];
        }
      }
    }
    if Distinct(c.ids) {
      ThenLeaves(a, b, next);
    }
  }

  lemma EnteredEither(a: seq<Edge>, b: seq<Edge>, id: string)
    ensures Entered(a, id) || Entered(b, id) ==> Entered(a + b, id)
  {}

  lemma ThenLeaves(a: Block, b: Block, next: string)
    requires Good(a, First(b, next)) && Good(b, next) && Distinct(Then(a, b).ids)
    ensures Leaves(Then(a, b))
  {
    var c := Then(a, b);
    assert c.ids == [] + a.ids + b.ids && c.ids == a.ids + b.ids + [];
    DistinctPart(c.ids, [], a.ids, b.ids);
    DistinctPart(c.ids, a.ids, b.ids, []);
    hide Out, AllEntered, Total, Distinct;
    forall k | 0 <= k < |c.ids| ensures Out(c.edges, c.ids[k]) == c.outs[k] {
      OutConcat(a.edges, b.edges, c.ids[k]);
      if k < |a.ids| {
        assert c.ids[k] == a.ids[k] && a.ids[k] in a.ids;
        NoneOut(b.edges, b.ids, next, c.ids[k]);
      } else {
        assert c.ids[k] == b.ids[k - |a.ids|] && b.ids[k - |a.ids|] in b.ids;
        NoneOut(a.edges, a.ids, First(b, next), c.ids[k]);
      }
    }
  }

  lemma ForkGood(start: string, f: Block, t: Block, end: string, next: string)
    requires Good(f, end) && Good(t, end)
    ensures Good(Fork(start, f, t, end, next), next)
  {
    var c := Fork(start, f, t, end, next);
    ForkTotal(start, f, t, end, next);
    ForkForward(start, f, t, end, next);
    ForkEntered(start, f, t, end, next);
    if Distinct(c.ids) {
      ForkLeaves(start, f, t, end, next);
    }
  }

  lemma ForkTotal(start: string, f: Block, t: Block, end: string, next: string)
    requires Good(f, end) && Good(t, end)
    ensures var c := Fork(start, f, t, end, next); |c.outs| == |c.ids| && |c.edges| == Total(c.outs)
  {
    var head: seq<seq<Option<string>>>, last: seq<seq<Option<string>>> := [[Some("False"), Some("True")]], [[None]];
    TotalConcat(head + f.outs + t.outs, last);
    TotalConcat(head + f.outs, t.outs);
    TotalConcat(head, f.outs);
    assert head[1..] == [] && last[1..] == [];
  }

  lemma ForkForward(start: string, f: Block, t: Block, end: string, next: string)
    requires Good(f, end) && Good(t, end)
    ensures var c := Fork(start, f, t, end, next); AllForward(c.edges, c.ids + [next])
  {
    var line := [start] + f.ids + t.ids + [end] + [next];
    ForkBranchesForward(start, f, t, end, next);
    var n, m := |f.ids|, |f.ids| + |t.ids| + 1;
    ForwardAt(Edge(start, First(f, end), Some("False")), line, 0, if f.ids == [] then m else 1);
    ForwardAt(Edge(start, First(t, end), Some("True")), line, 0, n + 1);
    ForwardAt(Edge(end, next, None), line, m, m + 1);
    hide Forward, Good;
  }

  lemma ForkBranchesForward(start: string, f: Block, t: Block, end: string, next: string)
    requires Good(f, end) && Good(t, end)
    ensures AllForward(f.edges, [start] + f.ids + t.ids + [end] + [next])
    ensures AllForward(t.edges, [start] + f.ids + t.ids + [end] + [next])
  {
    var line := [start] + f.ids + t.ids + [end] + [next];
    hide AllForward;
    AllForwardStays(f.edges, f.ids, t.ids, [end]);
    assert f.ids + t.ids + [end] == f.ids + (t.ids + [end]);
    AllForwardStays(f.edges, [start], f.ids + t.ids + [end], [next]);
    assert line == [start] + (f.ids + t.ids + [end]) + [next];
    AllForwardStays(t.edges, [start] + f.ids, t.ids + [end], [next]);
    assert line == ([start] + f.ids) + (t.ids + [end]) + [next];
  }

  lemma EnteredBy(edges: seq<Edge>, e: Edge)
    requires e in edges
    ensures Entered(edges, e.target)
  {}

  lemma ForkEntered(start: string, f: Block, t: Block, end: string, next: string)
    requires Good(f, end) && Good(t, end)
    ensures var c := Fork(start, f, t, end, next); AllEntered(c.edges, c.ids + [next])
  {
    hide AllForward, Leaves, Total, Distinct;
    var c := Fork(start, f, t, end, next);
    var line := c.ids + [next];
    EnteredBy(c.edges, Edge(start, First(f, end), Some("False")));
    EnteredBy(c.edges, Edge(start, First(t, end), Some("True")));
    EnteredBy(c.edges, Edge(end, next, None));
    forall k | 1 <= k < |line| ensures Entered(c.edges, line[k]) {
      if 2 <= k <= |f.ids| {
        assert line[k] == (f.ids + [end])[k - 1] && Entered(f.edges, line[k]);
      } else if |f.ids| + 2 <= k <= |f.ids| + |t.ids| + 1 {
        assert line[k] == (t.ids + [end])[k - 1 - |f.ids|] && Entered(t.edges, line[k]);
      }
    }
  }

  lemma DistinctPart(line: seq<string>, a: seq<string>, b: seq<string>, c: seq<string>)
    requires line == a + b + c && Distinct(line)
    ensures Distinct(b)
    ensures forall id :: id in b ==> id !in a && id !in c
  {
    forall i, j | 0 <= i < j < |b| ensures b[i] != b[j] {
      assert line[|a| + i] != line[|a| + j];
    }
    forall id | id in b ensures id !in a && id !in c {
      var k :| 0 <= k < |b| && b[k] == id;
      assert line[|a| + k] == id;
      assert forall i :: 0 <= i < |a| ==> line[i] == a[i];
      assert forall i :: 0 <= i < |c| ==> line[|a| + |b| + i] == c[i];
    }
  }

  lemma ForkLeaves(start: string, f: Block, t: Block, end: string, next: string)
    requires Good(f, end) && Good(t, end) && Distinct(Fork(start, f, t, end, next).ids)
    ensures Leaves(Fork(start, f, t, end, next))
  {
    hide Out, Good, Distinct;
    var c := Fork(start, f, t, end, next);
    ForkApart(start, f, t, end);
    OutsMatch(f, end);
    OutsMatch(t, end);
    forall k | 0 <= k < |c.ids| ensures Out(c.edges, c.ids[k]) == c.outs[k] {
      ForkLeavesAt(start, f, t, end, next, k);
    }
  }

  lemma OutsMatch(b: Block, next: string)
    requires Good(b, next)
    ensures |b.outs| == |b.ids|
  {}

  /** The start, the two branches and the end share no id. */
  lemma ForkApart(start: string, f: Block, t: Block, end: string)
    requires Distinct([start] + f.ids + t.ids + [end])
    ensures Distinct(f.ids) && Distinct(t.ids)
    ensures start != end && start !in f.ids && start !in t.ids && end !in f.ids && end !in t.ids
    ensures forall id :: id in f.ids ==> id !in t.ids
  {
    var ids := [start] + f.ids + t.ids + [end];
    assert ids == [] + [start] + (f.ids + t.ids + [end]);
    DistinctPart(ids, [], [start], f.ids + t.ids + [end]);
    assert start in [start] && end in f.ids + t.ids + [end];
    assert ids == [start] + f.ids + (t.ids + [end]);
    DistinctPart(ids, [start], f.ids, t.ids + [end]);
    DistinctPart(ids, [start] + f.ids, t.ids, [end]);
    hide Distinct;
  }

  lemma ForkLeavesAt(start: string, f: Block, t: Block, end: string, next: string, k: nat)
    requires Good(f, end) && Good(t, end) && Distinct([start] + f.ids + t.ids + [end])
    requires k < |Fork(start, f, t, end, next).ids| == |Fork(start, f, t, end, next).outs|
    ensures Out(Fork(start, f, t, end, next).edges, Fork(start, f, t, end, next).ids[k]) == Fork(start, f, t, end, next).outs[k]
  {
    var c := Fork(start, f, t, end, next);
    var id := c.ids[k];
    var e, g, h := Edge(start, First(f, end), Some("False")), Edge(start, First(t, end), Some("True")), Edge(end, next, None);
    ForkApart(start, f, t, end);
    ForkOut(e, f.edges, g, t.edges, h, id);
    BranchOut(f, end, id);
    BranchOut(t, end, id);
    hide Out, Good, Distinct, First;
    var n := |f.ids|;
    if k == 0 {
    } else if k <= n {
      assert id == f.ids[k - 1] && id in f.ids && c.outs[k] == f.outs[k - 1];
    } else if k <= n + |t.ids| {
      assert id == t.ids[k - 1 - n] && id in t.ids && c.outs[k] == t.outs[k - 1 - n];
    }
  }

  /** A branch's edges leave its own ids as it says, and no other. */
  lemma BranchOut(b: Block, next: string, id: string)
    requires Good(b, next) && Distinct(b.ids)
    ensures |b.outs| == |b.ids|
    ensures id !in b.ids ==> Out(b.edges, id) == []
    ensures forall k :: 0 <= k < |b.ids| && b.ids[k] == id ==> Out(b.edges, id) == b.outs[k]
  {
    hide Out;
    if id !in b.ids {
      NoneOut(b.edges, b.ids, next, id);
    }
  }

  function Tag(e: Edge, id: string): seq<Option<string>> {
    if e.source == id then [e.tag] else []
  }

  lemma ForkOut(e: Edge, es: seq<Edge>, g: Edge, gs: seq<Edge>, h: Edge, id: string)
    ensures Out([e] + es + ([g] + gs) + [h], id)
         == Tag(e, id) + Out(es, id) + (Tag(g, id) + Out(gs, id)) + Tag(h, id)
  {
    OutConcat([e] + es + ([g] + gs), [h], id);
    OutConcat([e] + es, [g] + gs, id);
    OutConcat([e], es, id);
    OutConcat([g], gs, id);
    assert [e][1..] == [] && [g][1..] == [] && [h][1..] == [];
  }

  /** A good block with distinct ids, each with an edge out, is a connected acyclic
      graph from its first id to the id after it. */
  lemma ClosedGraph(b: Block, end: string)
    requires Good(b, end) && Distinct(b.ids + [end])
    requires forall k :: 0 <= k < |b.outs| ==> b.outs[k] != []
    ensures var line := b.ids + [end];
            && Leaves(b) && AllForward(b.edges, line) && |b.edges| == Total(b.outs) && |b.outs| == |b.ids|
            && Out(b.edges, end) == []
            && (forall k :: 0 <= k < |line| ==> Connected(b.edges, line[0], line[k]) && Connected(b.edges, line[k], end))
            && Acyclic(b.edges)
  {
    var line := b.ids + [end];
    DistinctPart(line, [], b.ids, [end]);
    assert end !in b.ids;
    NoneOut(b.edges, b.ids, end, end);
    assert forall k :: 0 <= k < |line| - 1 ==> Out(b.edges, line[k]) == b.outs[k];
    hide Connected, Acyclic;
    AllReached(b.edges, line);
    AllReach(b.edges, line);
    ForwardIsAcyclic(b.edges, line);
  }
}
