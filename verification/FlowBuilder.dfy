// The flattening as the program computes it (keep-ui/utils/reactFlow.ts,
// processWorkflowV2 and the handlers it calls): every branch and loop body is
// wrapped in temporary steps, flattened as a sequence of its own, and the
// resulting edge list is patched. Each method is proved to return `Nodes` and
// `Edges` of FlowModel, which mention no temporary step.
module FlowBuilder {
  import opened Wrappers
  import opened FlowModel

  /** `createCustomEdgeMeta` over one source. */
  method CreateCustomEdges(source: string, targets: seq<string>, tag: Option<string>) returns (edges: seq<Edge>)
    ensures edges == Fan(source, targets, tag)
  {
    edges := [];
    for k := 0 to |targets|
      invariant edges == Fan(source, targets[..k], tag)
    {
      edges := edges + [Edge(source, targets[k], tag)];
    }
    assert targets[..|targets|] == targets;
  }

  method HandleDefaultNode(step: Step, nextNodeId: string) returns (nodes: seq<FlowNode>, edges: seq<Edge>)
    ensures nodes == (if step.stepType == "temp_node" then [] else [DefaultNode(step)])
    ensures edges == DefaultEdges(step, nextNodeId)
  {
    nodes, edges := [], [];
    if step.stepType != "temp_node" {
      nodes := [DefaultNode(step)];
    }
    if step.id != "end" && !step.edgeNotNeeded {
      edges := CreateCustomEdges(step.id, TargetsOf(step, nextNodeId), step.edgeLabel);
    }
  }

  /** A step that emits no node and hands its id on to its neighbours. */
  function TempStep(id: string): Step {
    BasicStep(id, "temp_node", "temp_node", "temp_node", map[])
  }

  function SilentStep(id: string): Step {
    TempStep(id).(edgeNotNeeded := true)
  }

  /** `{ ...node.data, type: 'temp_node', componentType: "temp_node" }` */
  function TempCopy(n: FlowNode): Step {
    n.data.(stepType := "temp_node", componentType := "temp_node")
  }

  /** The steps one branch is flattened as. */
  function Wrapped(s: Step, branch: seq<Step>, kind: string): seq<Step> {
    [TempCopy(SwitchStart(s))] + branch + [EmptyStep(s, kind), TempCopy(SwitchEnd(s))]
  }

  /** The steps a loop is flattened as. */
  function Unrolled(s: Step, prevNodeId: string, nextNodeId: string): seq<Step> {
    [SilentStep(prevNodeId), TempStep(s.id)] + BodyOf(s)
    + [EmptyStep(s, "foreach"), TempStep(EndId(s)), SilentStep(nextNodeId)]
  }

  /** A block outweighs the temporary steps its children are wrapped in, so that
      flattening a wrapped branch still goes down the tree. */
  function Weight(s: Step): nat
    decreases Size(s), 0
  {
    if IsSwitch(s) then 10 + WeightAll(TrueOf(s)) + WeightAll(FalseOf(s))
    else if IsForeach(s) then 10 + WeightAll(BodyOf(s))
    else 1
  }

  function WeightAll(steps: seq<Step>): nat
    decreases SizeAll(steps), 1
  {
    if steps == [] then 0 else Weight(steps[0]) + WeightAll(steps[1..])
  }

  lemma {:induction false} WeightConcat(a: seq<Step>, b: seq<Step>)
    ensures WeightAll(a + b) == WeightAll(a) + WeightAll(b)
  {
    if a == [] {
      assert a + b == b;
    } else {
      assert (a + b)[1..] == a[1..] + b;
      WeightConcat(a[1..], b);
    }
  }

  lemma WeightAt(steps: seq<Step>, k: nat)
    requires k < |steps|
    ensures Weight(steps[k]) <= WeightAll(steps)
  {
    hide *;
    assert steps == steps[..k] + ([steps[k]] + steps[k + 1..]);
    WeightConcat(steps[..k], [steps[k]] + steps[k + 1..]);
    WeightFirst(steps[k], steps[k + 1..]);
  }

  lemma WeightFirst(s: Step, rest: seq<Step>)
    ensures WeightAll([s] + rest) == Weight(s) + WeightAll(rest)
  {
    assert ([s] + rest)[1..] == rest;
  }

  lemma WeightOfPlain(s: Step, t: Step, u: Step)
    requires !IsSwitch(s) && !IsForeach(s) && !IsSwitch(t) && !IsForeach(t) && !IsSwitch(u) && !IsForeach(u)
    ensures WeightAll([s]) == 1 && WeightAll([s, t]) == 2 && WeightAll([s, t, u]) == 3
  {
    assert WeightAll([s]) == 1 && WeightAll([t]) == 1 && WeightAll([u]) == 1 by {
      assert [s][1..] == [] && [t][1..] == [] && [u][1..] == [];
    }
    WeightConcat([s], [t]);
    WeightConcat([s, t], [u]);
    assert [s] + [t] == [s, t] && [s, t] + [u] == [s, t, u];
  }

  lemma WrappedWeight(s: Step, branch: seq<Step>, kind: string)
    requires kind == "true" || kind == "false"
    ensures WeightAll(Wrapped(s, branch, kind)) == 3 + WeightAll(branch)
  {
    var a, e, z := TempCopy(SwitchStart(s)), EmptyStep(s, kind), TempCopy(SwitchEnd(s));
    WeightOfPlain(a, e, z);
    WeightOfPlain(e, z, a);
    WeightConcat([a] + branch, [e, z]);
    WeightConcat([a], branch);
  }

  lemma UnrolledWeight(s: Step, prevNodeId: string, nextNodeId: string)
    ensures WeightAll(Unrolled(s, prevNodeId, nextNodeId)) == 5 + WeightAll(BodyOf(s))
  {
    var a, b := SilentStep(prevNodeId), TempStep(s.id);
    var e, z, n := EmptyStep(s, "foreach"), TempStep(EndId(s)), SilentStep(nextNodeId);
    WeightOfPlain(a, b, e);
    WeightOfPlain(e, z, n);
    WeightConcat([a, b] + BodyOf(s), [e, z, n]);
    WeightConcat([a, b], BodyOf(s));
  }

  // ---- What the temporary steps come to ----

  /** The edge out of a block's own node. */
  function OwnEdge(s: Step, target: string): seq<Edge> {
    if s.id != "end" then [Edge(s.id, target, None)] else []
  }

  /** Neither a block nor a step that says where its edges go. */
  predicate Plain(s: Step) {
    !IsSwitch(s) && !IsForeach(s) && s.edgeTarget.Unset? && s.edgeLabel.None?
  }

  lemma PlainFirst(s: Step, rest: seq<Step>, next: string)
    requires Plain(s)
    ensures Nodes([s] + rest, {}) == (if s.stepType == "temp_node" then [] else [DefaultNode(s)]) + Nodes(rest, {})
    ensures Edges([s] + rest, next)
         == (if s.id != "end" && !s.edgeNotNeeded then [Edge(s.id, FirstId(rest, next), None)] else [])
            + Edges(rest, next)
  {
    assert ([s] + rest)[1..] == rest;
    assert Fan(s.id, [FirstId(rest, next)], None) == [Edge(s.id, FirstId(rest, next), None)];
  }

  /** Sentinel and end ids are never the string "end". */
  lemma GeneratedIds(s: Step, kind: string)
    ensures EmptyId(s, kind) != "end" && EndId(s) != "end"
  {
    assert |EmptyId(s, kind)| > 3 && |EndId(s)| > 3;
  }

  lemma StandIns(s: Step, kind: string)
    requires kind in {"true", "false", "foreach"}
    ensures EmptyId(s, kind) != "end" && EndId(s) != "end"
    ensures var e := EmptyStep(s, kind);
            Plain(e) && e.id == EmptyId(s, kind) && e.stepType != "temp_node" && !e.edgeNotNeeded
    ensures var z := TempCopy(SwitchEnd(s));
            Plain(z) && z.id == EndId(s) && z.stepType == "temp_node" && !z.edgeNotNeeded
    ensures var a := TempCopy(SwitchStart(s));
            Plain(a) && a.id == s.id && a.stepType == "temp_node" && !a.edgeNotNeeded
  {
    GeneratedIds(s, kind);
    assert EmptyKey(kind)[0] == 'e' && "temp_node"[0] == 't';
  }

  /** A wrapped branch flattens to the branch and its sentinel. */
  lemma WrappedFlattens(s: Step, branch: seq<Step>, kind: string)
    requires kind == "true" || kind == "false"
    ensures Nodes(Wrapped(s, branch, kind), {}) == Nodes(branch, {}) + [EmptyNode(s, kind)]
    ensures Edges(Wrapped(s, branch, kind), "")
         == OwnEdge(s, FirstId(branch, EmptyId(s, kind))) + Edges(branch, EmptyId(s, kind))
            + [Edge(EmptyId(s, kind), EndId(s), None), Edge(EndId(s), "", None)]
  {
    hide *;
    var a := TempCopy(SwitchStart(s));
    var tail := [EmptyStep(s, kind)] + ([TempCopy(SwitchEnd(s))] + []);
    WrappedTail(s, kind);
    WrappedParts(s, branch, kind);
    NodesConcat(branch, tail, {});
    EdgesConcat(branch, tail, "");
    PlainFirst(a, branch + tail, "");
  }

  lemma WrappedTail(s: Step, kind: string)
    requires kind == "true" || kind == "false"
    ensures var tail := [EmptyStep(s, kind)] + ([TempCopy(SwitchEnd(s))] + []);
            && Nodes(tail, {}) == [EmptyNode(s, kind)]
            && Edges(tail, "") == [Edge(EmptyId(s, kind), EndId(s), None), Edge(EndId(s), "", None)]
  {
    var e, z := EmptyStep(s, kind), TempCopy(SwitchEnd(s));
    StandIns(s, kind);
    PlainFirst(z, [], "");
    PlainFirst(e, [z] + [], "");
    hide IsSwitch, IsForeach;
  }

  lemma WrappedParts(s: Step, branch: seq<Step>, kind: string)
    requires kind == "true" || kind == "false"
    ensures var a, e := TempCopy(SwitchStart(s)), EmptyStep(s, kind);
            var tail := [e] + ([TempCopy(SwitchEnd(s))] + []);
            && Wrapped(s, branch, kind) == [a] + (branch + tail)
            && FirstId(branch + tail, "") == FirstId(branch, EmptyId(s, kind)) && FirstId(tail, "") == EmptyId(s, kind)
            && Plain(a) && a.id == s.id && a.stepType == "temp_node" && !a.edgeNotNeeded
    ensures forall id :: OwnEdge(s, id) == (if s.id != "end" then [Edge(s.id, id, None)] else [])
  {
    StandIns(s, kind);
  }

  /** An unrolled loop flattens to its body and sentinel. */
  lemma UnrolledFlattens(s: Step, prevNodeId: string, nextNodeId: string)
    ensures Nodes(Unrolled(s, prevNodeId, nextNodeId), {}) == Nodes(BodyOf(s), {}) + [EmptyNode(s, "foreach")]
    ensures Edges(Unrolled(s, prevNodeId, nextNodeId), "")
         == OwnEdge(s, FirstId(BodyOf(s), EmptyId(s, "foreach")))
            + Edges(BodyOf(s), EmptyId(s, "foreach"))
            + [Edge(EmptyId(s, "foreach"), EndId(s), None), Edge(EndId(s), nextNodeId, None)]
  {
    hide *;
    UnrolledTail(s, nextNodeId);
    UnrolledParts(s, prevNodeId, nextNodeId);
    var a, b := SilentStep(prevNodeId), TempStep(s.id);
    var tail := [EmptyStep(s, "foreach")] + ([TempStep(EndId(s))] + ([SilentStep(nextNodeId)] + []));
    NodesConcat(BodyOf(s), tail, {});
    EdgesConcat(BodyOf(s), tail, "");
    PlainFirst(b, BodyOf(s) + tail, "");
    PlainFirst(a, [b] + (BodyOf(s) + tail), "");
  }

  lemma UnrolledParts(s: Step, prevNodeId: string, nextNodeId: string)
    ensures var a, b, e := SilentStep(prevNodeId), TempStep(s.id), EmptyStep(s, "foreach");
            var tail := [e] + ([TempStep(EndId(s))] + ([SilentStep(nextNodeId)] + []));
            && Unrolled(s, prevNodeId, nextNodeId) == [a] + ([b] + (BodyOf(s) + tail))
            && FirstId(BodyOf(s) + tail, "") == FirstId(BodyOf(s), e.id) && FirstId(tail, "") == e.id
            && e.id == EmptyId(s, "foreach") && TempStep(EndId(s)).id == EndId(s) && b.id == s.id
            && Plain(a) && Plain(b) && a.stepType == b.stepType == "temp_node" && a.edgeNotNeeded && !b.edgeNotNeeded
    ensures forall id :: OwnEdge(s, id) == (if s.id != "end" then [Edge(s.id, id, None)] else [])
  {
    hide Nodes, Edges;
  }

  lemma UnrolledTail(s: Step, nextNodeId: string)
    ensures var e, z, n := EmptyStep(s, "foreach"), TempStep(EndId(s)), SilentStep(nextNodeId);
            && Nodes([e] + ([z] + ([n] + [])), {}) == [EmptyNode(s, "foreach")]
            && Edges([e] + ([z] + ([n] + [])), "") == [Edge(e.id, z.id, None), Edge(z.id, nextNodeId, None)]
  {
    var e, z, n := EmptyStep(s, "foreach"), TempStep(EndId(s)), SilentStep(nextNodeId);
    StandIns(s, "foreach");
    PlainFirst(n, [], "");
    PlainFirst(z, [n] + [], "");
    PlainFirst(e, [z] + ([n] + []), "");
  }

  /** The first edge relabelled and the last one dropped. */
  function Adjusted(s: Step, tag: string, edges: seq<Edge>): seq<Edge>
    requires edges != []
  {
    edges[0 := Edge(s.id, OrElse(edges[0].target, EndId(s)), Some(tag))][..|edges| - 1]
  }

  /** `_adjustEdgeConnectionsAndLabelsForSwitch` */
  method AdjustEdges(s: Step, tag: string, subflowEdges: seq<Edge>) returns (edges: seq<Edge>)
    requires subflowEdges != []
    ensures edges == Adjusted(s, tag, subflowEdges)
  {
    var firstEdge := subflowEdges[0];
    firstEdge := firstEdge.(tag := Some(tag));
    firstEdge := firstEdge.(source := s.id);
    firstEdge := firstEdge.(target := OrElse(firstEdge.target, EndId(s)));
    edges := subflowEdges[0 := firstEdge];
    edges := edges[..|edges| - 1];
  }

  /** Patching a flattened branch's edges leaves the branch's edges proper. */
  lemma AdjustedBranch(s: Step, branch: seq<Step>, kind: string, tag: string)
    requires kind == "true" || kind == "false"
    requires branch == TrueOf(s) || branch == FalseOf(s)
    ensures Edges(Wrapped(s, branch, kind), "") != []
    ensures Adjusted(s, tag, Edges(Wrapped(s, branch, kind), "")) == BranchEdges(s, branch, kind, tag)
  {
    hide *;
    WrappedFlattens(s, branch, kind);
    AdjustedEdges(s, branch, kind, tag, Edges(Wrapped(s, branch, kind), ""));
  }

  lemma AdjustedEdges(s: Step, branch: seq<Step>, kind: string, tag: string, edges: seq<Edge>)
    requires kind == "true" || kind == "false"
    requires branch == TrueOf(s) || branch == FalseOf(s)
    requires edges == OwnEdge(s, FirstId(branch, EmptyId(s, kind))) + Edges(branch, EmptyId(s, kind))
                      + [Edge(EmptyId(s, kind), EndId(s), None), Edge(EndId(s), "", None)]
    ensures edges != [] && Adjusted(s, tag, edges) == BranchEdges(s, branch, kind, tag)
  {
    hide Edges, FirstId, EmptyId;
    var inner := Edges(branch, EmptyId(s, kind)) + [Edge(EmptyId(s, kind), EndId(s), None)];
    assert edges == OwnEdge(s, FirstId(branch, EmptyId(s, kind))) + inner + [Edge(EndId(s), "", None)];
  }

  method HandleSwitchNode(step: Step, nextNodeId: string) returns (nodes: seq<FlowNode>, edges: seq<Edge>)
    requires IsSwitch(step)
    ensures nodes == NodesOf(step, {})
    ensures edges == EdgesOf(step, nextNodeId)
    decreases Weight(step), 0
  {
    hide EndName, Dropped, Labelled;
    var switchStartNode, switchEndNode := SwitchStart(step), SwitchEnd(step);
    var trueBranches := Wrapped(step, TrueOf(step), "true");
    var falseBranches := Wrapped(step, FalseOf(step), "false");
    WrappedWeight(step, TrueOf(step), "true");
    WrappedWeight(step, FalseOf(step), "false");
    var trueBranchNodes, trueSubflowEdges := ProcessWorkflow(trueBranches);
    var falseSubflowNodes, falseSubflowEdges := ProcessWorkflow(falseBranches);
    WrappedFlattens(step, TrueOf(step), "true");
    WrappedFlattens(step, FalseOf(step), "false");
    AdjustedBranch(step, TrueOf(step), "true", "True");
    AdjustedBranch(step, FalseOf(step), "false", "False");
    trueSubflowEdges := AdjustEdges(step, "True", trueSubflowEdges);
    falseSubflowEdges := AdjustEdges(step, "False", falseSubflowEdges);
    nodes := [switchStartNode] + falseSubflowNodes + trueBranchNodes + [switchEndNode];
    edges := falseSubflowEdges + trueSubflowEdges + [Edge(switchEndNode.id, nextNodeId, None)];
  }

  method HandleForeachNode(step: Step, nextNodeId: string, prevNodeId: string)
    returns (nodes: seq<FlowNode>, edges: seq<Edge>)
    requires IsForeach(step)
    ensures nodes == NodesOf(step, {})
    ensures edges == EdgesOf(step, nextNodeId)
    decreases Weight(step), 0
  {
    var forEachStartNode, forEachEndNode := ForeachStart(step), ForeachEnd(step);
    var sequences := Unrolled(step, prevNodeId, nextNodeId);
    UnrolledWeight(step, prevNodeId, nextNodeId);
    nodes, edges := ProcessWorkflow(sequences);
    UnrolledFlattens(step, prevNodeId, nextNodeId);
    nodes := [forEachStartNode] + nodes + [forEachEndNode];
  }

  method ProcessStep(step: Step, nextNodeId: string, prevNodeId: string)
    returns (nodes: seq<FlowNode>, edges: seq<Edge>)
    ensures nodes == NodesOf(step, {})
    ensures edges == EdgesOf(step, nextNodeId)
    decreases Weight(step), 1
  {
    if step.componentType == "switch" {
      nodes, edges := HandleSwitchNode(step, nextNodeId);
    } else if step.componentType == "container" && step.stepType == "foreach" {
      nodes, edges := HandleForeachNode(step, nextNodeId, prevNodeId);
    } else {
      nodes, edges := HandleDefaultNode(step, nextNodeId);
    }
  }

  lemma AppendStep(steps: seq<Step>, step: Step, next: string)
    ensures Nodes(steps + [step], {}) == Nodes(steps, {}) + NodesOf(step, {})
    ensures Edges(steps + [step], next) == Edges(steps, step.id) + EdgesOf(step, next)
  {
    NodesConcat(steps, [step], {});
    EdgesConcat(steps, [step], next);
    assert [step][1..] == [];
  }

  method ProcessWorkflow(sequence: seq<Step>) returns (newNodes: seq<FlowNode>, newEdges: seq<Edge>)
    ensures newNodes == Nodes(sequence, {})
    ensures newEdges == Edges(sequence, "")
    decreases WeightAll(sequence), 2
  {
    hide *;
    newNodes, newEdges := [], [];
    NothingFlattens(FirstId(sequence[0..], ""));
    for index := 0 to |sequence|
      invariant newNodes == Nodes(sequence[..index], {})
      invariant newEdges == Edges(sequence[..index], FirstId(sequence[index..], ""))
    {
      var step := sequence[index];
      var prevNodeId := if index == 0 then "" else sequence[index - 1].id;
      var nextNodeId := if index + 1 < |sequence| then sequence[index + 1].id else "";
      WeightAt(sequence, index);
      FirstIdAt(sequence, index);
      FirstIdAt(sequence, index + 1);
      var nodes, edges := ProcessStep(step, nextNodeId, prevNodeId);
      newNodes := newNodes + nodes;
      newEdges := newEdges + edges;
      assert sequence[..index + 1] == sequence[..index] + [step];
      AppendStep(sequence[..index], step, nextNodeId);
    }
    assert sequence[..|sequence|] == sequence;
    FirstIdAt(sequence, |sequence|);
  }

  lemma NothingFlattens(next: string)
    ensures Nodes([], {}) == [] && Edges([], next) == []
  {}

  lemma FirstIdAt(steps: seq<Step>, k: nat)
    requires k <= |steps|
    ensures FirstId(steps[k..], "") == if k < |steps| then steps[k].id else ""
  {}
}
