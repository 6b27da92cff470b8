// The whole graph the builder opens with (keep-ui/utils/reactFlow.ts, getTriggerStep;
// keep-ui/utils/hooks/useWorkflowInitialization.ts): a start node, the triggers, the
// workflow's steps and an end node, flattened together.
module FlowWorkflow {
  import opened Wrappers
  import opened FlowModel
  import opened FlowShape
  import opened FlowGraph
  import FlowReader
  import FlowRoundTrip
  import FlowBuilder

  function Ids(ns: seq<FlowNode>): (ids: seq<string>)
    ensures |ids| == |ns|
    ensures forall k :: 0 <= k < |ns| ==> ids[k] == ns[k].id
  {
    seq(|ns|, k requires 0 <= k < |ns| => ns[k].id)
  }

  /** The labels a node's out-edges should carry. */
  function Forks(n: FlowNode): seq<Option<string>> {
    if n.data.componentType == "switch" then [Some("False"), Some("True")] else [None]
  }

  function AllForks(ns: seq<FlowNode>): (outs: seq<seq<Option<string>>>)
    ensures |outs| == |ns|
  {
    seq(|ns|, k requires 0 <= k < |ns| => Forks(ns[k]))
  }

  /** A step drawn without overrides: it has an id of its own and its edges are the
      ones the flattening computes. */
  predicate Drawable(s: Step)
    decreases Size(s), 0
  {
    && s.id != "" && s.id != "end" && !s.edgeNotNeeded && s.edgeTarget.Unset? && s.edgeLabel.None?
    && (IsSwitch(s) ==> DrawableAll(TrueOf(s)) && DrawableAll(FalseOf(s)))
    && (IsForeach(s) ==> DrawableAll(BodyOf(s)))
    && (!IsSwitch(s) && !IsForeach(s) ==> s.stepType != "temp_node")
  }

  predicate DrawableAll(steps: seq<Step>)
    decreases SizeAll(steps), 1
  {
    steps == [] || (Drawable(steps[0]) && DrawableAll(steps[1..]))
  }

  function NodeBlock(ns: seq<FlowNode>, edges: seq<Edge>): Block {
    Block(Ids(ns), AllForks(ns), edges)
  }

  lemma NodeBlockThen(a: seq<FlowNode>, ea: seq<Edge>, b: seq<FlowNode>, eb: seq<Edge>)
    ensures Then(NodeBlock(a, ea), NodeBlock(b, eb)) == NodeBlock(a + b, ea + eb)
  {
    assert Ids(a) + Ids(b) == Ids(a + b);
    assert AllForks(a) + AllForks(b) == AllForks(a + b);
  }

  lemma NodeBlockUnit(n: FlowNode, next: string)
    requires n.data.componentType != "switch"
    ensures NodeBlock([n], [Edge(n.id, next, None)]) == Unit(n.id, next)
    ensures Good(NodeBlock([n], [Edge(n.id, next, None)]), next)
  {
    UnitGood(n.id, next);
  }

  /** The first node of a list of steps carries the first step's id. */
  lemma FirstNode(steps: seq<Step>, edges: seq<Edge>, next: string)
    requires DrawableAll(steps)
    ensures First(NodeBlock(Nodes(steps, {}), edges), next) == FirstId(steps, next)
  {}

  lemma {:induction false} StepGood(s: Step, next: string)
    requires Drawable(s)
    ensures Good(NodeBlock(NodesOf(s, {}), EdgesOf(s, next)), next)
    decreases Size(s), 1
  {
    if IsSwitch(s) {
      SwitchGood(s, next);
    } else if IsForeach(s) {
      ForeachGood(s, next);
    } else {
      assert Fan(s.id, [next], None) == [Edge(s.id, next, None)];
      NodeBlockUnit(DefaultNode(s), next);
    }
  }

  /** Steps followed by one closing node, which leads on to `next`. */
  lemma {:induction false} ClosedGood(steps: seq<Step>, n: FlowNode, next: string)
    requires DrawableAll(steps) && n.data.componentType != "switch"
    ensures Good(NodeBlock(Nodes(steps, {}) + [n], Edges(steps, n.id) + [Edge(n.id, next, None)]), next)
    ensures First(NodeBlock(Nodes(steps, {}) + [n], Edges(steps, n.id) + [Edge(n.id, next, None)]), next)
         == FirstId(steps, n.id)
    decreases SizeAll(steps), 3
  {
    StepsGood(steps, n.id);
    FirstNode(steps, [], n.id);
    hide *;
    NodeBlockUnit(n, next);
    ClosedBlock(Nodes(steps, {}), Edges(steps, n.id), n, next);
  }

  lemma ClosedBlock(ns: seq<FlowNode>, edges: seq<Edge>, n: FlowNode, next: string)
    requires Good(NodeBlock(ns, edges), n.id) && n.data.componentType != "switch"
    ensures Good(NodeBlock(ns + [n], edges + [Edge(n.id, next, None)]), next)
    ensures First(NodeBlock(ns + [n], edges + [Edge(n.id, next, None)]), next) == First(NodeBlock(ns, []), n.id)
  {
    NodeBlockUnit(n, next);
    NodeBlockThen(ns, edges, [n], [Edge(n.id, next, None)]);
    ThenGood(NodeBlock(ns, edges), NodeBlock([n], [Edge(n.id, next, None)]), next);
  }

  /** A list of steps is a good block. */
  lemma {:induction false} StepsGood(steps: seq<Step>, next: string)
    requires DrawableAll(steps)
    ensures Good(NodeBlock(Nodes(steps, {}), Edges(steps, next)), next)
    decreases SizeAll(steps), 2
  {
    if steps != [] {
      var a, ea := NodesOf(steps[0], {}), EdgesOf(steps[0], FirstId(steps[1..], next));
      var b, eb := Nodes(steps[1..], {}), Edges(steps[1..], next);
      assert Nodes(steps, {}) == a + b && Edges(steps, next) == ea + eb;
      StepGood(steps[0], FirstId(steps[1..], next));
      StepsGood(steps[1..], next);
      FirstNode(steps[1..], eb, next);
      hide *;
      ThenGood(NodeBlock(a, ea), NodeBlock(b, eb), next);
      NodeBlockThen(a, ea, b, eb);
    }
  }

  lemma MadeUpNodes(s: Step, kind: string)
    ensures EmptyNode(s, kind).id == EmptyId(s, kind) != ""
    ensures EmptyNode(s, kind).data.componentType != "switch"
    ensures SwitchEnd(s).id == EndId(s) != "" && SwitchEnd(s).data.componentType != "switch"
  {
    assert EmptyKey(kind)[0] == 'e' && "switch"[0] == 's';
    assert '_' !in "switch" && (s.stepType + "__end")[|s.stepType|] == '_';
    assert EndId(s)[|s.stepType|] == '_' && EmptyId(s, kind)[|s.stepType|] == '_';
  }

  /** One branch, closed by its sentinel, as a block. */
  function BranchBlock(s: Step, branch: seq<Step>, kind: string): Block {
    NodeBlock(Nodes(branch, {}) + [EmptyNode(s, kind)],
              Edges(branch, EmptyId(s, kind)) + [Edge(EmptyId(s, kind), EndId(s), None)])
  }

  lemma BranchEdgesAre(s: Step, branch: seq<Step>, kind: string, tag: string)
    requires branch == TrueOf(s) || branch == FalseOf(s)
    requires s.id != "end" && DrawableAll(branch)
    ensures BranchEdges(s, branch, kind, tag)
         == [Edge(s.id, FirstId(branch, EmptyId(s, kind)), Some(tag))] + BranchBlock(s, branch, kind).edges
  {
    MadeUpNodes(s, kind);
  }

  lemma {:induction false} SwitchGood(s: Step, next: string)
    requires Drawable(s) && IsSwitch(s)
    ensures Good(NodeBlock(NodesOf(s, {}), EdgesOf(s, next)), next)
    decreases Size(s), 0
  {
    MadeUpNodes(s, "true");
    MadeUpNodes(s, "false");
    ClosedGood(FalseOf(s), EmptyNode(s, "false"), EndId(s));
    ClosedGood(TrueOf(s), EmptyNode(s, "true"), EndId(s));
    SwitchBlock(s, next);
    hide *;
    ForkGood(s.id, BranchBlock(s, FalseOf(s), "false"), BranchBlock(s, TrueOf(s), "true"), EndId(s), next);
  }

  /** A condition's nodes and edges are the fork of its branches. */
  lemma SwitchBlock(s: Step, next: string)
    requires Drawable(s) && IsSwitch(s)
    ensures var f, t := BranchBlock(s, FalseOf(s), "false"), BranchBlock(s, TrueOf(s), "true");
            (First(f, EndId(s)) == FirstId(FalseOf(s), EmptyId(s, "false"))
             && First(t, EndId(s)) == FirstId(TrueOf(s), EmptyId(s, "true")))
            ==> NodeBlock(NodesOf(s, {}), EdgesOf(s, next)) == Fork(s.id, f, t, EndId(s), next)
  {
    BranchEdgesAre(s, FalseOf(s), "false", "False");
    BranchEdgesAre(s, TrueOf(s), "true", "True");
    MadeUpNodes(s, "true");
    var fs, ts := Nodes(FalseOf(s), {}) + [EmptyNode(s, "false")], Nodes(TrueOf(s), {}) + [EmptyNode(s, "true")];
    assert NodesOf(s, {}) == [SwitchStart(s)] + fs + ts + [SwitchEnd(s)];
    assert EdgesOf(s, next) == BranchEdges(s, FalseOf(s), "false", "False")
                             + BranchEdges(s, TrueOf(s), "true", "True") + [Edge(EndId(s), next, None)];
    assert Forks(SwitchStart(s)) == [Some("False"), Some("True")] && Forks(SwitchEnd(s)) == [None];
    hide NodesOf, EdgesOf, Nodes, Edges, BranchEdges, FirstId, EmptyId, EmptyNode;
    ForkNodes(SwitchStart(s), fs, ts, SwitchEnd(s));
  }

  lemma ForkNodes(a: FlowNode, f: seq<FlowNode>, t: seq<FlowNode>, z: FlowNode)
    ensures Ids([a] + f + t + [z]) == [a.id] + Ids(f) + Ids(t) + [z.id]
    ensures AllForks([a] + f + t + [z]) == [Forks(a)] + AllForks(f) + AllForks(t) + [Forks(z)]
  {}

  lemma {:induction false} ForeachGood(s: Step, next: string)
    requires Drawable(s) && IsForeach(s)
    ensures Good(NodeBlock(NodesOf(s, {}), EdgesOf(s, next)), next)
    decreases Size(s), 0
  {
    var n, z := EmptyNode(s, "foreach"), ForeachEnd(s);
    var first := FirstId(BodyOf(s), n.id);
    var ns, es := Nodes(BodyOf(s), {}) + [n], Edges(BodyOf(s), n.id) + [Edge(n.id, EndId(s), None)];
    ForeachIs(s, next);
    hide *;
    ClosedGood(BodyOf(s), n, EndId(s));
    ClosedBlock(ns, es, z, next);
    NodeBlockUnit(ForeachStart(s), first);
    FirstOfNodes(ns, [], es, z.id);
    ThenGood(NodeBlock([ForeachStart(s)], [Edge(s.id, first, None)]),
             NodeBlock(ns + [z], es + [Edge(z.id, next, None)]), next);
    NodeBlockThen([ForeachStart(s)], [Edge(s.id, first, None)], ns + [z], es + [Edge(z.id, next, None)]);
  }

  /** The nodes and edges of a loop. */
  lemma ForeachIs(s: Step, next: string)
    requires Drawable(s) && IsForeach(s)
    ensures var (n, z) := (EmptyNode(s, "foreach"), ForeachEnd(s));
            var first := FirstId(BodyOf(s), n.id);
            var (ns, es) := (Nodes(BodyOf(s), {}) + [n], Edges(BodyOf(s), n.id) + [Edge(n.id, EndId(s), None)]);
            && NodesOf(s, {}) == [ForeachStart(s)] + (ns + [z])
            && EdgesOf(s, next) == [Edge(s.id, first, None)] + (es + [Edge(z.id, next, None)])
            && n.data.componentType != "switch" && z.data.componentType != "switch" && z.id == EndId(s)
            && ForeachStart(s).id == s.id && ForeachStart(s).data.componentType != "switch"
            && DrawableAll(BodyOf(s)) && SizeAll(BodyOf(s)) < Size(s)
  {
    MadeUpNodes(s, "foreach");
    hide Nodes, Edges, FirstId, DrawableAll;
  }

  /** Where a block of nodes is entered does not depend on its edges. */
  lemma FirstOfNodes(ns: seq<FlowNode>, edges: seq<Edge>, edges': seq<Edge>, next: string)
    ensures First(NodeBlock(ns, edges), next) == First(NodeBlock(ns, edges'), next)
  {}

  // ---- The frame: start, triggers, end ----

  const TRIGGER_KEYS := {"interval", "manual", "alert", "incident"}

  /** The keys of the properties that become triggers, in the properties' order; each
      property comes with whether its value counts as true. */
  function TriggerIds(properties: seq<(string, bool)>): (ids: seq<string>)
    ensures forall k :: 0 <= k < |ids| ==> ids[k] in TRIGGER_KEYS
  {
    if properties == [] then []
    else (if properties[0].0 in TRIGGER_KEYS && properties[0].1 then [properties[0].0] else [])
         + TriggerIds(properties[1..])
  }

  /** A name becomes a trigger if and only if it is one of the four and has a value that
      counts as true. */
  lemma {:induction false} TriggerIff(properties: seq<(string, bool)>, id: string)
    ensures id in TriggerIds(properties)
        <==> (id == "interval" || id == "manual" || id == "alert" || id == "incident") && (id, true) in properties
  {
    if properties != [] {
      TriggerIff(properties[1..], id);
    }
  }

  function TriggerStep(id: string): Step {
    BasicStep(id, id, "trigger", id, map[]).(edgeTarget := One("trigger_end"))
  }

  function TriggerSteps(ids: seq<string>): (steps: seq<Step>)
    ensures |steps| == |ids|
  {
    seq(|ids|, k requires 0 <= k < |ids| => TriggerStep(ids[k]))
  }

  function TriggerStart(ids: seq<string>): Step {
    BasicStep("trigger_start", "Trigger Start", "trigger", "trigger", map[]).(
      edgeTarget := if ids == [] then One("") else Many(ids))
  }

  const TriggerEnd: Step := BasicStep("trigger_end", "Workflow start", "trigger", "", map[])

  /** `getTriggerStep` */
  function GetTriggerStep(properties: seq<(string, bool)>): seq<Step> {
    var ids := TriggerIds(properties);
    [TriggerStart(ids)] + TriggerSteps(ids) + [TriggerEnd]
  }

  const StartStep: Step := BasicStep("start", "start", "start", "start", map[]).(isLayouted := Some(false))

  const EndStep: Step := BasicStep("end", "end", "end", "end", map[]).(isLayouted := Some(false))

  /** The sequence a workflow definition is first drawn from. */
  function InitialSequence(properties: seq<(string, bool)>, steps: seq<Step>): seq<Step> {
    [StartStep] + GetTriggerStep(properties) + steps + [EndStep]
  }

  // ---- Opening a workflow and saving it again ----

  lemma {:induction false} TriggerNodes(ids: seq<string>)
    requires forall k :: 0 <= k < |ids| ==> ids[k] in TRIGGER_KEYS
    ensures |Nodes(TriggerSteps(ids), {})| == |ids|
    ensures forall k :: 0 <= k < |ids| ==> Nodes(TriggerSteps(ids), {})[k] == DefaultNode(TriggerStep(ids[k]))
  {
    if ids != [] {
      assert TriggerSteps(ids)[1..] == TriggerSteps(ids[1..]);
      TriggerNodes(ids[1..]);
    }
  }

  lemma FrameNodes(properties: seq<(string, bool)>, steps: seq<Step>)
    ensures Nodes(InitialSequence(properties, steps), {})
         == [DefaultNode(StartStep)] + Nodes(GetTriggerStep(properties), {}) + Nodes(steps, {}) + [DefaultNode(EndStep)]
    ensures var ids := TriggerIds(properties);
            Nodes(GetTriggerStep(properties), {})
            == [DefaultNode(TriggerStart(ids))] + Nodes(TriggerSteps(ids), {}) + [DefaultNode(TriggerEnd)]
  {
    var ids := TriggerIds(properties);
    var a, ts, z := TriggerStart(ids), TriggerSteps(ids), TriggerEnd;
    SingleNode(StartStep);
    SingleNode(EndStep);
    SingleNode(a);
    SingleNode(z);
    hide *;
    NodesConcat([StartStep] + GetTriggerStep(properties) + steps, [EndStep], {});
    NodesConcat([StartStep] + GetTriggerStep(properties), steps, {});
    NodesConcat([StartStep], GetTriggerStep(properties), {});
    NodesConcat([a] + ts, [z], {});
    NodesConcat([a], ts, {});
    assert GetTriggerStep(properties) == [a] + ts + [z] by { TriggerStepsAre(properties); }
    assert InitialSequence(properties, steps) == [StartStep] + GetTriggerStep(properties) + steps + [EndStep] by {
      InitialSequenceIs(properties, steps);
    }
  }

  lemma TriggerStepsAre(properties: seq<(string, bool)>)
    ensures GetTriggerStep(properties)
         == [TriggerStart(TriggerIds(properties))] + TriggerSteps(TriggerIds(properties)) + [TriggerEnd]
  {}

  lemma InitialSequenceIs(properties: seq<(string, bool)>, steps: seq<Step>)
    ensures InitialSequence(properties, steps) == [StartStep] + GetTriggerStep(properties) + steps + [EndStep]
  {}

  lemma SingleNode(s: Step)
    requires !IsSwitch(s) && !IsForeach(s) && s.stepType != "temp_node"
    ensures Nodes([s], {}) == [DefaultNode(s)]
  {
    assert [s][1..] == [];
  }

  lemma TriggersAreTriggers(properties: seq<(string, bool)>)
    ensures forall n :: n in Nodes(GetTriggerStep(properties), {}) ==> FlowRoundTrip.IsTrigger(n)
  {
    FrameNodes(properties, []);
    TriggerNodes(TriggerIds(properties));
    assert FlowReader.Includes("trigger", "trigger") by { assert "trigger"[..7] == "trigger"; }
  }

  /** The first graph has a node called "manual" if and only if there is a manual trigger or
      a step brings one. */
  lemma ManualNode(properties: seq<(string, bool)>, steps: seq<Step>)
    ensures FlowReader.HasManual(Nodes(InitialSequence(properties, steps), {}))
        <==> "manual" in TriggerIds(properties) || FlowReader.HasManual(Nodes(steps, {}))
  {
    var ids := TriggerIds(properties);
    var ts, w := Nodes(TriggerSteps(ids), {}), Nodes(steps, {});
    var s, a, z, e := DefaultNode(StartStep), DefaultNode(TriggerStart(ids)), DefaultNode(TriggerEnd), DefaultNode(EndStep);
    assert s.id == "start" && a.id == "trigger_start" && z.id == "trigger_end" && e.id == "end";
    FrameNodes(properties, steps);
    TriggerNodes(ids);
    assert forall id :: DefaultNode(TriggerStep(id)).id == id;
    hide TriggerIds, Nodes, InitialSequence, GetTriggerStep, DefaultNode, TriggerStep, TriggerSteps;
    FrameHas(s, a, ts, z, w, e);
    if "manual" in ids {
      var k :| 0 <= k < |ids| && ids[k] == "manual";
      assert ts[k] in ts && ts[k].id == "manual";
    }
  }

  lemma FrameHas(s: FlowNode, a: FlowNode, ts: seq<FlowNode>, z: FlowNode, w: seq<FlowNode>, e: FlowNode)
    ensures forall n :: n in [s] + ([a] + ts + [z]) + w + [e] <==> n == s || n == a || n in ts || n == z || n in w || n == e
  {}

  /** Opening a well-formed workflow in the builder, which lays it out, and saving it gives the
      same workflow back, whatever triggers it has; the properties are kept, with the
      manual trigger noted in them when there is one. */
  method OpenAndSave(properties: seq<(string, bool)>, values: map<string, string>, steps: seq<Step>)
    returns (saved: seq<Step>, kept: map<string, string>)
    requires FlowRoundTrip.WellFormedAll(steps)
    ensures saved == FlowRoundTrip.Normals(steps)
    ensures FlowRoundTrip.Meanings(saved) == FlowRoundTrip.Meanings(steps)
    ensures kept == if ("manual", true) in properties || (exists n :: n in Nodes(steps, {}) && n.id == "manual")
                    then values["manual" := "\"true\""] else values
  {
    TriggerIff(properties, "manual");
    var nodes, edges := FlowBuilder.ProcessWorkflow(InitialSequence(properties, steps));
    FlowRoundTrip.LayoutReads(nodes);
    nodes := FlowRoundTrip.Layouted(nodes);
    saved, kept := FlowReader.ReconstructDefinition(nodes, values);
    FrameNodes(properties, steps);
    TriggersAreTriggers(properties);
    ManualNode(properties, steps);
    assert FlowReader.HasManual(nodes) <==> exists n :: n in nodes && n.id == "manual";
    assert FlowReader.HasManual(Nodes(steps, {})) <==> exists n :: n in Nodes(steps, {}) && n.id == "manual";
    hide *;
    FlowRoundTrip.RoundTrip(DefaultNode(StartStep), Nodes(GetTriggerStep(properties), {}), steps,
                            DefaultNode(EndStep), {});
  }

  // ---- The shape of the whole graph ----

  function Times(n: nat): (tags: seq<Option<string>>)
    ensures |tags| == n
  {
    seq(n, _ => None)
  }

  function TriggerTargets(ids: seq<string>): seq<string> {
    if ids == [] then ["trigger_end"] else ids
  }

  function ToEnd(ids: seq<string>): (edges: seq<Edge>)
    ensures |edges| == |ids|
  {
    seq(|ids|, k requires 0 <= k < |ids| => Edge(ids[k], "trigger_end", None))
  }

  /** The trigger start fans out to the triggers, which all lead to the trigger end. */
  function TriggerBlock(ids: seq<string>, next: string): Block {
    Block(["trigger_start"] + ids + ["trigger_end"],
          [Times(|TriggerTargets(ids)|)] + seq(|ids|, _ => [None]) + [[None]],
          Fan("trigger_start", TriggerTargets(ids), None) + ToEnd(ids) + [Edge("trigger_end", next, None)])
  }

  lemma {:induction false} FanOut(source: string, targets: seq<string>, id: string)
    ensures Out(Fan(source, targets, None), id) == if source == id then Times(|targets|) else []
  {
    if targets != [] {
      assert Fan(source, targets, None)[1..] == Fan(source, targets[1..], None);
      FanOut(source, targets[1..], id);
      assert [None] + Times(|targets| - 1) == Times(|targets|);
    }
  }

  lemma {:induction false} ToEndOut(ids: seq<string>, id: string)
    requires Distinct(ids)
    ensures Out(ToEnd(ids), id) == if id in ids then [None] else []
  {
    if ids != [] {
      assert ToEnd(ids)[1..] == ToEnd(ids[1..]);
      assert Distinct(ids[1..]) by {
        forall i, j | 0 <= i < j < |ids| - 1 ensures ids[1..][i] != ids[1..][j] { assert ids[i + 1] != ids[j + 1]; }
      }
      ToEndOut(ids[1..], id);
      assert forall k :: 1 <= k < |ids| ==> ids[k] != ids[0];
    }
  }

  lemma {:induction false} TotalOnes(n: nat)
    ensures Total(seq(n, _ => [None])) == n
  {
    if n > 0 {
      var ones: seq<seq<Option<string>>> := seq(n, _ => [None]);
      assert ones[1..] == seq(n - 1, _ => [None]);
      TotalOnes(n - 1);
    }
  }

  lemma TriggerBlockGood(ids: seq<string>, next: string)
    ensures Good(TriggerBlock(ids, next), next)
  {
    TriggerTotal(ids, next);
    TriggerForward(ids, next);
    TriggerEntered(ids, next);
    if Distinct(TriggerBlock(ids, next).ids) {
      TriggerLeaves(ids, next);
    }
  }

  lemma TriggerTotal(ids: seq<string>, next: string)
    ensures var b := TriggerBlock(ids, next); |b.outs| == |b.ids| && |b.edges| == Total(b.outs)
  {
    var n := |TriggerTargets(ids)|;
    var ones: seq<seq<Option<string>>> := seq(|ids|, _ => [None]);
    TotalConcat([Times(n)] + ones, [[None]]);
    TotalConcat([Times(n)], ones);
    TotalOnes(|ids|);
    assert Total([Times(n)]) == n by { assert [Times(n)][1..] == []; }
    var last: seq<seq<Option<string>>> := [[None]];
    assert Total(last) == 1 by { assert last[1..] == []; }
  }

  lemma TriggerForward(ids: seq<string>, next: string)
    ensures var b := TriggerBlock(ids, next); AllForward(b.edges, b.ids + [next])
  {
    var b := TriggerBlock(ids, next);
    var line := b.ids + [next];
    forall e | e in b.edges ensures Forward(e, line) {
      if e in Fan("trigger_start", TriggerTargets(ids), None) {
        var k :| 0 <= k < |TriggerTargets(ids)| && e == Edge("trigger_start", TriggerTargets(ids)[k], None);
        ForwardAt(e, line, 0, k + 1);
      } else if e in ToEnd(ids) {
        var k :| 0 <= k < |ids| && e == Edge(ids[k], "trigger_end", None);
        ForwardAt(e, line, k + 1, |ids| + 1);
      } else {
        ForwardAt(e, line, |ids| + 1, |ids| + 2);
      }
    }
  }

  lemma TriggerEntered(ids: seq<string>, next: string)
    ensures var b := TriggerBlock(ids, next); AllEntered(b.edges, b.ids + [next])
  {
    var b := TriggerBlock(ids, next);
    var fan, line := Fan("trigger_start", TriggerTargets(ids), None), b.ids + [next];
    forall k | 1 <= k < |line| ensures Entered(b.edges, line[k]) {
      if k <= |ids| {
        assert fan[k - 1] in fan && fan[k - 1].target == line[k];
      } else if k == |ids| + 1 {
        if ids == [] {
          assert fan[0] in fan && fan[0].target == line[k];
        } else {
          assert ToEnd(ids)[0] in ToEnd(ids) && ToEnd(ids)[0].target == line[k];
        }
      } else {
        EnteredBy(b.edges, Edge("trigger_end", next, None));
      }
    }
  }

  lemma TriggerLeaves(ids: seq<string>, next: string)
    requires Distinct(TriggerBlock(ids, next).ids)
    ensures Leaves(TriggerBlock(ids, next))
  {
    var b := TriggerBlock(ids, next);
    DistinctPart(b.ids, ["trigger_start"], ids, ["trigger_end"]);
    TriggerEnds(b.ids, ids);
    hide Out, Distinct, Fan, ToEnd, TriggerTargets;
    forall k | 0 <= k < |b.ids| ensures Out(b.edges, b.ids[k]) == b.outs[k] {
      TriggerOut(ids, next, b.ids[k]);
      if 1 <= k <= |ids| {
        assert b.ids[k] == ids[k - 1] && ids[k - 1] in ids;
      }
    }
  }

  lemma TriggerEnds(line: seq<string>, ids: seq<string>)
    requires line == ["trigger_start"] + ids + ["trigger_end"] && Distinct(line)
    ensures "trigger_start" !in ids && "trigger_end" !in ids
  {
    DistinctPart(line, ["trigger_start"], ids, ["trigger_end"]);
  }

  /** What leaves a node of the trigger part. */
  lemma TriggerOut(ids: seq<string>, next: string, id: string)
    requires Distinct(ids) && "trigger_start" !in ids && "trigger_end" !in ids
    ensures Out(TriggerBlock(ids, next).edges, id)
         == if id == "trigger_start" then Times(|TriggerTargets(ids)|) else if id in ids || id == "trigger_end" then [None] else []
  {
    var fan, last := Fan("trigger_start", TriggerTargets(ids), None), [Edge("trigger_end", next, None)];
    assert Out(last, id) == if id == "trigger_end" then [None] else [] by { assert last[1..] == []; }
    hide Out, Distinct, Fan, ToEnd, TriggerTargets;
    OutConcat(fan + ToEnd(ids), last, id);
    OutConcat(fan, ToEnd(ids), id);
    FanOut("trigger_start", TriggerTargets(ids), id);
    ToEndOut(ids, id);
  }

  lemma {:induction false} TriggerEdges(ids: seq<string>, next: string)
    requires forall k :: 0 <= k < |ids| ==> ids[k] in TRIGGER_KEYS
    ensures Edges(TriggerSteps(ids), next) == ToEnd(ids)
  {
    hide *;
    NoTriggerEdges(next);
    if ids != [] {
      TriggerEdges(ids[1..], next);
      FirstTrigger(ids);
      OneTriggerEdge(ids[0], FirstId(TriggerSteps(ids[1..]), next));
      EdgesConcat([TriggerStep(ids[0])], TriggerSteps(ids[1..]), next);
    }
  }

  lemma NoTriggerEdges(next: string)
    ensures Edges(TriggerSteps([]), next) == ToEnd([])
  {
    assert TriggerSteps([]) == [];
  }

  lemma FirstTrigger(ids: seq<string>)
    requires ids != []
    ensures TriggerSteps(ids) == [TriggerStep(ids[0])] + TriggerSteps(ids[1..])
    ensures ToEnd(ids) == [Edge(ids[0], "trigger_end", None)] + ToEnd(ids[1..])
  {
    hide TriggerStep;
  }

  lemma OneTriggerEdge(id: string, next: string)
    requires id in TRIGGER_KEYS
    ensures Edges([TriggerStep(id)], next) == [Edge(id, "trigger_end", None)]
  {
    SingleEdges(TriggerStep(id), next);
    hide Edges;
  }

  lemma SingleEdges(s: Step, next: string)
    requires !IsSwitch(s) && !IsForeach(s)
    ensures Edges([s], next) == DefaultEdges(s, next)
  {
    assert [s][1..] == [];
  }

  lemma TriggerPartEdges(ids: seq<string>, next: string)
    requires forall k :: 0 <= k < |ids| ==> ids[k] in TRIGGER_KEYS
    ensures Edges([TriggerStart(ids)] + TriggerSteps(ids) + [TriggerEnd], next) == TriggerBlock(ids, next).edges
  {
    var a, ts, z := TriggerStart(ids), TriggerSteps(ids), TriggerEnd;
    var first := FirstId(ts, "trigger_end");
    SingleEdges(a, first);
    SingleEdges(z, next);
    TriggerEdges(ids, "trigger_end");
    EdgesConcat([a] + ts, [z], next);
    EdgesConcat([a], ts, "trigger_end");
    assert FirstId([z], next) == "trigger_end";
    assert DefaultEdges(z, next) == [Edge("trigger_end", next, None)];
    assert DefaultEdges(a, first) == Fan("trigger_start", TriggerTargets(ids), None);
    assert TriggerBlock(ids, next).edges
        == Fan("trigger_start", TriggerTargets(ids), None) + ToEnd(ids) + [Edge("trigger_end", next, None)];
    hide *;
  }

  lemma FrameEdges(properties: seq<(string, bool)>, steps: seq<Step>)
    ensures Edges(InitialSequence(properties, steps), "")
         == [Edge("start", "trigger_start", None)]
            + (TriggerBlock(TriggerIds(properties), FirstId(steps, "end")).edges + Edges(steps, "end"))
  {
    var ids := TriggerIds(properties);
    var triggers := GetTriggerStep(properties);
    assert InitialSequence(properties, steps) == [StartStep] + (triggers + (steps + [EndStep]));
    SingleEdges(StartStep, "trigger_start");
    SingleEdges(EndStep, "");
    assert DefaultEdges(StartStep, "trigger_start") == [Edge("start", "trigger_start", None)];
    assert DefaultEdges(EndStep, "") == [];
    assert FirstId([EndStep], "") == "end" && FirstId(steps + [EndStep], "") == FirstId(steps, "end");
    assert FirstId(triggers + (steps + [EndStep]), "") == "trigger_start";
    assert triggers == [TriggerStart(ids)] + TriggerSteps(ids) + [TriggerEnd];
    hide *;
    EdgesConcat([StartStep], triggers + (steps + [EndStep]), "");
    EdgesConcat(triggers, steps + [EndStep], "");
    EdgesConcat(steps, [EndStep], "");
    TriggerPartEdges(ids, FirstId(steps, "end"));
    assert Edges(steps, "end") + [] == Edges(steps, "end");
  }

  /** The whole graph but its end node, as a block. */
  function InitialBlock(properties: seq<(string, bool)>, steps: seq<Step>): Block {
    Then(Unit("start", "trigger_start"),
         Then(TriggerBlock(TriggerIds(properties), FirstId(steps, "end")),
              NodeBlock(Nodes(steps, {}), Edges(steps, "end"))))
  }

  lemma InitialBlockGood(properties: seq<(string, bool)>, steps: seq<Step>)
    requires DrawableAll(steps)
    ensures var b := InitialBlock(properties, steps);
            && Good(b, "end")
            && b.edges == Edges(InitialSequence(properties, steps), "")
            && b.ids + ["end"] == Ids(Nodes(InitialSequence(properties, steps), {}))
  {
    var ids, first := TriggerIds(properties), FirstId(steps, "end");
    var t, w := TriggerBlock(ids, first), NodeBlock(Nodes(steps, {}), Edges(steps, "end"));
    InitialIds(properties, steps);
    FirstNode(steps, Edges(steps, "end"), "end");
    assert First(Then(t, w), "end") == "trigger_start";
    assert InitialBlock(properties, steps) == Then(Unit("start", "trigger_start"), Then(t, w));
    assert Unit("start", "trigger_start").edges == [Edge("start", "trigger_start", None)];
    assert Then(Unit("start", "trigger_start"), Then(t, w)).edges
        == [Edge("start", "trigger_start", None)] + (t.edges + Edges(steps, "end"));
    hide *;
    FrameEdges(properties, steps);
    StepsGood(steps, "end");
    TriggerBlockGood(ids, first);
    ThenGood(t, w, "end");
    UnitGood("start", "trigger_start");
    ThenGood(Unit("start", "trigger_start"), Then(t, w), "end");
  }

  lemma InitialIds(properties: seq<(string, bool)>, steps: seq<Step>)
    ensures InitialBlock(properties, steps).ids + ["end"] == Ids(Nodes(InitialSequence(properties, steps), {}))
  {
    var ids := TriggerIds(properties);
    var ts, ns := Nodes(TriggerSteps(ids), {}), Nodes(steps, {});
    assert Ids(ts) == ids by { TriggerNodes(ids); }
    var s, a, z, e := DefaultNode(StartStep), DefaultNode(TriggerStart(ids)), DefaultNode(TriggerEnd), DefaultNode(EndStep);
    assert s.id == "start" && a.id == "trigger_start" && z.id == "trigger_end" && e.id == "end";
    assert InitialBlock(properties, steps).ids == ["start"] + ((["trigger_start"] + ids + ["trigger_end"]) + Ids(ns));
    hide *;
    FrameNodes(properties, steps);
    FrameIds(s, a, ts, z, ns, e);
  }

  lemma FrameIds(s: FlowNode, a: FlowNode, ts: seq<FlowNode>, z: FlowNode, w: seq<FlowNode>, e: FlowNode)
    ensures Ids([s] + ([a] + ts + [z]) + w + [e]) == [s.id] + (([a.id] + Ids(ts) + [z.id]) + Ids(w)) + [e.id]
  {}

  /** The labels of the edges that leave a node when there are `triggers` triggers: a
      condition forks in False and True, the trigger start fans out to the triggers
      (or to the trigger end), any other node has one plain edge. */
  function Labels(n: FlowNode, triggers: nat): seq<Option<string>> {
    if n.data.componentType == "switch" then [Some("False"), Some("True")]
    else if n.id == "trigger_start" then Times(if triggers == 0 then 1 else triggers)
    else [None]
  }

  predicate Framing(n: FlowNode, id: string) {
    n.id == id && n.data.componentType != "switch"
  }

  /** The labels along start, trigger start, triggers, trigger end and the steps. */
  lemma FrameLabels(s: FlowNode, a: FlowNode, ts: seq<FlowNode>, z: FlowNode, w: seq<FlowNode>, e: FlowNode)
    requires Framing(s, "start") && Framing(a, "trigger_start") && Framing(z, "trigger_end")
    requires forall k :: 0 <= k < |ts| ==> ts[k].data.componentType != "switch"
    ensures var ns := [s] + ([a] + ts + [z]) + w + [e];
            var outs := [[None]] + ([Times(if ts == [] then 1 else |ts|)] + seq(|ts|, _ => [None]) + [[None]]) + AllForks(w);
            && |outs| == |ns| - 1
            && (Distinct(Ids(ns)) ==> forall k :: 0 <= k < |outs| ==> outs[k] == Labels(ns[k], |ts|))
  {
    var ns := [s] + ([a] + ts + [z]) + w + [e];
    var outs := [[None]] + ([Times(if ts == [] then 1 else |ts|)] + seq(|ts|, _ => [None]) + [[None]]) + AllForks(w);
    if Distinct(Ids(ns)) {
      assert Ids(ns)[1] == "trigger_start";
      forall k | 0 <= k < |outs| ensures outs[k] == Labels(ns[k], |ts|) {
        assert k != 1 ==> Ids(ns)[k] != Ids(ns)[1];
        if 2 <= k < |ts| + 2 {
          assert ns[k] == ts[k - 2] && outs[k] == [None];
        } else if |ts| + 3 <= k {
          assert ns[k] == w[k - |ts| - 3] && outs[k] == Forks(w[k - |ts| - 3]);
        }
      }
    }
  }

  lemma InitialOuts(properties: seq<(string, bool)>, steps: seq<Step>)
    ensures var outs, ids := InitialBlock(properties, steps).outs, TriggerIds(properties);
            var ns := Nodes(InitialSequence(properties, steps), {});
            && |outs| == |ns| - 1
            && (Distinct(Ids(ns)) ==> forall k :: 0 <= k < |outs| ==> outs[k] == Labels(ns[k], |ids|))
  {
    var ids, w := TriggerIds(properties), Nodes(steps, {});
    var ts := Nodes(TriggerSteps(ids), {});
    var s, a, z, e := DefaultNode(StartStep), DefaultNode(TriggerStart(ids)), DefaultNode(TriggerEnd), DefaultNode(EndStep);
    TriggerNodes(ids);
    assert InitialBlock(properties, steps).outs
        == [[None]] + ([Times(if ts == [] then 1 else |ts|)] + seq(|ts|, _ => [None]) + [[None]]) + AllForks(w) by {
      InitialOutsAre(properties, steps);
    }
    FrameNodes(properties, steps);
    FrameLabels(s, a, ts, z, w, e);
    hide *;
  }

  lemma InitialOutsAre(properties: seq<(string, bool)>, steps: seq<Step>)
    ensures var n := |TriggerIds(properties)|;
            InitialBlock(properties, steps).outs
            == [[None]] + ([Times(if n == 0 then 1 else n)] + seq(n, _ => [None]) + [[None]]) + AllForks(Nodes(steps, {}))
  {
    hide Nodes, Edges, TriggerIds, FirstId, AllForks, Ids, ToEnd, Fan;
    var ids := TriggerIds(properties);
    assert TriggerBlock(ids, FirstId(steps, "end")).outs
        == [Times(if ids == [] then 1 else |ids|)] + seq(|ids|, _ => [None]) + [[None]];
  }

  function Switches(ns: seq<FlowNode>): nat {
    if ns == [] then 0 else (if ns[0].data.componentType == "switch" then 1 else 0) + Switches(ns[1..])
  }

  lemma {:induction false} ForksTotal(ns: seq<FlowNode>)
    ensures Total(AllForks(ns)) == |ns| + Switches(ns)
  {
    if ns != [] {
      assert AllForks(ns)[1..] == AllForks(ns[1..]);
      ForksTotal(ns[1..]);
    }
  }

  lemma {:induction false} SwitchesConcat(a: seq<FlowNode>, b: seq<FlowNode>)
    ensures Switches(a + b) == Switches(a) + Switches(b)
  {
    if a == [] {
      assert a + b == b;
    } else {
      assert (a + b)[1..] == a[1..] + b;
      SwitchesConcat(a[1..], b);
    }
  }

  /** The number of conditions in a tree. */
  function Conditions(s: Step): nat
    decreases Size(s), 0
  {
    if IsSwitch(s) then 1 + ConditionsAll(TrueOf(s)) + ConditionsAll(FalseOf(s))
    else if IsForeach(s) then ConditionsAll(BodyOf(s))
    else 0
  }

  function ConditionsAll(steps: seq<Step>): nat
    decreases SizeAll(steps), 1
  {
    if steps == [] then 0 else Conditions(steps[0]) + ConditionsAll(steps[1..])
  }

  lemma {:induction false} SwitchesOf(s: Step)
    ensures Switches(NodesOf(s, {})) == Conditions(s)
    decreases Size(s), 0
  {
    if IsSwitch(s) {
      SwitchesAll(FalseOf(s));
      SwitchesAll(TrueOf(s));
      SwitchesInFork(s);
    } else if IsForeach(s) {
      MadeUpNodes(s, "foreach");
      SwitchesAll(BodyOf(s));
      SwitchesInside(ForeachStart(s), Nodes(BodyOf(s), {}), EmptyNode(s, "foreach"), ForeachEnd(s));
    }
  }

  lemma SwitchesInFork(s: Step)
    requires IsSwitch(s)
    ensures Switches(NodesOf(s, {})) == 1 + Switches(Nodes(TrueOf(s), {})) + Switches(Nodes(FalseOf(s), {}))
  {
    var f, t := Nodes(FalseOf(s), {}), Nodes(TrueOf(s), {});
    var a, x, y, z := SwitchStart(s), EmptyNode(s, "false"), EmptyNode(s, "true"), SwitchEnd(s);
    assert NodesOf(s, {}) == [a] + ((f + [x] + t) + [y]) + [z];
    assert a.data.componentType == "switch";
    MadeUpNodes(s, "true");
    MadeUpNodes(s, "false");
    assert Switches([x]) == 0 by { assert [x][1..] == []; }
    hide *;
    SwitchesInside(a, f + [x] + t, y, z);
    SwitchesConcat(f + [x], t);
    SwitchesConcat(f, [x]);
  }

  lemma SwitchesInside(a: FlowNode, ns: seq<FlowNode>, y: FlowNode, z: FlowNode)
    requires y.data.componentType != "switch" && z.data.componentType != "switch"
    ensures Switches([a] + (ns + [y]) + [z]) == (if a.data.componentType == "switch" then 1 else 0) + Switches(ns)
  {
    SwitchesConcat([a] + (ns + [y]), [z]);
    SwitchesConcat([a], ns + [y]);
    SwitchesConcat(ns, [y]);
    assert [a][1..] == [] && [y][1..] == [] && [z][1..] == [];
  }

  lemma {:induction false} SwitchesAll(steps: seq<Step>)
    ensures Switches(Nodes(steps, {})) == ConditionsAll(steps)
    decreases SizeAll(steps), 1
  {
    if steps != [] {
      SwitchesOf(steps[0]);
      SwitchesAll(steps[1..]);
      SwitchesConcat(NodesOf(steps[0], {}), Nodes(steps[1..], {}));
    }
  }

  lemma InitialTotal(properties: seq<(string, bool)>, steps: seq<Step>)
    ensures var triggers := |TriggerIds(properties)|;
            Total(InitialBlock(properties, steps).outs)
            == |Nodes(InitialSequence(properties, steps), {})| - 1 + ConditionsAll(steps)
               + (if triggers == 0 then 0 else triggers - 1)
  {
    var ids, w := TriggerIds(properties), Nodes(steps, {});
    TriggerTotal(ids, FirstId(steps, "end"));
    var u, t := Unit("start", "trigger_start"), TriggerBlock(ids, FirstId(steps, "end"));
    var b := NodeBlock(w, Edges(steps, "end"));
    assert |t.edges| == |TriggerTargets(ids)| + |ids| + 1;
    assert Total(u.outs) == 1 by { assert u.outs[1..] == []; }
    ForksTotal(w);
    SwitchesAll(steps);
    TotalConcat(t.outs, b.outs);
    TotalConcat(u.outs, t.outs + b.outs);
    InitialOuts(properties, steps);
    hide *;
  }

  ghost predicate AllLabelled(ns: seq<FlowNode>, edges: seq<Edge>, triggers: nat) {
    forall k :: 0 <= k < |ns| - 1 ==> Out(edges, ns[k].id) == Labels(ns[k], triggers)
  }

  ghost predicate Spanning(edges: seq<Edge>, line: seq<string>) {
    forall k :: 0 <= k < |line| ==> Connected(edges, line[0], line[k]) && Connected(edges, line[k], line[|line| - 1])
  }

  /** The graph over the nodes `ns`: edges join two of them and only go forward, so
      there is no cycle; the edges out of each are as `Labels` says, and none leaves
      the end; there is one edge per node before the end, plus one per condition, plus
      one per trigger after the first; every node is reached from the first and reaches
      the end. */
  ghost predicate Shaped(ns: seq<FlowNode>, edges: seq<Edge>, conditions: nat, triggers: nat) {
    && ns != [] && ns[|ns| - 1].id == "end"
    && AllForward(edges, Ids(ns)) && Acyclic(edges)
    && AllLabelled(ns, edges, triggers) && Out(edges, "end") == []
    && |edges| == |ns| - 1 + conditions + (if triggers == 0 then 0 else triggers - 1)
    && Spanning(edges, Ids(ns))
  }

  lemma BlockLabelled(b: Block, ns: seq<FlowNode>, triggers: nat)
    requires Leaves(b) && b.ids + ["end"] == Ids(ns)
    requires |b.outs| == |ns| - 1 && forall k :: 0 <= k < |b.outs| ==> b.outs[k] == Labels(ns[k], triggers)
    ensures AllLabelled(ns, b.edges, triggers)
  {
    hide Labels, Out;
    forall k | 0 <= k < |ns| - 1 ensures Out(b.edges, ns[k].id) == Labels(ns[k], triggers) {
      assert ns[k].id == Ids(ns)[k] == b.ids[k];
    }
  }

  lemma LabelsExist(n: FlowNode, triggers: nat)
    ensures Labels(n, triggers) != []
  {}

  lemma BlockShaped(b: Block, ns: seq<FlowNode>, conditions: nat, triggers: nat)
    requires Good(b, "end") && Distinct(b.ids + ["end"]) && b.ids + ["end"] == Ids(ns)
    requires |b.outs| == |ns| - 1 && forall k :: 0 <= k < |b.outs| ==> b.outs[k] == Labels(ns[k], triggers)
    requires Total(b.outs) == |ns| - 1 + conditions + (if triggers == 0 then 0 else triggers - 1)
    ensures Shaped(ns, b.edges, conditions, triggers)
  {
    hide Leaves, Labels, Out, Good, AllForward, AllEntered, Acyclic, Connected, Total, Distinct, AllLabelled, Ids;
    forall k | 0 <= k < |b.outs| ensures b.outs[k] != [] { LabelsExist(ns[k], triggers); }
    EndsWithEnd(ns, b.ids);
    ClosedGraph(b, "end");
    BlockLabelled(b, ns, triggers);
  }

  lemma EndsWithEnd(ns: seq<FlowNode>, ids: seq<string>)
    requires ids + ["end"] == Ids(ns)
    ensures ns != [] && ns[|ns| - 1].id == "end" && (ids + ["end"])[|ids|] == "end"
  {
    assert Ids(ns)[|ns| - 1] == "end";
  }

  /** The initial graph of a workflow whose node ids are all different. */
  lemma InitialGraphShape(properties: seq<(string, bool)>, steps: seq<Step>)
    requires DrawableAll(steps)
    requires Distinct(Ids(Nodes(InitialSequence(properties, steps), {})))
    ensures Shaped(Nodes(InitialSequence(properties, steps), {}), Edges(InitialSequence(properties, steps), ""),
                   ConditionsAll(steps), |TriggerIds(properties)|)
  {
    hide *;
    InitialBlockGood(properties, steps);
    InitialOuts(properties, steps);
    InitialTotal(properties, steps);
    BlockShaped(InitialBlock(properties, steps), Nodes(InitialSequence(properties, steps), {}),
                ConditionsAll(steps), |TriggerIds(properties)|);
  }
}
