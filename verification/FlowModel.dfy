// The workflow builder's data: a nested step tree, and the flat node and edge
// lists it is drawn from (keep-ui/utils/reactFlow.ts).
//
// `Nodes` and `Edges` say directly what the flattening emits; the loops that
// compute it through temporary steps are in FlowBuilder.
module FlowModel {
  import opened Wrappers

  /** `edgeTarget?: string | string[]`: unset, one id, or a list of ids. */
  datatype Target = Unset | One(id: string) | Many(ids: seq<string>)

  /** `branches?` and `sequence?`: absent, or the children of a condition or loop. */
  datatype Branches = NoBranches | Branches(onTrue: seq<Step>, onFalse: seq<Step>)

  datatype Body = NoBody | Body(steps: seq<Step>)

  /** A step of the tree; the same record is the `data` of a node. The values of properties
      stand as their JSON texts. */
  datatype Step = Step(
    id: string,
    name: string,
    componentType: string,
    stepType: string,
    properties: map<string, string>,
    caption: Option<string>,
    isLayouted: Option<bool>,
    edgeNotNeeded: bool,
    edgeLabel: Option<string>,
    edgeTarget: Target,
    branches: Branches,
    sequence: Body
  )

  datatype FlowNode = FlowNode(id: string, data: Step)

  datatype Edge = Edge(source: string, target: string, tag: Option<string>)

  /** A step with no optional field. */
  function BasicStep(id: string, name: string, componentType: string, stepType: string,
                     properties: map<string, string>): Step
  {
    Step(id, name, componentType, stepType, properties, None, None, false, None, Unset, NoBranches, NoBody)
  }

  predicate IsSwitch(s: Step) {
    s.componentType == "switch"
  }

  predicate IsForeach(s: Step) {
    s.componentType != "switch" && s.componentType == "container" && s.stepType == "foreach"
  }

  /** `step?.branches?.true || []` */
  function TrueOf(s: Step): seq<Step> {
    if s.branches.Branches? then s.branches.onTrue else []
  }

  function FalseOf(s: Step): seq<Step> {
    if s.branches.Branches? then s.branches.onFalse else []
  }

  function BodyOf(s: Step): seq<Step> {
    if s.sequence.Body? then s.sequence.steps else []
  }

  /** The number of steps in a tree: the measure every traversal below decreases. */
  function Size(s: Step): (n: nat)
    ensures s.branches.Branches? ==> SizeAll(s.branches.onTrue) + SizeAll(s.branches.onFalse) < n
    ensures s.sequence.Body? ==> SizeAll(s.sequence.steps) < n
    decreases s
  {
    1 + (if s.branches.Branches? then SizeAll(s.branches.onTrue) + SizeAll(s.branches.onFalse) else 0)
    + (if s.sequence.Body? then SizeAll(s.sequence.steps) else 0)
  }

  function SizeAll(steps: seq<Step>): nat
    decreases steps
  {
    if steps == [] then 0 else Size(steps[0]) + SizeAll(steps[1..])
  }

  function EndId(s: Step): string {
    s.stepType + "__end__" + s.id
  }

  function EmptyId(s: Step, kind: string): string {
    s.stepType + "__" + s.id + "__" + EmptyKey(kind)
  }

  function EmptyKey(kind: string): string {
    "empty_" + kind
  }

  /** The sentinel that closes a branch or a loop body. */
  function EmptyStep(s: Step, kind: string): Step {
    BasicStep(EmptyId(s, kind), "empty", EmptyKey(kind), EmptyKey(kind), map[])
  }

  /** `{ label: step.name, ...step }`: the step's own label wins when it has one. */
  function Labelled(s: Step): Step {
    s.(caption := Some(s.caption.GetOr(s.name)))
  }

  function DefaultNode(s: Step): FlowNode {
    FlowNode(s.id, Labelled(s))
  }

  function EmptyNode(s: Step, kind: string): FlowNode {
    DefaultNode(EmptyStep(s, kind))
  }

  function SwitchStart(s: Step): FlowNode {
    FlowNode(s.id, BasicStep(s.id, s.name, s.componentType, s.stepType, s.properties).(caption := Some(s.name)))
  }

  /** `text.replace(part, "")`: without the first occurrence, if there is one. */
  function Dropped(text: string, part: string): string {
    if part <= text then text[|part|..]
    else if text == "" then ""
    else [text[0]] + Dropped(text[1..], part)
  }

  /** What the end node of a condition is called. */
  function EndName(stepType: string): string {
    Dropped(Dropped(Dropped(Dropped(stepType, "step-"), "condition-"), "__end"), "action-") + " End"
  }

  function SwitchEnd(s: Step): FlowNode {
    FlowNode(EndId(s), BasicStep(EndId(s), EndName(s.stepType), s.stepType + "__end", s.stepType + "__end", map[]).(
                         caption := Some(EndName(s.stepType))))
  }

  function ForeachStart(s: Step): FlowNode {
    FlowNode(s.id, s.(sequence := NoBody))
  }

  function ForeachEnd(s: Step): FlowNode {
    FlowNode(EndId(s), s.(sequence := NoBody, id := EndId(s), caption := Some("foreach end"),
                          stepType := s.stepType + "__end", name := "Foreach End"))
  }

  /** The nodes of one step. `swapped` holds the ids of the conditions whose true
      branch is listed first; the program always lists the false branch first. */
  function NodesOf(s: Step, swapped: set<string>): seq<FlowNode>
    decreases Size(s), 0
  {
    if IsSwitch(s) then
      var f := Nodes(FalseOf(s), swapped) + [EmptyNode(s, "false")];
      var t := Nodes(TrueOf(s), swapped) + [EmptyNode(s, "true")];
      [SwitchStart(s)] + (if s.id in swapped then t + f else f + t) + [SwitchEnd(s)]
    else if IsForeach(s) then
      [ForeachStart(s)] + (Nodes(BodyOf(s), swapped) + [EmptyNode(s, "foreach")]) + [ForeachEnd(s)]
    else if s.stepType == "temp_node" then []
    else [DefaultNode(s)]
  }

  function Nodes(steps: seq<Step>, swapped: set<string>): seq<FlowNode>
    decreases SizeAll(steps), 1
  {
    if steps == [] then [] else NodesOf(steps[0], swapped) + Nodes(steps[1..], swapped)
  }

  /** The id a step before `steps` leads to, when `next` follows `steps`. */
  function FirstId(steps: seq<Step>, next: string): string {
    if steps == [] then next else steps[0].id
  }

  function OrElse(id: string, default: string): string {
    if id == "" then default else id
  }

  /** The targets of a plain step's edges: `step.edgeTarget || nextNodeId`. */
  function TargetsOf(s: Step, next: string): seq<string> {
    match s.edgeTarget
    case Unset => [next]
    case One(id) => [OrElse(id, next)]
    case Many(ids) => ids
  }

  /** One edge from `source` to each target. */
  function Fan(source: string, targets: seq<string>, tag: Option<string>): seq<Edge> {
    seq(|targets|, k requires 0 <= k < |targets| => Edge(source, targets[k], tag))
  }

  function DefaultEdges(s: Step, next: string): seq<Edge> {
    if s.id != "end" && !s.edgeNotNeeded then Fan(s.id, TargetsOf(s, next), s.edgeLabel) else []
  }

  /** The edges of one branch: the first one leaves the condition and carries the
      branch's label. (A condition called "end" emits no edge of its own, so there
      the branch's own first edge is redirected.) */
  function BranchEdges(s: Step, branch: seq<Step>, kind: string, tag: string): seq<Edge>
    requires branch == TrueOf(s) || branch == FalseOf(s)
    decreases SizeAll(branch), 2
  {
    var inner := Edges(branch, EmptyId(s, kind)) + [Edge(EmptyId(s, kind), EndId(s), None)];
    if s.id != "end" then
      [Edge(s.id, OrElse(FirstId(branch, EmptyId(s, kind)), EndId(s)), Some(tag))] + inner
    else
      [Edge(s.id, OrElse(inner[0].target, EndId(s)), Some(tag))] + inner[1..]
  }

  /** The edges of one step that is followed by the node `next`. */
  function EdgesOf(s: Step, next: string): seq<Edge>
    decreases Size(s), 0
  {
    if IsSwitch(s) then
      BranchEdges(s, FalseOf(s), "false", "False")
      + BranchEdges(s, TrueOf(s), "true", "True")
      + [Edge(EndId(s), next, None)]
    else if IsForeach(s) then
      (if s.id != "end" then [Edge(s.id, FirstId(BodyOf(s), EmptyId(s, "foreach")), None)] else [])
      + Edges(BodyOf(s), EmptyId(s, "foreach"))
      + [Edge(EmptyId(s, "foreach"), EndId(s), None), Edge(EndId(s), next, None)]
    else DefaultEdges(s, next)
  }

  function Edges(steps: seq<Step>, next: string): seq<Edge>
    decreases SizeAll(steps), 1
  {
    if steps == [] then [] else EdgesOf(steps[0], FirstId(steps[1..], next)) + Edges(steps[1..], next)
  }

  lemma {:induction false} EdgesConcat(a: seq<Step>, b: seq<Step>, next: string)
    ensures Edges(a + b, next) == Edges(a, FirstId(b, next)) + Edges(b, next)
  {
    if a == [] {
      assert a + b == b;
    } else {
      assert (a + b)[1..] == a[1..] + b;
      EdgesConcat(a[1..], b, next);
    }
  }

  lemma {:induction false} NodesConcat(a: seq<Step>, b: seq<Step>, swapped: set<string>)
    ensures Nodes(a + b, swapped) == Nodes(a, swapped) + Nodes(b, swapped)
  {
    if a == [] {
      assert a + b == b;
    } else {
      assert (a + b)[1..] == a[1..] + b;
      NodesConcat(a[1..], b, swapped);
    }
  }
}
