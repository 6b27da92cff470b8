// Flattening a workflow and reading it back gives the same workflow.
module FlowRoundTrip {
  import opened Wrappers
  import opened FlowModel
  import opened FlowReader

  // ---- What a step tree means, without the fields that only affect drawing ----

  datatype Tree =
    | Leaf(id: string, name: string, componentType: string, stepType: string, properties: map<string, string>)
    | Condition(id: string, name: string, stepType: string, properties: map<string, string>,
                onTrue: seq<Tree>, onFalse: seq<Tree>)
    | Foreach(id: string, name: string, properties: map<string, string>, body: seq<Tree>)

  function Meaning(s: Step): Tree
    decreases Size(s), 0
  {
    if IsSwitch(s) then
      Condition(s.id, s.name, s.stepType, s.properties, Meanings(TrueOf(s)), Meanings(FalseOf(s)))
    else if IsForeach(s) then Foreach(s.id, s.name, s.properties, Meanings(BodyOf(s)))
    else Leaf(s.id, s.name, s.componentType, s.stepType, s.properties)
  }

  function Meanings(steps: seq<Step>): (trees: seq<Tree>)
    ensures |trees| == |steps|
    decreases SizeAll(steps), 1
  {
    if steps == [] then [] else [Meaning(steps[0])] + Meanings(steps[1..])
  }

  // ---- The step that comes back ----

  /** The exact record the reader returns for a step: a leaf gains its caption, a
      condition keeps only the fields its start node carries, and every list of
      children is present. */
  function Normal(s: Step): Step
    decreases Size(s), 0
  {
    if IsSwitch(s) then
      SwitchStart(s).data.(branches := Branches(Normals(TrueOf(s)), Normals(FalseOf(s))))
    else if IsForeach(s) then s.(isLayouted := None, sequence := Body(Normals(BodyOf(s))))
    else Labelled(s).(isLayouted := None)
  }

  function Normals(steps: seq<Step>): (r: seq<Step>)
    ensures |r| == |steps|
    decreases SizeAll(steps), 1
  {
    if steps == [] then [] else [Normal(steps[0])] + Normals(steps[1..])
  }

  lemma {:induction false} NormalMeansTheSame(s: Step)
    ensures Meaning(Normal(s)) == Meaning(s)
    decreases Size(s), 0
  {
    if IsSwitch(s) {
      NormalsMeanTheSame(TrueOf(s));
      NormalsMeanTheSame(FalseOf(s));
    } else if IsForeach(s) {
      NormalsMeanTheSame(BodyOf(s));
    }
  }

  lemma {:induction false} NormalsMeanTheSame(steps: seq<Step>)
    ensures Meanings(Normals(steps)) == Meanings(steps)
    decreases SizeAll(steps), 1
  {
    if steps != [] {
      NormalMeansTheSame(steps[0]);
      NormalsMeanTheSame(steps[1..]);
      assert Normals(steps)[1..] == Normals(steps[1..]);
    }
  }

  // ---- Which trees come back ----

  predicate IsSentinel(id: string, scope: Scope) {
    (scope.InForeach? && id == scope.emptyId)
    || (scope.InCondition? && (id == scope.trueId || id == scope.falseId))
  }

  /** No step of this list is mistaken for a sentinel of the block it stands in. */
  predicate AvoidsSentinels(steps: seq<Step>, scope: Scope) {
    forall k :: 0 <= k < |steps| ==> !IsSentinel(steps[k].id, scope)
  }

  predicate Avoids(steps: seq<Step>, id: string) {
    forall k :: 0 <= k < |steps| ==> steps[k].id != id
  }

  /** Conditions are the `switch` steps and have one of the two condition types, loops are
      the `foreach` containers, nothing inside has "trigger" in its component type or is a
      temporary step, and direct children avoid their block's sentinels. Ids need not be
      unique. */
  ghost predicate WellFormed(s: Step)
    decreases Size(s), 0
  {
    && (forall i :: !PartAt(s.componentType, "trigger", i))
    && (s.componentType == "switch" <==> s.stepType == "condition-threshold" || s.stepType == "condition-assert")
    && (s.stepType == "foreach" ==> s.componentType == "container")
    && s.stepType != "temp_node"
    && (s.componentType == "switch" && s.branches.Branches? ==>
          && WellFormedAll(s.branches.onTrue) && WellFormedAll(s.branches.onFalse)
          && Avoids(s.branches.onTrue, s.stepType + "__" + s.id + "__empty_true")
          && Avoids(s.branches.onTrue, s.stepType + "__" + s.id + "__empty_false")
          && Avoids(s.branches.onFalse, s.stepType + "__" + s.id + "__empty_true")
          && Avoids(s.branches.onFalse, s.stepType + "__" + s.id + "__empty_false"))
    && (s.stepType == "foreach" && s.sequence.Body? ==>
          && WellFormedAll(s.sequence.steps)
          && Avoids(s.sequence.steps, s.stepType + "__" + s.id + "__empty_foreach"))
  }

  ghost predicate WellFormedAll(steps: seq<Step>)
    decreases SizeAll(steps), 1
  {
    steps == [] || (WellFormed(steps[0]) && WellFormedAll(steps[1..]))
  }

  /** What this comes to in the reader's own terms. */
  lemma WellFormedParts(s: Step)
    requires WellFormed(s)
    ensures !Includes(s.componentType, "trigger") && (IsSwitch(s) <==> IsConditionType(s.stepType))
    ensures s.stepType == "foreach" ==> IsForeach(s)
    ensures IsSwitch(s) ==>
              && WellFormedAll(TrueOf(s)) && AvoidsSentinels(TrueOf(s), ScopeOf(s.stepType, s.id))
              && WellFormedAll(FalseOf(s)) && AvoidsSentinels(FalseOf(s), ScopeOf(s.stepType, s.id))
    ensures IsForeach(s) ==>
              WellFormedAll(BodyOf(s)) && AvoidsSentinels(BodyOf(s), ScopeOf(s.stepType, s.id))
  {
    hide Includes;
    IncludesIff(s.componentType, "trigger");
  }

  // ---- The scanner undoes the flattening ----

  /** `part` stands at position `i` of `ns`, before `end`. */
  predicate At(ns: seq<FlowNode>, i: nat, end: nat, part: seq<FlowNode>) {
    i + |part| <= end <= |ns| && forall k :: 0 <= k < |part| ==> part[k] == ns[i + k]
  }

  lemma AtSplit(ns: seq<FlowNode>, i: nat, end: nat, a: seq<FlowNode>, b: seq<FlowNode>)
    requires At(ns, i, end, a + b)
    ensures At(ns, i, end, a) && At(ns, i + |a|, end, b)
  {
    assert forall k :: 0 <= k < |a| ==> a[k] == (a + b)[k];
    assert forall k :: 0 <= k < |b| ==> b[k] == (a + b)[|a| + k];
  }

  /** What scanning has collected once `steps` were appended. */
  function After(p: Progress, steps: seq<Step>): Progress {
    p.(pending := p.pending + steps)
  }

  /** Having collected `p`, the scanner at node `i` does exactly what it does at node
      `j` having collected `q`. */
  ghost predicate Leads(ns: seq<FlowNode>, end: nat, scope: Scope, i: nat, p: Progress, j: nat, q: Progress) {
    i <= end + 1 && j <= end + 1 && end <= |ns| && Scan(ns, i, end, scope, p) == Scan(ns, j, end, scope, q)
  }

  lemma LeadsTrans(ns: seq<FlowNode>, end: nat, scope: Scope, i: nat, p: Progress, j: nat, q: Progress,
                   k: nat, r: Progress)
    requires Leads(ns, end, scope, i, p, j, q) && Leads(ns, end, scope, j, q, k, r)
    ensures Leads(ns, end, scope, i, p, k, r)
  {}

  /** Scanning the nodes of a list of steps appends the steps and goes on after them. */
  lemma {:induction false} ScanSteps(ns: seq<FlowNode>, i: nat, end: nat, scope: Scope, p: Progress,
                                     steps: seq<Step>, swapped: set<string>)
    requires WellFormedAll(steps) && AvoidsSentinels(steps, scope)
    requires At(ns, i, end, Nodes(steps, swapped))
    requires !Complete(scope, p)
    ensures Leads(ns, end, scope, i, p, i + |Nodes(steps, swapped)|, After(p, Normals(steps)))
    decreases SizeAll(steps), 4
  {
    hide *;
    if steps == [] {
      NoStepsPlan(ns, i, end, scope, p, swapped);
    } else {
      StepsPlan(steps, swapped, scope, p);
      var first, rest, p' := NodesOf(steps[0], swapped), Nodes(steps[1..], swapped), After(p, [Normal(steps[0])]);
      AtSplit(ns, i, end, first, rest);
      ScanStep(ns, i, end, scope, p, steps[0], swapped);
      ScanSteps(ns, i + |first|, end, scope, p', steps[1..], swapped);
      LeadsTrans(ns, end, scope, i, p, i + |first|, p', i + |first + rest|, After(p', Normals(steps[1..])));
    }
  }

  lemma NoStepsPlan(ns: seq<FlowNode>, i: nat, end: nat, scope: Scope, p: Progress, swapped: set<string>)
    requires At(ns, i, end, Nodes([], swapped))
    ensures Nodes([], swapped) == [] && After(p, Normals([])) == p && Leads(ns, end, scope, i, p, i, p)
  {
    assert p.pending + [] == p.pending;
  }

  /** Taking the first of a list of steps. */
  lemma StepsPlan(steps: seq<Step>, swapped: set<string>, scope: Scope, p: Progress)
    requires steps != [] && WellFormedAll(steps) && AvoidsSentinels(steps, scope) && !Complete(scope, p)
    ensures Nodes(steps, swapped) == NodesOf(steps[0], swapped) + Nodes(steps[1..], swapped)
    ensures After(After(p, [Normal(steps[0])]), Normals(steps[1..])) == After(p, Normals(steps))
    ensures !Complete(scope, After(p, [Normal(steps[0])]))
    ensures WellFormed(steps[0]) && WellFormedAll(steps[1..])
    ensures !IsSentinel(steps[0].id, scope) && AvoidsSentinels(steps[1..], scope)
    ensures SizeAll(steps) == Size(steps[0]) + SizeAll(steps[1..]) && Size(steps[0]) > 0
  {
    hide WellFormed, Normal, NodesOf, Includes, PartAt;
    assert (p.pending + [Normal(steps[0])]) + Normals(steps[1..]) == p.pending + Normals(steps);
  }

  lemma {:induction false} ScanStep(ns: seq<FlowNode>, i: nat, end: nat, scope: Scope, p: Progress,
                                    s: Step, swapped: set<string>)
    requires WellFormed(s) && !IsSentinel(s.id, scope)
    requires At(ns, i, end, NodesOf(s, swapped))
    requires !Complete(scope, p)
    ensures Leads(ns, end, scope, i, p, i + |NodesOf(s, swapped)|, After(p, [Normal(s)]))
    decreases Size(s), 3
  {
    if IsSwitch(s) {
      ScanSwitch(ns, i, end, scope, p, s, swapped);
    } else if IsForeach(s) {
      ScanForeach(ns, i, end, scope, p, s, swapped);
    } else {
      AtInside(ns, i, end, DefaultNode(s));
      ScanPlain(ns, i, end, scope, p);
    }
  }

  lemma {:induction false} ScanSwitch(ns: seq<FlowNode>, i: nat, end: nat, scope: Scope, p: Progress,
                                      s: Step, swapped: set<string>)
    requires WellFormed(s) && IsSwitch(s) && !IsSentinel(s.id, scope) && !Complete(scope, p)
    requires At(ns, i, end, NodesOf(s, swapped))
    ensures Leads(ns, end, scope, i, p, i + |NodesOf(s, swapped)|, After(p, [Normal(s)]))
    decreases Size(s), 2
  {
    hide *;
    var inner := BranchNodes(s, swapped);
    SwitchPlan(s, swapped, scope, p);
    AtSplit(ns, i, end, [SwitchStart(s)], inner + [SwitchEnd(s)]);
    AtInside(ns, i, end, SwitchStart(s));
    AtSplit(ns, i + 1, end, inner, [SwitchEnd(s)]);
    ScanBranches(ns, i + 1, end, s, swapped);
    ScanOpening(ns, i, end, scope, p);
    AtEnds(ns, i + 1 + |inner|, end, [SwitchEnd(s)]);
    LeadsBy(ns, end, scope, i, p, i + |NodesOf(s, swapped)|, After(p, [Normal(s)]));
  }

  /** What the scanner sees of a condition, and what it makes of it. */
  lemma SwitchPlan(s: Step, swapped: set<string>, scope: Scope, p: Progress)
    requires WellFormed(s) && IsSwitch(s) && !IsSentinel(s.id, scope)
    ensures NodesOf(s, swapped) == [SwitchStart(s)] + (BranchNodes(s, swapped) + [SwitchEnd(s)])
    ensures var n := SwitchStart(s);
            && Opens(n) && !IsSentinel(n.id, scope) && ScopeOf(n.data.stepType, n.id) == ScopeOf(s.stepType, s.id)
            && Filled(Data(n), Progress([], Some(Normals(TrueOf(s))), Some(Normals(FalseOf(s))), None)) == Normal(s)
  {
    WellFormedParts(s);
    hide Nodes, Normals, WellFormedAll;
  }

  lemma AtEnds(ns: seq<FlowNode>, i: nat, end: nat, part: seq<FlowNode>)
    requires At(ns, i, end, part)
    ensures i + |part| <= end <= |ns|
  {}

  lemma LeadsBy(ns: seq<FlowNode>, end: nat, scope: Scope, i: nat, p: Progress, j: nat, q: Progress)
    requires i <= end + 1 && j <= end + 1 && end <= |ns| && Scan(ns, i, end, scope, p) == Scan(ns, j, end, scope, q)
    ensures Leads(ns, end, scope, i, p, j, q)
  {}

  lemma {:induction false} ScanForeach(ns: seq<FlowNode>, i: nat, end: nat, scope: Scope, p: Progress,
                                       s: Step, swapped: set<string>)
    requires WellFormed(s) && IsForeach(s) && !IsSentinel(s.id, scope) && !Complete(scope, p)
    requires At(ns, i, end, NodesOf(s, swapped))
    ensures Leads(ns, end, scope, i, p, i + |NodesOf(s, swapped)|, After(p, [Normal(s)]))
    decreases Size(s), 2
  {
    hide *;
    var inner := Nodes(BodyOf(s), swapped) + [EmptyNode(s, "foreach")];
    ForeachPlan(s, swapped, scope);
    AtSplit(ns, i, end, [ForeachStart(s)], inner + [ForeachEnd(s)]);
    AtInside(ns, i, end, ForeachStart(s));
    AtSplit(ns, i + 1, end, inner, [ForeachEnd(s)]);
    ScanBody(ns, i + 1, end, s, swapped);
    ScanOpening(ns, i, end, scope, p);
    AtEnds(ns, i + 1 + |inner|, end, [ForeachEnd(s)]);
    LeadsBy(ns, end, scope, i, p, i + |NodesOf(s, swapped)|, After(p, [Normal(s)]));
  }

  /** What the scanner sees of a loop, and what it makes of it. */
  lemma ForeachPlan(s: Step, swapped: set<string>, scope: Scope)
    requires WellFormed(s) && IsForeach(s) && !IsSentinel(s.id, scope)
    ensures NodesOf(s, swapped)
         == [ForeachStart(s)] + ((Nodes(BodyOf(s), swapped) + [EmptyNode(s, "foreach")]) + [ForeachEnd(s)])
    ensures var n := ForeachStart(s);
            && Opens(n) && !IsSentinel(n.id, scope) && ScopeOf(n.data.stepType, n.id) == ScopeOf(s.stepType, s.id)
            && Filled(Data(n), Progress([], None, None, Some(Normals(BodyOf(s))))) == Normal(s)
  {
    WellFormedParts(s);
    hide Nodes, Normals, WellFormedAll;
  }

  /** One step of the scanner over a node that opens a block. */
  lemma ScanOpening(ns: seq<FlowNode>, i: nat, end: nat, scope: Scope, p: Progress)
    requires i < end <= |ns| && Opens(ns[i]) && !IsSentinel(ns[i].id, scope) && !Complete(scope, p)
    ensures var (j, inner) := Scan(ns, i + 1, end, ScopeOf(ns[i].data.stepType, ns[i].id), Fresh);
            Scan(ns, i, end, scope, p)
            == Scan(ns, j + 1, end, scope, After(p, [Filled(Data(ns[i]), inner)]))
  {
    hide Scan, Opens, Filled, Data, ScopeOf;
    ScanNext(ns, i, end, scope, p);
  }

  lemma ScanPlain(ns: seq<FlowNode>, i: nat, end: nat, scope: Scope, p: Progress)
    requires i < end <= |ns| && !Opens(ns[i]) && !IsSentinel(ns[i].id, scope) && !Complete(scope, p)
    ensures Scan(ns, i, end, scope, p) == Scan(ns, i + 1, end, scope, After(p, [Data(ns[i])]))
  {
    hide Scan, Opens, Data;
    ScanNext(ns, i, end, scope, p);
  }

  function BranchOf(s: Step, isTrue: bool): seq<Step> {
    if isTrue then TrueOf(s) else FalseOf(s)
  }

  /** One branch's nodes with the sentinel that closes them. */
  function Branch(s: Step, isTrue: bool, swapped: set<string>): seq<FlowNode> {
    Nodes(BranchOf(s, isTrue), swapped) + [EmptyNode(s, if isTrue then "true" else "false")]
  }

  function BranchNodes(s: Step, swapped: set<string>): seq<FlowNode> {
    if s.id in swapped then Branch(s, true, swapped) + Branch(s, false, swapped)
    else Branch(s, false, swapped) + Branch(s, true, swapped)
  }

  function Closed(p: Progress, isTrue: bool, steps: seq<Step>): Progress {
    if isTrue then p.(onTrue := Some(steps), pending := []) else p.(onFalse := Some(steps), pending := [])
  }

  lemma ScanSentinel(ns: seq<FlowNode>, i: nat, end: nat, s: Step, isTrue: bool, p: Progress)
    requires i < end <= |ns| && IsConditionType(s.stepType)
    requires ns[i].id == EmptyId(s, if isTrue then "true" else "false")
    requires !Complete(ScopeOf(s.stepType, s.id), p)
    ensures Leads(ns, end, ScopeOf(s.stepType, s.id), i, p, i + 1, Closed(p, isTrue, p.pending))
  {
    hide Scan, ScopeOf, EmptyId, IsConditionType;
    SentinelIds(s);
    ScanNext(ns, i, end, ScopeOf(s.stepType, s.id), p);
  }

  /** A branch, followed by its sentinel, is filed under the branch it belongs to. */
  lemma {:induction false} ScanBranch(ns: seq<FlowNode>, i: nat, end: nat, p: Progress, s: Step, isTrue: bool,
                                      swapped: set<string>)
    requires WellFormed(s) && IsSwitch(s)
    requires At(ns, i, end, Branch(s, isTrue, swapped))
    requires p.pending == [] && (if isTrue then p.onTrue.None? else p.onFalse.None?)
    ensures Leads(ns, end, ScopeOf(s.stepType, s.id), i, p,
                  i + |Branch(s, isTrue, swapped)|, Closed(p, isTrue, Normals(BranchOf(s, isTrue))))
    decreases Size(s), 0
  {
    hide *;
    var scope, steps := ScopeOf(s.stepType, s.id), BranchOf(s, isTrue);
    var sentinel := EmptyNode(s, if isTrue then "true" else "false");
    var j, q := i + |Nodes(steps, swapped)|, After(p, Normals(steps));
    BranchFacts(p, s, isTrue, swapped);
    AtSplit(ns, i, end, Nodes(steps, swapped), [sentinel]);
    ScanSteps(ns, i, end, scope, p, steps, swapped);
    AtInside(ns, j, end, sentinel);
    ScanSentinel(ns, j, end, s, isTrue, q);
    LeadsTrans(ns, end, scope, i, p, j, q, j + 1, Closed(q, isTrue, q.pending));
  }

  /** What filing a branch needs to know about it. */
  lemma BranchFacts(p: Progress, s: Step, isTrue: bool, swapped: set<string>)
    requires WellFormed(s) && IsSwitch(s)
    requires p.pending == [] && (if isTrue then p.onTrue.None? else p.onFalse.None?)
    ensures var scope, steps := ScopeOf(s.stepType, s.id), BranchOf(s, isTrue);
            var sentinel, q := EmptyNode(s, if isTrue then "true" else "false"), After(p, Normals(steps));
            && Branch(s, isTrue, swapped) == Nodes(steps, swapped) + [sentinel]
            && sentinel.id == EmptyId(s, if isTrue then "true" else "false")
            && WellFormedAll(steps) && AvoidsSentinels(steps, scope) && SizeAll(steps) < Size(s)
            && IsConditionType(s.stepType) && !Complete(scope, p) && !Complete(scope, q)
            && Closed(q, isTrue, q.pending) == Closed(p, isTrue, Normals(steps))
  {
    WellFormedParts(s);
    hide Nodes, Normals, WellFormedAll, AvoidsSentinels;
    assert p.pending + Normals(BranchOf(s, isTrue)) == Normals(BranchOf(s, isTrue));
  }

  /** A condition's two branches, in either order, are both filed, and the scan
      stops on the condition's end node. */
  lemma {:induction false} ScanBranches(ns: seq<FlowNode>, i: nat, end: nat, s: Step, swapped: set<string>)
    requires WellFormed(s) && IsSwitch(s)
    requires At(ns, i, end, BranchNodes(s, swapped) + [SwitchEnd(s)])
    ensures Scan(ns, i, end, ScopeOf(s.stepType, s.id), Fresh)
         == (i + |BranchNodes(s, swapped)|,
             Progress([], Some(Normals(TrueOf(s))), Some(Normals(FalseOf(s))), None))
    decreases Size(s), 1
  {
    hide *;
    var trueFirst, scope := s.id in swapped, ScopeOf(s.stepType, s.id);
    var a, b := Branch(s, trueFirst, swapped), Branch(s, !trueFirst, swapped);
    var p := Closed(Fresh, trueFirst, Normals(BranchOf(s, trueFirst)));
    var q := Closed(p, !trueFirst, Normals(BranchOf(s, !trueFirst)));
    var j, k := i + |a|, i + |a + b|;
    BranchPlan(s, swapped);
    AtSplit(ns, i, end, a + b, [SwitchEnd(s)]);
    AtSplit(ns, i, end, a, b);
    ScanBranch(ns, i, end, Fresh, s, trueFirst, swapped);
    ScanBranch(ns, j, end, p, s, !trueFirst, swapped);
    LeadsTrans(ns, end, scope, i, Fresh, j, p, k, q);
    AtInside(ns, k, end, SwitchEnd(s));
    ScanComplete(ns, k, end, scope, q);
    LeadsTo(ns, end, scope, i, Fresh, k, q);
  }

  lemma LeadsTo(ns: seq<FlowNode>, end: nat, scope: Scope, i: nat, p: Progress, j: nat, q: Progress)
    requires Leads(ns, end, scope, i, p, j, q)
    ensures i <= end + 1 && j <= end + 1 && end <= |ns| && Scan(ns, i, end, scope, p) == Scan(ns, j, end, scope, q)
  {}

  /** Whichever branch comes first, closing both gives the same record. */
  lemma BranchPlan(s: Step, swapped: set<string>)
    requires WellFormed(s) && IsSwitch(s)
    ensures var trueFirst := s.id in swapped;
            var p := Closed(Fresh, trueFirst, Normals(BranchOf(s, trueFirst)));
            var q := Closed(p, !trueFirst, Normals(BranchOf(s, !trueFirst)));
            && BranchNodes(s, swapped) == Branch(s, trueFirst, swapped) + Branch(s, !trueFirst, swapped)
            && q == Progress([], Some(Normals(TrueOf(s))), Some(Normals(FalseOf(s))), None)
            && p.pending == [] && (if !trueFirst then p.onTrue.None? else p.onFalse.None?)
            && Fresh.pending == [] && Fresh.onTrue.None? && Fresh.onFalse.None?
            && Complete(ScopeOf(s.stepType, s.id), q)
  {}

  lemma AtInside(ns: seq<FlowNode>, i: nat, end: nat, n: FlowNode)
    requires At(ns, i, end, [n])
    ensures i < end <= |ns| && ns[i] == n
  {
    assert [n][0] == ns[i + 0];
  }

  lemma ScanComplete(ns: seq<FlowNode>, i: nat, end: nat, scope: Scope, p: Progress)
    requires i < end <= |ns| && Complete(scope, p)
    ensures Scan(ns, i, end, scope, p) == (i, p)
  {
    hide Scan, Complete;
    ScanNext(ns, i, end, scope, p);
  }

  /** A loop body is filed, and the scan stops on the loop's end node. */
  lemma {:induction false} ScanBody(ns: seq<FlowNode>, i: nat, end: nat, s: Step, swapped: set<string>)
    requires WellFormed(s) && IsForeach(s)
    requires At(ns, i, end, Nodes(BodyOf(s), swapped) + [EmptyNode(s, "foreach")])
    ensures Scan(ns, i, end, ScopeOf(s.stepType, s.id), Fresh)
         == (i + |Nodes(BodyOf(s), swapped)| + 1,
             Progress([], None, None, Some(Normals(BodyOf(s)))))
    decreases Size(s), 1
  {
    hide *;
    var scope, sentinel := ScopeOf(s.stepType, s.id), EmptyNode(s, "foreach");
    var j, p := i + |Nodes(BodyOf(s), swapped)|, After(Fresh, Normals(BodyOf(s)));
    BodyFacts(s);
    AtSplit(ns, i, end, Nodes(BodyOf(s), swapped), [sentinel]);
    ScanSteps(ns, i, end, scope, Fresh, BodyOf(s), swapped);
    AtInside(ns, j, end, sentinel);
    ScanNext(ns, j, end, scope, p);
    LeadsTo(ns, end, scope, i, Fresh, j, p);
  }

  /** What filing a body needs to know about it. */
  lemma BodyFacts(s: Step)
    requires WellFormed(s) && IsForeach(s)
    ensures var scope, p := ScopeOf(s.stepType, s.id), After(Fresh, Normals(BodyOf(s)));
            && WellFormedAll(BodyOf(s)) && AvoidsSentinels(BodyOf(s), scope) && SizeAll(BodyOf(s)) < Size(s)
            && scope == InForeach(EmptyNode(s, "foreach").id) && !Complete(scope, Fresh) && !Complete(scope, p)
            && p == Progress(Normals(BodyOf(s)), None, None, None)
  {
    WellFormedParts(s);
    hide Normals, WellFormedAll, AvoidsSentinels;
    SentinelIds(s);
    assert [] + Normals(BodyOf(s)) == Normals(BodyOf(s));
  }

  /** The ids the flattening gives its sentinels are the ones the reader looks for,
      and a condition's two are different. */
  lemma SentinelIds(s: Step)
    ensures IsConditionType(s.stepType) ==>
              ScopeOf(s.stepType, s.id) == InCondition(EmptyId(s, "true"), EmptyId(s, "false"))
    ensures s.stepType == "foreach" ==> ScopeOf(s.stepType, s.id) == InForeach(EmptyId(s, "foreach"))
    ensures EmptyId(s, "true") != EmptyId(s, "false")
  {
    assert |EmptyId(s, "true")| != |EmptyId(s, "false")|;
    forall kind ensures EmptyId(s, kind) == s.stepType + "__" + s.id + ("__empty_" + kind) {
      assert "__" + ("empty_" + kind) == "__empty_" + kind;
    }
    assert "__empty_" + "true" == "__empty_true" && "__empty_" + "false" == "__empty_false";
    assert "__empty_" + "foreach" == "__empty_foreach";
  }

  // ---- Whole node lists ----

  lemma {:induction false} WithoutTriggersConcat(a: seq<FlowNode>, b: seq<FlowNode>)
    ensures WithoutTriggers(a + b) == WithoutTriggers(a) + WithoutTriggers(b)
  {
    if a == [] {
      assert a + b == b;
    } else {
      assert (a + b)[1..] == a[1..] + b;
      WithoutTriggersConcat(a[1..], b);
    }
  }

  predicate IsTrigger(n: FlowNode) {
    Includes(n.data.componentType, "trigger")
  }

  lemma {:induction false} TriggersVanish(ns: seq<FlowNode>)
    ensures (forall n :: n in ns ==> IsTrigger(n)) ==> WithoutTriggers(ns) == []
    ensures (forall n :: n in ns ==> !IsTrigger(n)) ==> WithoutTriggers(ns) == ns
  {
    if ns != [] {
      assert ns == [ns[0]] + ns[1..] && ns[0] in ns;
      TriggersVanish(ns[1..]);
    }
  }

  /** None of the component types the flattening makes up contains "trigger". */
  lemma MadeUpTypes()
    ensures forall kind :: kind in {"true", "false", "foreach"} ==> !Includes(EmptyKey(kind), "trigger")
    ensures forall t: string :: IsConditionType(t) ==> !Includes(t + "__end", "trigger")
  {
    assert forall s: string {:trigger Includes(s, "trigger")} :: 'g' !in s ==> !Includes(s, "trigger") by {
      forall s: string | 'g' !in s ensures !Includes(s, "trigger") { NoLetterNoTrigger(s); }
    }
  }

  lemma {:induction false} NoLetterNoTrigger(s: string)
    requires 'g' !in s
    ensures !Includes(s, "trigger")
  {
    if |s| >= 7 {
      assert "trigger"[3] == 'g' && s[..7][3] == s[3];
      NoLetterNoTrigger(s[1..]);
    } 
  }

  ghost predicate NoTrigger(ns: seq<FlowNode>) {
    forall n :: n in ns ==> !IsTrigger(n)
  }

  lemma NoTriggerConcat(a: seq<FlowNode>, b: seq<FlowNode>)
    requires NoTrigger(a) && NoTrigger(b)
    ensures NoTrigger(a + b)
  {
    hide IsTrigger;
  }

  /** None of the nodes the flattening makes up is taken for a trigger. */
  lemma MadeUpNodes(s: Step)
    requires WellFormed(s)
    ensures IsSwitch(s) ==> NoTrigger([SwitchStart(s)]) && NoTrigger([SwitchEnd(s)])
    ensures IsSwitch(s) ==> NoTrigger([EmptyNode(s, "true")]) && NoTrigger([EmptyNode(s, "false")])
    ensures IsForeach(s) ==> NoTrigger([ForeachStart(s)]) && NoTrigger([EmptyNode(s, "foreach")] + [ForeachEnd(s)])
    ensures !IsSwitch(s) && !IsForeach(s) ==> NoTrigger([DefaultNode(s)])
  {
    hide *;
    WellFormedParts(s);
    ComponentTypes(s);
    MadeUpTypes();
    if IsSwitch(s) {
      assert !Includes(s.stepType + "__end", "trigger");
      NotTrigger(SwitchStart(s));
      NotTrigger(SwitchEnd(s));
      NotTrigger(EmptyNode(s, "true"));
      NotTrigger(EmptyNode(s, "false"));
    } else {
      NotTrigger(DefaultNode(s));
    }
    if IsForeach(s) {
      NotTrigger(ForeachStart(s));
      NotTrigger(EmptyNode(s, "foreach"));
      NotTrigger(ForeachEnd(s));
      NoTriggerConcat([EmptyNode(s, "foreach")], [ForeachEnd(s)]);
    }
  }

  lemma NotTrigger(n: FlowNode)
    requires !Includes(n.data.componentType, "trigger")
    ensures NoTrigger([n])
  {}

  lemma ComponentTypes(s: Step)
    ensures SwitchStart(s).data.componentType == s.componentType && DefaultNode(s).data.componentType == s.componentType
    ensures SwitchEnd(s).data.componentType == s.stepType + "__end"
    ensures forall kind :: EmptyNode(s, kind).data.componentType == EmptyKey(kind)
    ensures ForeachStart(s).data.componentType == s.componentType && ForeachEnd(s).data.componentType == s.componentType
  {}

  /** No node of a well-formed step is taken for a trigger. */
  lemma {:induction false} StepHasNoTrigger(s: Step, swapped: set<string>)
    requires WellFormed(s)
    ensures NoTrigger(NodesOf(s, swapped))
    decreases Size(s), 0
  {
    hide *;
    MadeUpNodes(s);
    NodesPlan(s, swapped);
    if IsSwitch(s) {
      BranchHasNoTrigger(s, true, swapped);
      BranchHasNoTrigger(s, false, swapped);
      NoTriggerConcat(Branch(s, true, swapped), Branch(s, false, swapped));
      NoTriggerConcat(Branch(s, false, swapped), Branch(s, true, swapped));
      NoTriggerConcat(BranchNodes(s, swapped), [SwitchEnd(s)]);
      NoTriggerConcat([SwitchStart(s)], BranchNodes(s, swapped) + [SwitchEnd(s)]);
    } else if IsForeach(s) {
      StepsHaveNoTrigger(BodyOf(s), swapped);
      var tail := [EmptyNode(s, "foreach")] + [ForeachEnd(s)];
      NoTriggerConcat(Nodes(BodyOf(s), swapped), tail);
      NoTriggerConcat([ForeachStart(s)], Nodes(BodyOf(s), swapped) + tail);
    }
  }

  lemma {:induction false} BranchHasNoTrigger(s: Step, isTrue: bool, swapped: set<string>)
    requires WellFormed(s) && IsSwitch(s)
    ensures NoTrigger(Branch(s, isTrue, swapped))
    decreases Size(s), 0, 0
  {
    hide *;
    MadeUpNodes(s);
    BranchPieces(s, isTrue, swapped);
    StepsHaveNoTrigger(BranchOf(s, isTrue), swapped);
    NoTriggerConcat(Nodes(BranchOf(s, isTrue), swapped), [EmptyNode(s, if isTrue then "true" else "false")]);
  }

  lemma BranchPieces(s: Step, isTrue: bool, swapped: set<string>)
    requires WellFormed(s) && IsSwitch(s)
    ensures Branch(s, isTrue, swapped)
         == Nodes(BranchOf(s, isTrue), swapped) + [EmptyNode(s, if isTrue then "true" else "false")]
    ensures WellFormedAll(BranchOf(s, isTrue)) && SizeAll(BranchOf(s, isTrue)) < Size(s)
  {
    WellFormedParts(s);
    hide Nodes, WellFormedAll, AvoidsSentinels;
  }

  /** The nodes of a step of each kind. */
  lemma NodesPlan(s: Step, swapped: set<string>)
    requires WellFormed(s)
    ensures IsSwitch(s) ==>
              && NodesOf(s, swapped) == [SwitchStart(s)] + (BranchNodes(s, swapped) + [SwitchEnd(s)])
              && (BranchNodes(s, swapped) == Branch(s, true, swapped) + Branch(s, false, swapped)
                  || BranchNodes(s, swapped) == Branch(s, false, swapped) + Branch(s, true, swapped))
    ensures !IsSwitch(s) && IsForeach(s) ==>
              && NodesOf(s, swapped)
                 == [ForeachStart(s)] + (Nodes(BodyOf(s), swapped) + ([EmptyNode(s, "foreach")] + [ForeachEnd(s)]))
              && WellFormedAll(BodyOf(s)) && SizeAll(BodyOf(s)) < Size(s)
    ensures !IsSwitch(s) && !IsForeach(s) ==> NodesOf(s, swapped) == [DefaultNode(s)]
  {
    WellFormedParts(s);
    hide Nodes, WellFormedAll, AvoidsSentinels;
    if !IsSwitch(s) && IsForeach(s) {
      var inner, e, f := Nodes(BodyOf(s), swapped), [EmptyNode(s, "foreach")], [ForeachEnd(s)];
      assert inner + (e + f) == (inner + e) + f;
    }
  }

  lemma {:induction false} StepsHaveNoTrigger(steps: seq<Step>, swapped: set<string>)
    requires WellFormedAll(steps)
    ensures NoTrigger(Nodes(steps, swapped))
    decreases SizeAll(steps), 1
  {
    if steps != [] {
      hide NoTrigger, NodesOf, WellFormed;
      StepHasNoTrigger(steps[0], swapped);
      StepsHaveNoTrigger(steps[1..], swapped);
      NoTriggerConcat(NodesOf(steps[0], swapped), Nodes(steps[1..], swapped));
    }
  }

  /** Round trip: a well-formed workflow, flattened with any choice of branch order
      and framed by a start node, trigger nodes and an end node, is read back
      exactly, and it means the same. */
  lemma RoundTrip(start: FlowNode, triggers: seq<FlowNode>, steps: seq<Step>, end: FlowNode, swapped: set<string>)
    requires WellFormedAll(steps)
    requires forall n :: n in triggers ==> IsTrigger(n)
    ensures var read := Reconstruct([start] + triggers + Nodes(steps, swapped) + [end]);
            read == Normals(steps) && Meanings(read) == Meanings(steps)
  {
    var ns := Nodes(steps, swapped);
    OriginalNodes(start, triggers, steps, end, swapped);
    ReadBack(steps, swapped);
    NormalsMeanTheSame(steps);
    hide *;
  }

  /** Slicing off the frame and filtering the triggers leaves the flattened nodes. */
  lemma OriginalNodes(start: FlowNode, triggers: seq<FlowNode>, steps: seq<Step>, end: FlowNode, swapped: set<string>)
    requires WellFormedAll(steps)
    requires forall n :: n in triggers ==> IsTrigger(n)
    ensures WithoutTriggers(Inner([start] + triggers + Nodes(steps, swapped) + [end])) == Nodes(steps, swapped)
  {
    hide Nodes, WithoutTriggers, WellFormedAll, Includes;
    var ns := Nodes(steps, swapped);
    assert Inner([start] + triggers + ns + [end]) == triggers + ns;
    WithoutTriggersConcat(triggers, ns);
    TriggersVanish(triggers);
    StepsHaveNoTrigger(steps, swapped);
    TriggersVanish(ns);
  }

  lemma AtAll(ns: seq<FlowNode>)
    ensures At(ns, 0, |ns|, ns)
  {}

  lemma ReadBack(steps: seq<Step>, swapped: set<string>)
    requires WellFormedAll(steps)
    ensures var ns := Nodes(steps, swapped); Scan(ns, 0, |ns|, Top, Fresh).1.pending == Normals(steps)
  {
    var ns := Nodes(steps, swapped);
    hide Scan, Nodes, Normals, WellFormedAll, At, Leads;
    assert [] + Normals(steps) == Normals(steps);
    ScanNext(ns, |ns|, |ns|, Top, After(Fresh, Normals(steps)));
    assert AvoidsSentinels(steps, Top);
    AtAll(ns);
    ScanSteps(ns, 0, |ns|, Top, Fresh, steps, swapped);
    LeadsTo(ns, |ns|, Top, 0, Fresh, |ns|, After(Fresh, Normals(steps)));
  }

  // ---- What comes back, field by field ----

  /** Each step of a list comes back in its place. */
  lemma {:induction false} NormalsAt(steps: seq<Step>, k: nat)
    requires k < |steps|
    ensures Normals(steps)[k] == Normal(steps[k])
  {
    if k > 0 {
      NormalsAt(steps[1..], k - 1);
    }
  }

  /** A condition comes back with the fields of its start node and both branches, a loop
      with its body, and any other step with its caption, its name where it has none. */
  lemma RecordComesBack(s: Step)
    requires WellFormed(s)
    ensures s.componentType == "switch" ==>
              var (yes, no) := if s.branches.Branches? then (Normals(s.branches.onTrue), Normals(s.branches.onFalse))
                               else ([], []);
              Normal(s) == Step(s.id, s.name, "switch", s.stepType, s.properties, Some(s.name), None, false, None, Unset,
                                Branches(yes, no), NoBody)
    ensures s.stepType == "foreach" ==>
              Normal(s) == s.(isLayouted := None,
                              sequence := Body(if s.sequence.Body? then Normals(s.sequence.steps) else []))
    ensures s.componentType != "switch" && s.stepType != "foreach" ==>
              Normal(s) == s.(isLayouted := None,
                              caption := Some(if s.caption.Some? then s.caption.value else s.name))
  {
    hide Normals, WellFormedAll;
    assert Normals([]) == [];
  }

  /** A switch step of one of the two condition types, flattened and read back, is one
      condition with both of its branches. */
  lemma ConditionComesBack(s: Step, yes: seq<Step>, no: seq<Step>, swapped: set<string>)
    requires s.componentType == "switch" && s.stepType in {"condition-threshold", "condition-assert"}
    requires s.branches == Branches(yes, no) && WellFormedAll(yes) && WellFormedAll(no)
    requires forall c :: c in yes + no ==>
               c.id != s.stepType + "__" + s.id + "__empty_true" && c.id != s.stepType + "__" + s.id + "__empty_false"
    ensures var ns := Nodes([s], swapped);
            Scan(ns, 0, |ns|, Top, Fresh).1.pending
            == [Step(s.id, s.name, "switch", s.stepType, s.properties, Some(s.name), None, false, None, Unset,
                     Branches(Normals(yes), Normals(no)), NoBody)]
  {
    assert forall k :: 0 <= k < |yes| ==> yes[k] in yes + no;
    assert forall k :: 0 <= k < |no| ==> no[k] in yes + no;
    assert WellFormed(s) by {
      hide WellFormedAll;
      assert |"switch"| < |"trigger"|;
    }
    assert WellFormedAll([s]) by { assert [s][1..] == []; }
    assert Normals([s]) == [Normal(s)] by { assert [s][1..] == []; }
    hide Nodes, Scan, Normals, Normal, WellFormed;
    ReadBack([s], swapped);
    RecordComesBack(s);
  }

  // ---- Layout ----

  /** What the layout changes of the nodes besides their positions. */
  function Layouted(ns: seq<FlowNode>): (r: seq<FlowNode>)
    ensures |r| == |ns|
    ensures forall k :: 0 <= k < |r| ==> r[k].id == ns[k].id && r[k].data == ns[k].data.(isLayouted := Some(true))
  {
    seq(|ns|, k requires 0 <= k < |ns| => ns[k].(data := ns[k].data.(isLayouted := Some(true))))
  }

  /** To the reader, the nodes are the same: ids and data agree but for the drawing flag. */
  ghost predicate ReadAlike(ns: seq<FlowNode>, ns': seq<FlowNode>) {
    |ns| == |ns'| && forall k :: 0 <= k < |ns| ==> ns'[k].id == ns[k].id && Data(ns'[k]) == Data(ns[k])
  }

  lemma {:induction false} ScanAlike(ns: seq<FlowNode>, ns': seq<FlowNode>, i: nat, end: nat, scope: Scope, p: Progress)
    requires ReadAlike(ns, ns') && i <= end + 1 && end <= |ns|
    ensures Scan(ns', i, end, scope, p) == Scan(ns, i, end, scope, p)
    decreases end + 1 - i
  {
    hide Scan, Filled, Complete;
    ScanNext(ns, i, end, scope, p);
    ScanNext(ns', i, end, scope, p);
    if i < end && !Complete(scope, p) {
      assert ns'[i].id == ns[i].id && ns'[i].data.stepType == Data(ns'[i]).stepType == ns[i].data.stepType;
      if scope.InCondition? && ns[i].id == scope.trueId {
        ScanAlike(ns, ns', i + 1, end, scope, p.(onTrue := Some(p.pending), pending := []));
      } else if scope.InCondition? && ns[i].id == scope.falseId {
        ScanAlike(ns, ns', i + 1, end, scope, p.(onFalse := Some(p.pending), pending := []));
      } else if Opens(ns[i]) {
        var inScope := ScopeOf(ns[i].data.stepType, ns[i].id);
        var (j, inner) := Scan(ns, i + 1, end, inScope, Fresh);
        ScanAlike(ns, ns', i + 1, end, inScope, Fresh);
        ScanAlike(ns, ns', j + 1, end, scope, p.(pending := p.pending + [Filled(Data(ns[i]), inner)]));
      } else {
        ScanAlike(ns, ns', i + 1, end, scope, p.(pending := p.pending + [Data(ns[i])]));
      }
    }
  }

  lemma {:induction false} FilterAlike(ns: seq<FlowNode>, ns': seq<FlowNode>)
    requires ReadAlike(ns, ns')
    ensures ReadAlike(WithoutTriggers(ns), WithoutTriggers(ns'))
  {
    if ns != [] {
      assert ns'[0].data.componentType == Data(ns'[0]).componentType == ns[0].data.componentType;
      hide Includes;
      FilterAlike(ns[1..], ns'[1..]);
    }
  }

  /** Laying the nodes out changes nothing that is read back. */
  lemma LayoutReads(ns: seq<FlowNode>)
    ensures Reconstruct(Layouted(ns)) == Reconstruct(ns)
    ensures HasManual(Layouted(ns)) == HasManual(ns)
  {
    var ns' := Layouted(ns);
    assert ReadAlike(Inner(ns), Inner(ns'));
    FilterAlike(Inner(ns), Inner(ns'));
    var original := WithoutTriggers(Inner(ns));
    ScanAlike(original, WithoutTriggers(Inner(ns')), 0, |original|, Top, Fresh);
    assert forall k :: 0 <= k < |ns| ==> ns[k] in ns && ns'[k] in ns';
    hide Layouted, Scan, WithoutTriggers, Inner;
  }
}
