// Reading a flat node list back into a step tree
// (keep-ui/utils/reactFlow.ts, reConstructWorklowToDefinition).
//
// The program has three mutually recursive scanners that pass an index around.
// `Scan` is one function for all three; the methods below are the scanners'
// own loops, each proved to return what `Scan` says.
module FlowReader {
  import opened Wrappers
  import opened FlowModel

  /** What the scanner is inside of, with the sentinel ids it looks for. */
  datatype Scope = Top | InForeach(emptyId: string) | InCondition(trueId: string, falseId: string)

  /** What the scanner has collected: the pending list, and what was closed so far. */
  datatype Progress = Progress(pending: seq<Step>, onTrue: Option<seq<Step>>, onFalse: Option<seq<Step>>,
                               body: Option<seq<Step>>)

  const Fresh: Progress := Progress([], None, None, None)

  /** The node types the reader takes for conditions. */
  predicate IsConditionType(t: string) {
    t == "condition-threshold" || t == "condition-assert"
  }

  /** `const { isLayouted, ...nodeData } = currentNode?.data` */
  function Data(n: FlowNode): Step {
    n.data.(isLayouted := None)
  }

  predicate Opens(n: FlowNode) {
    IsConditionType(n.data.stepType) || n.data.stepType == "foreach"
  }

  function ScopeOf(stepType: string, nodeId: string): Scope {
    if IsConditionType(stepType) then
      InCondition(stepType + "__" + nodeId + "__empty_true", stepType + "__" + nodeId + "__empty_false")
    else InForeach(stepType + "__" + nodeId + "__empty_foreach")
  }

  /** The step for a block whose scan ended with `p`; what was never closed is empty. */
  function Filled(data: Step, p: Progress): Step {
    if IsConditionType(data.stepType) then
      data.(branches := Branches(p.onTrue.GetOr([]), p.onFalse.GetOr([])))
    else data.(sequence := Body(p.body.GetOr([])))
  }

  predicate Complete(scope: Scope, p: Progress) {
    scope.InCondition? && p.onTrue.Some? && p.onFalse.Some?
  }

  /** Scans nodes `i..end`; returns the index the scanner stops at and what it
      collected. A nested block's scan resumes one past the index it returned. */
  function Scan(ns: seq<FlowNode>, i: nat, end: nat, scope: Scope, p: Progress): (r: (nat, Progress))
    requires i <= end + 1 && end <= |ns|
    ensures (if i < end then i else end) <= r.0 <= end
    decreases end + 1 - i
  {
    if i >= end then (end, p)
    else if Complete(scope, p) then (i, p)
    else if scope.InForeach? && ns[i].id == scope.emptyId then
      (i + 1, p.(body := Some(p.pending), pending := []))
    else if scope.InCondition? && ns[i].id == scope.trueId then
      Scan(ns, i + 1, end, scope, p.(onTrue := Some(p.pending), pending := []))
    else if scope.InCondition? && ns[i].id == scope.falseId then
      Scan(ns, i + 1, end, scope, p.(onFalse := Some(p.pending), pending := []))
    else if Opens(ns[i]) then
      var (j, inner) := Scan(ns, i + 1, end, ScopeOf(ns[i].data.stepType, ns[i].id), Fresh);
      Scan(ns, j + 1, end, scope, p.(pending := p.pending + [Filled(Data(ns[i]), inner)]))
    else
      Scan(ns, i + 1, end, scope, p.(pending := p.pending + [Data(ns[i])]))
  }

  /** One step of the scan. */
  lemma {:induction false} ScanNext(ns: seq<FlowNode>, i: nat, end: nat, scope: Scope, p: Progress)
    requires i <= end + 1 && end <= |ns|
    ensures i >= end ==> Scan(ns, i, end, scope, p) == (end, p)
    ensures i < end && Complete(scope, p) ==> Scan(ns, i, end, scope, p) == (i, p)
    ensures i < end && !Complete(scope, p) ==>
              Scan(ns, i, end, scope, p) ==
              if scope.InForeach? && ns[i].id == scope.emptyId then (i + 1, p.(body := Some(p.pending), pending := []))
              else if scope.InCondition? && ns[i].id == scope.trueId then
                Scan(ns, i + 1, end, scope, p.(onTrue := Some(p.pending), pending := []))
              else if scope.InCondition? && ns[i].id == scope.falseId then
                Scan(ns, i + 1, end, scope, p.(onFalse := Some(p.pending), pending := []))
              else if Opens(ns[i]) then
                var (j, inner) := Scan(ns, i + 1, end, ScopeOf(ns[i].data.stepType, ns[i].id), Fresh);
                Scan(ns, j + 1, end, scope, p.(pending := p.pending + [Filled(Data(ns[i]), inner)]))
              else Scan(ns, i + 1, end, scope, p.(pending := p.pending + [Data(ns[i])]))
  {
    hide Filled, Data, ScopeOf, Opens;
  }

  // ---- Sentinels that are missing ----

  /** A branch or body is only filed where its sentinel stands: when that is missing, what was
      scanned for it is gone. */
  lemma {:induction false} NeverFiled(ns: seq<FlowNode>, i: nat, end: nat, scope: Scope, p: Progress)
    requires i <= end + 1 && end <= |ns|
    ensures var q := Scan(ns, i, end, scope, p).1;
            && (scope.InForeach? && (forall k :: i <= k < end ==> ns[k].id != scope.emptyId) ==> q.body == p.body)
            && (scope.InCondition? && (forall k :: i <= k < end ==> ns[k].id != scope.trueId) ==> q.onTrue == p.onTrue)
            && (scope.InCondition? && (forall k :: i <= k < end ==> ns[k].id != scope.falseId) ==> q.onFalse == p.onFalse)
    decreases end + 1 - i
  {
    hide Scan, Filled, Data, ScopeOf, Opens;
    ScanNext(ns, i, end, scope, p);
    if i >= end || Complete(scope, p) || (scope.InForeach? && ns[i].id == scope.emptyId) {
    } else if scope.InCondition? && ns[i].id == scope.trueId {
      NeverFiled(ns, i + 1, end, scope, p.(onTrue := Some(p.pending), pending := []));
    } else if scope.InCondition? && ns[i].id == scope.falseId {
      NeverFiled(ns, i + 1, end, scope, p.(onFalse := Some(p.pending), pending := []));
    } else if Opens(ns[i]) {
      var (j, inner) := Scan(ns, i + 1, end, ScopeOf(ns[i].data.stepType, ns[i].id), Fresh);
      NeverFiled(ns, j + 1, end, scope, p.(pending := p.pending + [Filled(Data(ns[i]), inner)]));
    } else {
      NeverFiled(ns, i + 1, end, scope, p.(pending := p.pending + [Data(ns[i])]));
    }
  }

  /** A loop without its sentinel comes back empty, and so does a branch of a condition. */
  lemma UnclosedIsEmpty(ns: seq<FlowNode>, i: nat, end: nat, data: Step, id: string)
    requires i <= end <= |ns|
    ensures var (j, p) := Scan(ns, i, end, ScopeOf(data.stepType, id), Fresh);
            var none := (tail: string) => forall k :: i <= k < end ==> ns[k].id != data.stepType + "__" + id + tail;
            && (data.stepType == "foreach" && none("__empty_foreach") ==> Filled(data, p).sequence == Body([]))
            && (data.stepType in {"condition-threshold", "condition-assert"} ==>
                  && Filled(data, p).branches.Branches?
                  && (none("__empty_true") ==> Filled(data, p).branches.onTrue == [])
                  && (none("__empty_false") ==> Filled(data, p).branches.onFalse == []))
  {
    NeverFiled(ns, i, end, ScopeOf(data.stepType, id), Fresh);
    hide Scan;
  }

  // ---- The scanners' loops ----

  method ProcessForeach(ns: seq<FlowNode>, startIdx: nat, endIdx: nat, foreachNode: Step, nodeId: string)
    returns (next: nat, filled: Step)
    requires startIdx <= endIdx <= |ns|
    requires foreachNode.stepType == "foreach"
    ensures startIdx <= next <= endIdx
    ensures var (j, p) := Scan(ns, startIdx, endIdx, ScopeOf(foreachNode.stepType, nodeId), Fresh);
            next == j && filled == Filled(foreachNode, p)
    decreases endIdx - startIdx, 0
  {
    hide Scan;
    filled := foreachNode.(sequence := Body([]));
    var tempSequence: seq<Step> := [];
    var foreachEmptyId := foreachNode.stepType + "__" + nodeId + "__empty_foreach";
    ghost var scope := ScopeOf(foreachNode.stepType, nodeId);
    var i := startIdx;
    while i < endIdx
      invariant startIdx <= i <= endIdx + 1
      invariant filled == foreachNode.(sequence := Body([]))
      invariant Scan(ns, startIdx, endIdx, scope, Fresh) == Scan(ns, i, endIdx, scope, Fresh.(pending := tempSequence))
      decreases endIdx + 1 - i
    {
      ScanNext(ns, i, endIdx, scope, Fresh.(pending := tempSequence));
      var currentNode := ns[i];
      var nodeData := Data(currentNode);
      if currentNode.id == foreachEmptyId {
        filled := filled.(sequence := Body(tempSequence));
        return i + 1, filled;
      }
      if IsConditionType(nodeData.stepType) {
        i, nodeData := ProcessCondition(ns, i + 1, endIdx, nodeData, currentNode.id);
      } else if nodeData.stepType == "foreach" {
        i, nodeData := ProcessForeach(ns, i + 1, endIdx, nodeData, currentNode.id);
      }
      tempSequence := tempSequence + [nodeData];
      i := i + 1;
    }
    ScanNext(ns, i, endIdx, scope, Fresh.(pending := tempSequence));
    return endIdx, filled;
  }

  method ProcessCondition(ns: seq<FlowNode>, startIdx: nat, endIdx: nat, conditionNode: Step, nodeId: string)
    returns (next: nat, filled: Step)
    requires startIdx <= endIdx <= |ns|
    requires IsConditionType(conditionNode.stepType)
    ensures startIdx <= next <= endIdx
    ensures var (j, p) := Scan(ns, startIdx, endIdx, ScopeOf(conditionNode.stepType, nodeId), Fresh);
            next == j && filled == Filled(conditionNode, p)
    decreases endIdx - startIdx, 0
  {
    hide Scan, IsConditionType;
    var onTrue: seq<Step>, onFalse: seq<Step> := [], [];
    var trueBranchEmptyId := conditionNode.stepType + "__" + nodeId + "__empty_true";
    var falseBranchEmptyId := conditionNode.stepType + "__" + nodeId + "__empty_false";
    var trueCaseAdded, falseCaseAdded := false, false;
    var tempSequence: seq<Step> := [];
    ghost var scope := ScopeOf(conditionNode.stepType, nodeId);
    ghost var p := Fresh;
    var i := startIdx;
    while i < endIdx
      invariant startIdx <= i <= endIdx + 1
      invariant p == Progress(tempSequence, if trueCaseAdded then Some(onTrue) else None,
                              if falseCaseAdded then Some(onFalse) else None, None)
      invariant !trueCaseAdded ==> onTrue == []
      invariant !falseCaseAdded ==> onFalse == []
      invariant Scan(ns, startIdx, endIdx, scope, Fresh) == Scan(ns, i, endIdx, scope, p)
      decreases endIdx + 1 - i
    {
      ScanNext(ns, i, endIdx, scope, p);
      var currentNode := ns[i];
      var nodeData := Data(currentNode);
      if trueCaseAdded && falseCaseAdded {
        return i, conditionNode.(branches := Branches(onTrue, onFalse));
      }
      if currentNode.id == trueBranchEmptyId {
        onTrue, trueCaseAdded, tempSequence := tempSequence, true, [];
      } else if currentNode.id == falseBranchEmptyId {
        onFalse, falseCaseAdded, tempSequence := tempSequence, true, [];
      } else {
        if IsConditionType(nodeData.stepType) {
          i, nodeData := ProcessCondition(ns, i + 1, endIdx, nodeData, currentNode.id);
        } else if nodeData.stepType == "foreach" {
          i, nodeData := ProcessForeach(ns, i + 1, endIdx, nodeData, currentNode.id);
        }
        tempSequence := tempSequence + [nodeData];
      }
      p := Progress(tempSequence, if trueCaseAdded then Some(onTrue) else None,
                    if falseCaseAdded then Some(onFalse) else None, None);
      i := i + 1;
    }
    ScanNext(ns, i, endIdx, scope, p);
    return endIdx, conditionNode.(branches := Branches(onTrue, onFalse));
  }

  method BuildWorkflowDefinition(ns: seq<FlowNode>, startIdx: nat, endIdx: nat)
    returns (workflowSequence: seq<Step>)
    requires startIdx <= endIdx <= |ns|
    ensures workflowSequence == Scan(ns, startIdx, endIdx, Top, Fresh).1.pending
  {
    hide Scan, IsConditionType;
    workflowSequence := [];
    var i := startIdx;
    while i < endIdx
      invariant startIdx <= i <= endIdx + 1
      invariant Scan(ns, startIdx, endIdx, Top, Fresh) == Scan(ns, i, endIdx, Top, Fresh.(pending := workflowSequence))
      decreases endIdx + 1 - i
    {
      ScanNext(ns, i, endIdx, Top, Fresh.(pending := workflowSequence));
      var currentNode := ns[i];
      var nodeData := Data(currentNode);
      if IsConditionType(nodeData.stepType) {
        i, nodeData := ProcessCondition(ns, i + 1, endIdx, nodeData, currentNode.id);
      } else if nodeData.stepType == "foreach" {
        i, nodeData := ProcessForeach(ns, i + 1, endIdx, nodeData, currentNode.id);
      }
      workflowSequence := workflowSequence + [nodeData];
      i := i + 1;
    }
    ScanNext(ns, i, endIdx, Top, Fresh.(pending := workflowSequence));
  }

  /** Substring test, for `componentType.includes('trigger')`. */
  predicate Includes(s: string, part: string) {
    |part| <= |s| && (s[..|part|] == part || (s != [] && Includes(s[1..], part)))
  }

  predicate PartAt(s: string, part: string, i: int) {
    0 <= i <= |s| - |part| && s[i..i + |part|] == part
  }

  /** `part` stands somewhere in `s`. */
  lemma {:induction false} IncludesIff(s: string, part: string)
    ensures Includes(s, part) <==> exists i :: PartAt(s, part, i)
  {
    if |part| <= |s| && s[..|part|] == part {
      assert PartAt(s, part, 0);
    } else if |part| <= |s| && s != [] {
      IncludesIff(s[1..], part);
      assert !PartAt(s, part, 0);
      forall i | i > 0 ensures PartAt(s, part, i) <==> PartAt(s[1..], part, i - 1) {
        assert i + |part| <= |s| ==> s[1..][i - 1..i - 1 + |part|] == s[i..i + |part|];
      }
      if i :| PartAt(s[1..], part, i) {
        assert PartAt(s, part, i + 1);
      }
    }
  }

  function WithoutTriggers(ns: seq<FlowNode>): seq<FlowNode> {
    if ns == [] then []
    else (if Includes(ns[0].data.componentType, "trigger") then [] else [ns[0]]) + WithoutTriggers(ns[1..])
  }

  /** `nodes.slice(1, nodes.length - 1)` */
  function Inner(ns: seq<FlowNode>): seq<FlowNode> {
    if |ns| <= 2 then [] else ns[1..|ns| - 1]
  }

  /** The sequence read back from a whole node list. */
  function Reconstruct(nodes: seq<FlowNode>): seq<Step> {
    var original := WithoutTriggers(Inner(nodes));
    Scan(original, 0, |original|, Top, Fresh).1.pending
  }

  /** A manual trigger is drawn, or some node is called like one. */
  predicate HasManual(nodes: seq<FlowNode>) {
    exists n :: n in nodes && n.id == "manual"
  }

  /** What the reader notes: the string "true", as JSON text. */
  const MANUAL_FLAG: string := "\"true\""

  /** The sequence, and the properties with the manual trigger noted in them. */
  method ReconstructDefinition(nodes: seq<FlowNode>, properties: map<string, string>)
    returns (definition: seq<Step>, kept: map<string, string>)
    ensures definition == Reconstruct(nodes)
    ensures kept == if exists n :: n in nodes && n.id == "manual" then properties["manual" := "\"true\""] else properties
  {
    var original := WithoutTriggers(Inner(nodes));
    definition := BuildWorkflowDefinition(original, 0, |original|);
    kept := properties;
    if HasManual(nodes) {
      kept := kept["manual" := MANUAL_FLAG];
    }
  }

  // ---- On any node list, well-formed or not, no node is read twice ----

  function Bare(s: Step): Step {
    s.(branches := NoBranches, sequence := NoBody)
  }

  /** Every step of a read tree, each without its children. */
  ghost function Heads(s: Step): multiset<Step>
    decreases Size(s), 0
  {
    multiset{Bare(s)}
    + (if IsConditionType(s.stepType) then HeadsAll(TrueOf(s)) + HeadsAll(FalseOf(s))
       else if s.stepType == "foreach" then HeadsAll(BodyOf(s)) else multiset{})
  }

  ghost function HeadsAll(steps: seq<Step>): multiset<Step>
    decreases SizeAll(steps), 1
  {
    if steps == [] then multiset{} else Heads(steps[0]) + HeadsAll(steps[1..])
  }

  lemma {:induction false} HeadsConcat(a: seq<Step>, b: seq<Step>)
    ensures HeadsAll(a + b) == HeadsAll(a) + HeadsAll(b)
  {
    if a == [] {
      assert a + b == b;
    } else {
      assert (a + b)[1..] == a[1..] + b;
      HeadsConcat(a[1..], b);
    }
  }

  ghost function Kept(p: Progress): multiset<Step> {
    HeadsAll(p.pending) + HeadsAll(p.onTrue.GetOr([])) + HeadsAll(p.onFalse.GetOr([])) + HeadsAll(p.body.GetOr([]))
  }

  /** The nodes `i..j`, as bare steps. */
  ghost function Given(ns: seq<FlowNode>, i: nat, j: nat): multiset<Step>
    requires j <= |ns|
    decreases j - i
  {
    if i >= j then multiset{} else multiset{Bare(Data(ns[i]))} + Given(ns, i + 1, j)
  }

  lemma {:induction false} GivenFirst(ns: seq<FlowNode>, i: nat, k: nat)
    requires k <= |ns|
    ensures i < k ==> Given(ns, i, k) == multiset{Bare(Data(ns[i]))} + Given(ns, i + 1, k)
    ensures i >= k ==> Given(ns, i, k) == multiset{}
  {
    hide Data, Bare;
  }

  lemma {:induction false} GivenSplit(ns: seq<FlowNode>, i: nat, j: nat, k: nat)
    requires i <= j <= k <= |ns|
    ensures Given(ns, i, k) == Given(ns, i, j) + Given(ns, j, k)
    decreases j - i
  {
    hide *;
    GivenFirst(ns, i, j);
    if i < j {
      GivenFirst(ns, i, k);
      GivenSplit(ns, i + 1, j, k);
      Associate(multiset{Bare(Data(ns[i]))}, Given(ns, i + 1, j), Given(ns, j, k));
    } else {
      Neutral(Given(ns, j, k));
    }
  }

  lemma Neutral<T>(a: multiset<T>)
    ensures multiset{} + a == a
  {}

  lemma Associate<T>(a: multiset<T>, b: multiset<T>, c: multiset<T>)
    ensures a + (b + c) == (a + b) + c
  {}

  lemma AppendKeeps(p: Progress, s: Step)
    ensures Kept(p.(pending := p.pending + [s])) == Kept(p) + Heads(s)
  {
    HeadsConcat(p.pending, [s]);
    assert HeadsAll([s]) == Heads(s) + HeadsAll([]);
  }

  lemma FilledKeeps(data: Step, inner: Progress)
    requires IsConditionType(data.stepType) || data.stepType == "foreach"
    ensures Heads(Filled(data, inner)) <= multiset{Bare(data)} + Kept(inner)
  {
    assert Bare(Filled(data, inner)) == Bare(data);
  }

  lemma PlainKeeps(data: Step)
    requires !IsConditionType(data.stepType) && data.stepType != "foreach"
    ensures Heads(data) == multiset{Bare(data)}
  {}

  lemma ClosingKeeps(p: Progress)
    ensures Kept(p.(onTrue := Some(p.pending), pending := [])) <= Kept(p)
    ensures Kept(p.(onFalse := Some(p.pending), pending := [])) <= Kept(p)
    ensures Kept(p.(body := Some(p.pending), pending := [])) <= Kept(p)
  {}

  /** A nested block: its nodes, the nodes after it, and the block's own node. */
  lemma BlockKeeps(ns: seq<FlowNode>, i: nat, j: nat, k: nat, p: Progress, inner: Progress, q: Progress)
    requires i < j <= k <= |ns| && Opens(ns[i])
    requires Kept(inner) <= Kept(Fresh) + Given(ns, i + 1, j)
    requires Kept(q) <= Kept(p.(pending := p.pending + [Filled(Data(ns[i]), inner)])) + Given(ns, j + 1, k)
    ensures Kept(q) <= Kept(p) + Given(ns, i, k)
  {
    BlockParts(ns, i, j, k, p, inner);
    var s, head := Filled(Data(ns[i]), inner), multiset{Bare(Data(ns[i]))};
    hide *;
    Contained(Kept(q), Kept(p), Heads(s), head, Kept(inner), Given(ns, i + 1, j), Given(ns, j + 1, k), Given(ns, j, k));
  }

  lemma BlockParts(ns: seq<FlowNode>, i: nat, j: nat, k: nat, p: Progress, inner: Progress)
    requires i < j <= k <= |ns| && Opens(ns[i])
    ensures Kept(Fresh) == multiset{}
    ensures Kept(p.(pending := p.pending + [Filled(Data(ns[i]), inner)])) == Kept(p) + Heads(Filled(Data(ns[i]), inner))
    ensures Heads(Filled(Data(ns[i]), inner)) <= multiset{Bare(Data(ns[i]))} + Kept(inner)
    ensures Given(ns, j + 1, k) <= Given(ns, j, k)
    ensures Given(ns, i, k) == multiset{Bare(Data(ns[i]))} + (Given(ns, i + 1, j) + Given(ns, j, k))
  {
    hide *;
    NothingKept();
    GivenFirst(ns, i, k);
    GivenLess(ns, j, k);
    AppendKeeps(p, Filled(Data(ns[i]), inner));
    OpensKeeps(ns[i], inner);
    GivenSplit(ns, i + 1, j, k);
  }

  lemma NothingKept()
    ensures Kept(Fresh) == multiset{}
  {}

  lemma OpensKeeps(n: FlowNode, inner: Progress)
    requires Opens(n)
    ensures Heads(Filled(Data(n), inner)) <= multiset{Bare(Data(n))} + Kept(inner)
  {
    hide Heads, Filled, Kept, Bare;
    FilledKeeps(Data(n), inner);
  }

  lemma GivenLess(ns: seq<FlowNode>, j: nat, k: nat)
    requires k <= |ns|
    ensures Given(ns, j + 1, k) <= Given(ns, j, k)
  {
    hide *;
    GivenFirst(ns, j, k);
    GivenFirst(ns, j + 1, k);
  }

  lemma Contained<T>(q: multiset<T>, p: multiset<T>, heads: multiset<T>, head: multiset<T>, inner: multiset<T>,
                     given: multiset<T>, later: multiset<T>, rest: multiset<T>)
    requires heads <= head + inner && inner <= multiset{} + given && q <= (p + heads) + later && later <= rest
    ensures q <= p + (head + (given + rest))
  {
    forall x ensures q[x] <= (p + (head + (given + rest)))[x] {
      assert heads[x] <= (head + inner)[x] && inner[x] <= (multiset{} + given)[x];
      assert q[x] <= ((p + heads) + later)[x] && later[x] <= rest[x];
    }
  }

  lemma PlainNodeKeeps(ns: seq<FlowNode>, i: nat, k: nat, p: Progress, q: Progress)
    requires i < k <= |ns| && !Opens(ns[i])
    requires Kept(q) <= Kept(p.(pending := p.pending + [Data(ns[i])])) + Given(ns, i + 1, k)
    ensures Kept(q) <= Kept(p) + Given(ns, i, k)
  {
    PlainKeeps(Data(ns[i]));
    AppendKeeps(p, Data(ns[i]));
  }

  /** A sentinel: nothing is added, and the node is passed over. */
  lemma SentinelKeeps(ns: seq<FlowNode>, i: nat, k: nat, p: Progress, p': Progress, q: Progress)
    requires i < k <= |ns| && Kept(p') <= Kept(p)
    requires Kept(q) <= Kept(p') + Given(ns, i + 1, k)
    ensures Kept(q) <= Kept(p) + Given(ns, i, k)
  {}

  /** The scanner only ever keeps nodes it has walked over, each at most as often as
      it occurs there. */
  lemma {:induction false} ScanConserves(ns: seq<FlowNode>, i: nat, end: nat, scope: Scope, p: Progress)
    requires i <= end + 1 && end <= |ns|
    ensures var (j, q) := Scan(ns, i, end, scope, p); Kept(q) <= Kept(p) + Given(ns, i, j)
    decreases end + 1 - i
  {
    hide Kept, Given, Filled, Data, ScopeOf;
    ClosingKeeps(p);
    var (k, q) := Scan(ns, i, end, scope, p);
    if i >= end || Complete(scope, p) || (scope.InForeach? && ns[i].id == scope.emptyId) {
      assert Kept(q) <= Kept(p) <= Kept(p) + Given(ns, i, k);
    } else if scope.InCondition? && ns[i].id == scope.trueId {
      var p' := p.(onTrue := Some(p.pending), pending := []);
      ScanConserves(ns, i + 1, end, scope, p');
      SentinelKeeps(ns, i, k, p, p', q);
    } else if scope.InCondition? && ns[i].id == scope.falseId {
      var p' := p.(onFalse := Some(p.pending), pending := []);
      ScanConserves(ns, i + 1, end, scope, p');
      SentinelKeeps(ns, i, k, p, p', q);
    } else if Opens(ns[i]) {
      var inScope := ScopeOf(ns[i].data.stepType, ns[i].id);
      var (j, inner) := Scan(ns, i + 1, end, inScope, Fresh);
      ScanConserves(ns, i + 1, end, inScope, Fresh);
      ScanConserves(ns, j + 1, end, scope, p.(pending := p.pending + [Filled(Data(ns[i]), inner)]));
      BlockKeeps(ns, i, j, k, p, inner, q);
    } else {
      ScanConserves(ns, i + 1, end, scope, p.(pending := p.pending + [Data(ns[i])]));
      PlainNodeKeeps(ns, i, k, p, q);
    }
  }

  lemma PendingKept(q: Progress)
    ensures HeadsAll(q.pending) <= Kept(q)
  {}

  /** Reading any node list at all: every step of the result is a node of the list,
      used no more often than it occurs. */
  lemma EachNodeOnce(nodes: seq<FlowNode>)
    ensures var original := WithoutTriggers(Inner(nodes));
            HeadsAll(Reconstruct(nodes)) <= Given(original, 0, |original|)
  {
    var original := WithoutTriggers(Inner(nodes));
    var (j, q) := Scan(original, 0, |original|, Top, Fresh);
    ScanConserves(original, 0, |original|, Top, Fresh);
    assert Reconstruct(nodes) == q.pending;
    hide *;
    GivenSplit(original, 0, j, |original|);
    PendingKept(q);
    NothingKept();
  }
}
