// The frame of the first graph, node by node and edge by edge: which properties become
// triggers, and where the edges around them and out of the conditions go
// (keep-ui/utils/reactFlow.ts, getTriggerStep and handleSwitchNode).
module FlowFrame {
  import opened Wrappers
  import opened FlowModel
  import opened FlowWorkflow
  import opened FlowReader
  import Selections

  /** The properties called interval, manual, alert or incident whose value counts as true
      become triggers, and no others, in the properties' order. */
  lemma {:induction false} TriggersAre(properties: seq<(string, bool)>, counts: ((string, bool)) -> bool)
    requires forall p :: counts(p) <==> p.0 in {"interval", "manual", "alert", "incident"} && p.1
    ensures var chosen := Selections.Filter(properties, counts);
            |TriggerIds(properties)| == |chosen| && forall k :: 0 <= k < |chosen| ==> TriggerIds(properties)[k] == chosen[k].0
  {
    if properties != [] {
      TriggersAre(properties[1..], counts);
    }
  }

  /** The nodes of the first graph. */
  lemma FrameNodeIds(properties: seq<(string, bool)>, steps: seq<Step>)
    ensures Ids(Nodes(InitialSequence(properties, steps), {}))
         == ["start", "trigger_start"] + TriggerIds(properties) + ["trigger_end"] + Ids(Nodes(steps, {})) + ["end"]
  {
    InitialIds(properties, steps);
    var ids, ns := TriggerIds(properties), Ids(Nodes(steps, {}));
    assert InitialBlock(properties, steps).ids == ["start"] + ((["trigger_start"] + ids + ["trigger_end"]) + ns);
    hide *;
    assert ["start"] + ((["trigger_start"] + ids + ["trigger_end"]) + ns) + ["end"]
        == ["start", "trigger_start"] + ids + ["trigger_end"] + ns + ["end"];
  }

  /** A node of the frame: no branches, no body, captioned by its name. */
  function FrameNode(id: string, name: string, componentType: string, stepType: string, isLayouted: Option<bool>,
                     edgeTarget: Target): FlowNode
  {
    FlowNode(id, Step(id, name, componentType, stepType, map[], Some(name), isLayouted, false, None, edgeTarget, NoBranches,
                      NoBody))
  }

  /** The nodes around the steps, field by field. */
  lemma FrameRecords(properties: seq<(string, bool)>, steps: seq<Step>)
    ensures var (ns, ids) := (Nodes(InitialSequence(properties, steps), {}), TriggerIds(properties));
            var n := |ids|;
            && |ns| == n + |Nodes(steps, {})| + 4
            && ns[0] == FrameNode("start", "start", "start", "start", Some(false), Unset)
            && ns[1] == FrameNode("trigger_start", "Trigger Start", "trigger", "trigger", None,
                                  if ids == [] then One("") else Many(ids))
            && (forall k :: 0 <= k < n ==> ns[k + 2] == FrameNode(ids[k], ids[k], "trigger", ids[k], None, One("trigger_end")))
            && ns[n + 2] == FrameNode("trigger_end", "Workflow start", "trigger", "", None, Unset)
            && ns[n + 3..|ns| - 1] == Nodes(steps, {})
            && ns[|ns| - 1] == FrameNode("end", "end", "end", "end", Some(false), Unset)
  {
    hide *;
    var ids := TriggerIds(properties);
    FrameNodes(properties, steps);
    TriggerNodes(ids);
    FrameNodesAre(ids);
  }

  lemma FrameNodesAre(ids: seq<string>)
    ensures DefaultNode(StartStep) == FrameNode("start", "start", "start", "start", Some(false), Unset)
    ensures DefaultNode(TriggerStart(ids)) == FrameNode("trigger_start", "Trigger Start", "trigger", "trigger", None,
                                                        if ids == [] then One("") else Many(ids))
    ensures forall id :: DefaultNode(TriggerStep(id)) == FrameNode(id, id, "trigger", id, None, One("trigger_end"))
    ensures DefaultNode(TriggerEnd) == FrameNode("trigger_end", "Workflow start", "trigger", "", None, Unset)
    ensures DefaultNode(EndStep) == FrameNode("end", "end", "end", "end", Some(false), Unset)
  {}

  /** An edge around the triggers: from the start to their start, from there to each of them
      or past them when there are none, from each of them to their end, and from there to the
      first step, or to the end when there is none. */
  ghost predicate FrameEdge(e: Edge, ids: seq<string>, steps: seq<Step>) {
    || e == Edge("start", "trigger_start", None)
    || (ids == [] && e == Edge("trigger_start", "trigger_end", None))
    || (exists id :: id in ids && (e == Edge("trigger_start", id, None) || e == Edge(id, "trigger_end", None)))
    || e == Edge("trigger_end", if steps == [] then "end" else steps[0].id, None)
  }

  /** The edges of the first graph are those around its triggers and those of its steps. */
  lemma FrameEdgeIff(properties: seq<(string, bool)>, steps: seq<Step>, e: Edge)
    ensures e in Edges(InitialSequence(properties, steps), "")
        <==> FrameEdge(e, TriggerIds(properties), steps) || e in Edges(steps, "end")
  {
    var ids := TriggerIds(properties);
    FrameEdges(properties, steps);
    hide Edges, InitialSequence, TriggerIds;
    FanIff("trigger_start", TriggerTargets(ids), e);
    ToEndIff(ids, e);
    TargetsAre(ids);
  }

  lemma FanIff(source: string, targets: seq<string>, e: Edge)
    ensures e in Fan(source, targets, None) <==> exists id :: id in targets && e == Edge(source, id, None)
  {
    var fan := Fan(source, targets, None);
    forall id | id in targets && e == Edge(source, id, None) ensures e in fan {
      var k :| 0 <= k < |targets| && targets[k] == id;
      assert fan[k] == e;
    }
  }

  lemma ToEndIff(ids: seq<string>, e: Edge)
    ensures e in ToEnd(ids) <==> exists id :: id in ids && e == Edge(id, "trigger_end", None)
  {
    forall id | id in ids && e == Edge(id, "trigger_end", None) ensures e in ToEnd(ids) {
      var k :| 0 <= k < |ids| && ids[k] == id;
      assert ToEnd(ids)[k] == e;
    }
  }

  lemma TargetsAre(ids: seq<string>)
    ensures forall id :: id in TriggerTargets(ids) <==> if ids == [] then id == "trigger_end" else id in ids
  {}

  /** The edges of a condition besides its branches' own: out of it, labelled False to the
      first step of the false branch and True to the first of the true one, or to the sentinel
      of a branch that is empty; from the sentinels to its end node, and from there on. */
  lemma ConditionForks(s: Step, yes: seq<Step>, no: seq<Step>, next: string)
    requires Drawable(s) && s.componentType == "switch" && s.branches == Branches(yes, no)
    ensures var (ifTrue, ifFalse) := (s.stepType + "__" + s.id + "__empty_true", s.stepType + "__" + s.id + "__empty_false");
            var end := s.stepType + "__end__" + s.id;
            && Edge(s.id, if no == [] then ifFalse else no[0].id, Some("False")) in EdgesOf(s, next)
            && Edge(s.id, if yes == [] then ifTrue else yes[0].id, Some("True")) in EdgesOf(s, next)
            && Edge(ifFalse, end, None) in EdgesOf(s, next) && Edge(ifTrue, end, None) in EdgesOf(s, next)
            && Edge(end, next, None) in EdgesOf(s, next)
            && (forall e :: e in Edges(no, ifFalse) || e in Edges(yes, ifTrue) ==> e in EdgesOf(s, next))
  {
    SentinelId(s, "true", "__empty_true");
    SentinelId(s, "false", "__empty_false");
    BranchEdgesAre(s, no, "false", "False");
    BranchEdgesAre(s, yes, "true", "True");
    hide Edges, BranchEdges, EmptyId, Nodes, Drawable, Ids, AllForks;
  }

  /** The edges of a loop besides its body's own. */
  lemma LoopEdges(s: Step, body: seq<Step>, next: string)
    requires Drawable(s) && s.componentType == "container" && s.stepType == "foreach" && s.sequence == Body(body)
    ensures var (sentinel, end) := ("foreach__" + s.id + "__empty_foreach", "foreach__end__" + s.id);
            && Edge(s.id, if body == [] then sentinel else body[0].id, None) in EdgesOf(s, next)
            && Edge(sentinel, end, None) in EdgesOf(s, next) && Edge(end, next, None) in EdgesOf(s, next)
            && (forall e :: e in Edges(body, sentinel) ==> e in EdgesOf(s, next))
  {
    SentinelId(s, "foreach", "__empty_foreach");
    assert "foreach__" + s.id + "__empty_foreach" == s.stepType + "__" + s.id + "__empty_foreach";
    assert EndId(s) == "foreach__end__" + s.id;
    hide Edges, EmptyId, Nodes, Drawable, Ids, AllForks;
  }

  lemma SentinelId(s: Step, kind: string, tail: string)
    requires tail == "__" + ("empty_" + kind)
    ensures EmptyId(s, kind) == s.stepType + "__" + s.id + tail
  {}

  // ---- The nodes of a step ----

  lemma PartLater(text: string, part: string, i: int)
    requires text != "" && PartAt(text[1..], part, i)
    ensures PartAt(text, part, i + 1)
  {
    assert text[i + 1..i + 1 + |part|] == text[1..][i..i + |part|];
  }

  lemma {:induction false} DroppedNone(text: string, part: string)
    requires part != "" && forall i :: !PartAt(text, part, i)
    ensures Dropped(text, part) == text
  {
    if text != "" {
      assert !PartAt(text, part, 0);
      forall i ensures !PartAt(text[1..], part, i) {
        if PartAt(text[1..], part, i) {
          PartLater(text, part, i);
        }
      }
      DroppedNone(text[1..], part);
    }
  }

  lemma PartStarts(text: string, part: string, i: int)
    requires PartAt(text, part, i) && |part| >= 2
    ensures text[i] == part[0] && text[i + 1] == part[1]
  {
    assert text[i..i + |part|][0] == text[i] && text[i..i + |part|][1] == text[i + 1];
  }

  /** Nowhere in the text do the part's first two characters stand together. */
  lemma NoPart(text: string, part: string)
    requires |part| >= 2 && forall i :: 0 <= i < |text| - 1 ==> !(text[i] == part[0] && text[i + 1] == part[1])
    ensures Dropped(text, part) == text
  {
    forall i ensures !PartAt(text, part, i) {
      if PartAt(text, part, i) {
        PartStarts(text, part, i);
      }
    }
    DroppedNone(text, part);
  }

  predicate NoPair(text: string, c: char, d: char) {
    forall i :: 0 <= i < |text| - 1 ==> !(text[i] == c && text[i + 1] == d)
  }

  lemma EndNameOf(kind: string)
    requires NoPair(kind, 's', 't') && NoPair(kind, '_', '_') && NoPair(kind, 'a', 'c')
    ensures EndName("condition-" + kind) == kind + " End"
  {
    var t := "condition-" + kind;
    assert 's' !in "condition-";
    forall i | 0 <= i < |t| - 1 ensures !(t[i] == 's' && t[i + 1] == 't') {
      if i < 10 {
        assert t[i] == "condition-"[i];
      } else {
        assert t[i] == kind[i - 10] && t[i + 1] == kind[i - 9];
      }
    }
    NoPart(t, "step-");
    assert Dropped(t, "condition-") == kind by {
      assert "condition-" <= t && t[10..] == kind;
    }
    NoPart(kind, "__end");
    NoPart(kind, "action-");
    hide Dropped;
  }

  /** What the end of a condition of either type is called. */
  lemma EndNames()
    ensures EndName("condition-threshold") == "threshold End" && EndName("condition-assert") == "assert End"
  {
    hide EndName;
    assert "condition-" + "threshold" == "condition-threshold" && "condition-" + "assert" == "condition-assert";
    assert "threshold" + " End" == "threshold End" && "assert" + " End" == "assert End";
    EndNameOf("threshold");
    EndNameOf("assert");
  }

  /** The node that closes a branch or a loop body. */
  function Sentinel(s: Step, kind: string): FlowNode {
    var id := s.stepType + "__" + s.id + "__empty_" + kind;
    FlowNode(id, Step(id, "empty", "empty_" + kind, "empty_" + kind, map[], Some("empty"), None, false, None, Unset,
                      NoBranches, NoBody))
  }

  lemma SentinelIs(s: Step, kind: string)
    requires kind in {"true", "false", "foreach"}
    ensures EmptyNode(s, kind) == Sentinel(s, kind)
  {
    assert "__" + ("empty_" + kind) == "__empty_" + kind by {
      assert "__empty_" + kind == "__" + "empty_" + kind;
    }
    assert s.stepType + "__" + s.id + "__" + ("empty_" + kind) == s.stepType + "__" + s.id + ("__" + ("empty_" + kind));
    assert s.stepType + "__" + s.id + "__empty_" + kind == s.stepType + "__" + s.id + ("__empty_" + kind);
  }

  /** The nodes of a condition: its own, the false branch's, the true branch's, each closed by
      a sentinel, and its end. */
  lemma ConditionNodes(s: Step, yes: seq<Step>, no: seq<Step>)
    requires s.componentType == "switch" && s.branches == Branches(yes, no)
    ensures var (end, name, kind) := (s.stepType + "__end__" + s.id, EndName(s.stepType), s.stepType + "__end");
            NodesOf(s, {})
            == [FlowNode(s.id, Step(s.id, s.name, "switch", s.stepType, s.properties, Some(s.name), None, false, None, Unset,
                                    NoBranches, NoBody))]
               + (Nodes(no, {}) + [Sentinel(s, "false")]) + (Nodes(yes, {}) + [Sentinel(s, "true")])
               + [FlowNode(end, Step(end, name, kind, kind, map[], Some(name), None, false, None, Unset, NoBranches, NoBody))]
  {
    hide Nodes, EndName, EmptyNode, Sentinel;
    SentinelIs(s, "true");
    SentinelIs(s, "false");
    var f, t := Nodes(no, {}) + [EmptyNode(s, "false")], Nodes(yes, {}) + [EmptyNode(s, "true")];
    assert NodesOf(s, {}) == [SwitchStart(s)] + (f + t) + [SwitchEnd(s)];
    assert [SwitchStart(s)] + (f + t) + [SwitchEnd(s)] == [SwitchStart(s)] + f + t + [SwitchEnd(s)];
  }

  /** The nodes of a loop: its own, the body's closed by a sentinel, and its end. */
  lemma LoopNodes(s: Step, body: seq<Step>)
    requires s.componentType == "container" && s.stepType == "foreach" && s.sequence == Body(body)
    ensures var end := "foreach__end__" + s.id;
            NodesOf(s, {})
            == [FlowNode(s.id, s.(sequence := NoBody))]
               + (Nodes(body, {}) + [Sentinel(s, "foreach")])
               + [FlowNode(end, s.(sequence := NoBody, id := end, caption := Some("foreach end"), stepType := "foreach__end",
                                   name := "Foreach End"))]
  {
    hide Nodes, EmptyNode, Sentinel;
    SentinelIs(s, "foreach");
    assert EndId(s) == "foreach__end__" + s.id && s.stepType + "__end" == "foreach__end";
  }
}
