// The node ids the flattening makes up (keep-ui/utils/reactFlow.ts) are different whenever
// the steps' own ids are.
module FlowIds {
  import opened FlowModel
  import opened FlowShape
  import opened FlowWorkflow

  /** Made-up ids are put together with underscores; such an id has none. */
  predicate Simple(id: string) {
    '_' !in id
  }

  function Upto(id: string): (head: string)
    ensures head <= id
  {
    if id == "" || id[0] == '_' then "" else [id[0]] + Upto(id[1..])
  }

  /** The id of the step that a node stands for, read off the node's id. */
  function OwnerOf(id: string): string {
    var head := Upto(id);
    var tail := id[|head|..];
    if !("__" <= tail) then id
    else if "end__" <= tail[2..] then tail[7..]
    else Upto(tail[2..])
  }

  lemma {:induction false} UptoIs(a: string, b: string)
    requires Simple(a) && (b == "" || b[0] == '_')
    ensures Upto(a + b) == a
  {
    if a == "" {
      assert a + b == b;
    } else {
      assert (a + b)[1..] == a[1..] + b;
      UptoIs(a[1..], b);
    }
  }

  lemma OwnerOfSimple(id: string)
    requires Simple(id)
    ensures OwnerOf(id) == id
  {
    UptoIs(id, "");
    assert id + "" == id;
  }

  lemma OwnerOfEnd(s: Step)
    requires Simple(s.stepType)
    ensures OwnerOf(EndId(s)) == s.id
  {
    var tail := "__end__" + s.id;
    assert EndId(s) == s.stepType + tail;
    UptoIs(s.stepType, tail);
    assert EndId(s)[|s.stepType|..] == tail && tail[2..] == "end__" + s.id && tail[7..] == s.id;
  }

  lemma OwnerOfEmpty(s: Step, kind: string)
    requires Simple(s.stepType) && Simple(s.id) && s.id != "end"
    ensures OwnerOf(EmptyId(s, kind)) == s.id
  {
    var rest := "__" + EmptyKey(kind);
    var tail := "__" + (s.id + rest);
    assert EmptyId(s, kind) == s.stepType + tail;
    UptoIs(s.stepType, tail);
    assert EmptyId(s, kind)[|s.stepType|..] == tail && tail[2..] == s.id + rest;
    UptoIs(s.id, rest);
    NotEnd(s.id, rest);
  }

  /** A simple id other than "end" is not read as the marker of an end node. */
  lemma NotEnd(id: string, rest: string)
    requires Simple(id) && id != "end" && "__" <= rest
    ensures !("end__" <= id + rest)
  {
    var t := id + rest;
    assert t[|id|] == '_' && (|id| > 3 ==> t[3] == id[3]) && (|id| == 3 ==> t[..3] == id);
    assert "end__"[0] != '_' && "end__"[1] != '_' && "end__"[2] != '_' && "end__"[3] == '_' && "end__"[..3] == "end";
  }

  // ---- Trees whose steps have different ids ----

  function StepIds(s: Step): set<string>
    decreases Size(s), 0
  {
    {s.id} + (if IsSwitch(s) then AllStepIds(TrueOf(s)) + AllStepIds(FalseOf(s))
              else if IsForeach(s) then AllStepIds(BodyOf(s)) else {})
  }

  function AllStepIds(steps: seq<Step>): set<string>
    decreases SizeAll(steps), 1
  {
    if steps == [] then {} else StepIds(steps[0]) + AllStepIds(steps[1..])
  }

  /** No two steps of the tree have the same id; ids and block types have no underscore. */
  predicate Unique(s: Step)
    decreases Size(s), 0
  {
    && Simple(s.id)
    && (IsSwitch(s) ==>
          && Simple(s.stepType) && s.id !in AllStepIds(TrueOf(s)) + AllStepIds(FalseOf(s))
          && UniqueAll(TrueOf(s)) && UniqueAll(FalseOf(s)) && AllStepIds(TrueOf(s)) !! AllStepIds(FalseOf(s)))
    && (IsForeach(s) ==> Simple(s.stepType) && UniqueAll(BodyOf(s)) && s.id !in AllStepIds(BodyOf(s)))
  }

  predicate UniqueAll(steps: seq<Step>)
    decreases SizeAll(steps), 1
  {
    steps == [] || (Unique(steps[0]) && UniqueAll(steps[1..]) && StepIds(steps[0]) !! AllStepIds(steps[1..]))
  }

  /** Every id stands for a step in the set, and no id is there twice. */
  ghost predicate Stand(ids: seq<string>, owners: set<string>) {
    Distinct(ids) && forall k :: 0 <= k < |ids| ==> OwnerOf(ids[k]) in owners
  }

  lemma Join(a: seq<string>, owners: set<string>, b: seq<string>, others: set<string>)
    requires Stand(a, owners) && Stand(b, others) && forall i, j :: 0 <= i < |a| && 0 <= j < |b| ==> a[i] != b[j]
    ensures Stand(a + b, owners + others)
  {}

  lemma JoinApart(a: seq<string>, owners: set<string>, b: seq<string>, others: set<string>)
    requires Stand(a, owners) && Stand(b, others) && owners !! others
    ensures Stand(a + b, owners + others)
  {
    forall i, j | 0 <= i < |a| && 0 <= j < |b| ensures a[i] != b[j] {
      assert OwnerOf(a[i]) in owners;
    }
    Join(a, owners, b, others);
  }

  lemma IdsConcat(a: seq<FlowNode>, b: seq<FlowNode>)
    ensures Ids(a + b) == Ids(a) + Ids(b)
  {}

  lemma {:induction false} NodesStand(s: Step)
    requires Drawable(s) && Unique(s)
    ensures Stand(Ids(NodesOf(s, {})), StepIds(s))
    decreases Size(s), 0
  {
    OwnerOfSimple(s.id);
    if IsSwitch(s) {
      AllNodesStand(TrueOf(s));
      AllNodesStand(FalseOf(s));
      SwitchStands(s);
    } else if IsForeach(s) {
      AllNodesStand(BodyOf(s));
      ForeachStands(s);
    } else {
      assert NodesOf(s, {}) == [DefaultNode(s)];
    }
  }

  lemma {:induction false} AllNodesStand(steps: seq<Step>)
    requires DrawableAll(steps) && UniqueAll(steps)
    ensures Stand(Ids(Nodes(steps, {})), AllStepIds(steps))
    decreases SizeAll(steps), 1
  {
    if steps != [] {
      NodesStand(steps[0]);
      AllNodesStand(steps[1..]);
      hide Stand;
      JoinApart(Ids(NodesOf(steps[0], {})), StepIds(steps[0]), Ids(Nodes(steps[1..], {})), AllStepIds(steps[1..]));
      IdsConcat(NodesOf(steps[0], {}), Nodes(steps[1..], {}));
    } else {
      assert Ids(Nodes(steps, {})) == [];
    }
  }

  /** The ids a block makes up stand for it, and differ. */
  lemma OwnIds(s: Step)
    requires Simple(s.id) && Simple(s.stepType) && s.id != "end"
    ensures OwnerOf(s.id) == s.id && OwnerOf(EndId(s)) == s.id && !Simple(EndId(s))
    ensures forall kind :: OwnerOf(EmptyId(s, kind)) == s.id && !Simple(EmptyId(s, kind)) && EmptyId(s, kind) != EndId(s)
    ensures EmptyId(s, "true") != EmptyId(s, "false") && s.id != EndId(s)
    ensures forall kind :: s.id != EmptyId(s, kind)
  {
    OwnerOfSimple(s.id);
    OwnerOfEnd(s);
    assert EndId(s)[|s.stepType|] == '_';
    forall kind ensures OwnerOf(EmptyId(s, kind)) == s.id && !Simple(EmptyId(s, kind)) && EmptyId(s, kind) != EndId(s) {
      OwnerOfEmpty(s, kind);
      assert EmptyId(s, kind)[|s.stepType|] == '_';
      EmptyIsNotEnd(s, kind);
    }
    assert |EmptyId(s, "true")| != |EmptyId(s, "false")|;
  }

  lemma EmptyIsNotEnd(s: Step, kind: string)
    requires Simple(s.id) && s.id != "end"
    ensures EmptyId(s, kind) != EndId(s)
  {
    var n := |s.stepType| + 2;
    assert EndId(s)[n..] == "end__" + s.id;
    assert EmptyId(s, kind)[n..] == s.id + ("__" + EmptyKey(kind));
    NotEnd(s.id, "__" + EmptyKey(kind));
  }

  lemma SwitchStands(s: Step)
    requires IsSwitch(s) && Drawable(s) && Unique(s)
    requires Stand(Ids(Nodes(TrueOf(s), {})), AllStepIds(TrueOf(s)))
    requires Stand(Ids(Nodes(FalseOf(s), {})), AllStepIds(FalseOf(s)))
    ensures Stand(Ids(NodesOf(s, {})), StepIds(s))
  {
    hide *;
    SwitchParts(s);
    OwnIds(s);
    SwitchIds(s);
    ForkStands(s.id, Ids(Nodes(FalseOf(s), {})), AllStepIds(FalseOf(s)), EmptyId(s, "false"),
               Ids(Nodes(TrueOf(s), {})), AllStepIds(TrueOf(s)), EmptyId(s, "true"), EndId(s));
  }

  lemma SwitchIds(s: Step)
    requires IsSwitch(s)
    ensures Ids(NodesOf(s, {}))
         == [s.id] + (((Ids(Nodes(FalseOf(s), {})) + [EmptyId(s, "false")]) + (Ids(Nodes(TrueOf(s), {})) + [EmptyId(s, "true")]))
                      + [EndId(s)])
  {
    var f, t := Nodes(FalseOf(s), {}), Nodes(TrueOf(s), {});
    var a, x, y, z := SwitchStart(s), EmptyNode(s, "false"), EmptyNode(s, "true"), SwitchEnd(s);
    assert NodesOf(s, {}) == [a] + (((f + [x]) + (t + [y])) + [z]);
    assert a.id == s.id && x.id == EmptyId(s, "false") && y.id == EmptyId(s, "true") && z.id == EndId(s);
    hide *;
    SingleId(a); SingleId(x); SingleId(y); SingleId(z);
    IdsConcat(f, [x]);
    IdsConcat(t, [y]);
    IdsConcat(f + [x], t + [y]);
    IdsConcat((f + [x]) + (t + [y]), [z]);
    IdsConcat([a], ((f + [x]) + (t + [y])) + [z]);
  }

  lemma SingleId(n: FlowNode)
    ensures Ids([n]) == [n.id]
  {}

  lemma SwitchParts(s: Step)
    requires IsSwitch(s) && Drawable(s) && Unique(s)
    ensures StepIds(s) == {s.id} + AllStepIds(FalseOf(s)) + AllStepIds(TrueOf(s))
    ensures AllStepIds(FalseOf(s)) !! AllStepIds(TrueOf(s)) && s.id !in AllStepIds(FalseOf(s)) + AllStepIds(TrueOf(s))
    ensures Simple(s.id) && Simple(s.stepType) && s.id != "end"
  {
    hide AllStepIds;
  }

  lemma ForkStands(id: string, f: seq<string>, fs: set<string>, x: string, t: seq<string>, ts: set<string>, y: string,
                   z: string)
    requires Stand(f, fs) && Stand(t, ts) && fs !! ts && id !in fs + ts
    requires OwnerOf(id) == OwnerOf(x) == OwnerOf(y) == OwnerOf(z) == id && id != x && id != y && id != z
    requires x != y && x != z && y != z
    ensures Stand([id] + (((f + [x]) + (t + [y])) + [z]), {id} + fs + ts)
  {
    hide OwnerOf;
    var ids := [id] + (((f + [x]) + (t + [y])) + [z]);
    var n, m := |f|, |t|;
    assert forall k :: 0 <= k < n ==> ids[1 + k] == f[k];
    assert forall k :: 0 <= k < m ==> ids[2 + n + k] == t[k];
  }

  lemma ForeachStands(s: Step)
    requires IsForeach(s) && Drawable(s) && Unique(s)
    requires Stand(Ids(Nodes(BodyOf(s), {})), AllStepIds(BodyOf(s)))
    ensures Stand(Ids(NodesOf(s, {})), StepIds(s))
  {
    hide *;
    ForeachParts(s);
    OwnIds(s);
    ForeachIds(s);
    LoopStands(s.id, Ids(Nodes(BodyOf(s), {})), AllStepIds(BodyOf(s)), EmptyId(s, "foreach"), EndId(s));
  }

  lemma ForeachIds(s: Step)
    requires IsForeach(s)
    ensures Ids(NodesOf(s, {})) == [s.id] + ((Ids(Nodes(BodyOf(s), {})) + [EmptyId(s, "foreach")]) + [EndId(s)])
  {
    var b := Nodes(BodyOf(s), {});
    var a, x, z := ForeachStart(s), EmptyNode(s, "foreach"), ForeachEnd(s);
    assert NodesOf(s, {}) == [a] + ((b + [x]) + [z]);
    assert a.id == s.id && x.id == EmptyId(s, "foreach") && z.id == EndId(s);
    hide *;
    SingleId(a); SingleId(x); SingleId(z);
    IdsConcat(b, [x]);
    IdsConcat(b + [x], [z]);
    IdsConcat([a], (b + [x]) + [z]);
  }

  lemma ForeachParts(s: Step)
    requires IsForeach(s) && Drawable(s) && Unique(s)
    ensures StepIds(s) == {s.id} + AllStepIds(BodyOf(s)) && s.id !in AllStepIds(BodyOf(s))
    ensures Simple(s.id) && Simple(s.stepType) && s.id != "end"
  {
    hide AllStepIds;
  }

  lemma LoopStands(id: string, b: seq<string>, bs: set<string>, x: string, z: string)
    requires Stand(b, bs) && id !in bs && OwnerOf(id) == OwnerOf(x) == OwnerOf(z) == id && id != x && id != z && x != z
    ensures Stand([id] + ((b + [x]) + [z]), {id} + bs)
  {
    hide OwnerOf;
    var ids := [id] + ((b + [x]) + [z]);
    assert forall k :: 0 <= k < |b| ==> ids[1 + k] == b[k];
  }

  // ---- The whole first graph ----

  /** Steps of different ids, none of them a name the frame uses. */
  predicate OwnNames(steps: seq<Step>) {
    UniqueAll(steps) && "start" !in AllStepIds(steps) && "end" !in AllStepIds(steps) && TRIGGER_KEYS !! AllStepIds(steps)
  }

  ghost predicate DifferentKeys(properties: seq<(string, bool)>) {
    forall i, j :: 0 <= i < j < |properties| ==> properties[i].0 != properties[j].0
  }

  lemma {:induction false} TriggerIdsDiffer(properties: seq<(string, bool)>)
    requires DifferentKeys(properties)
    ensures Distinct(TriggerIds(properties))
    ensures forall id :: id in TriggerIds(properties) ==> exists k :: 0 <= k < |properties| && properties[k].0 == id
  {
    if properties != [] {
      TriggerIdsDiffer(properties[1..]);
      forall id | id in TriggerIds(properties) ensures exists k :: 0 <= k < |properties| && properties[k].0 == id {
        if id in TriggerIds(properties[1..]) {
          var k :| 0 <= k < |properties[1..]| && properties[1..][k].0 == id;
          assert properties[k + 1].0 == id;
        } else {
          assert properties[0].0 == id;
        }
      }
      forall id | id in TriggerIds(properties[1..]) ensures id != properties[0].0 {
        var k :| 0 <= k < |properties[1..]| && properties[1..][k].0 == id;
        assert properties[k + 1].0 == id;
      }
      var rest := TriggerIds(properties[1..]);
      forall j | 0 <= j < |rest| ensures properties[0].0 != rest[j] {
        assert rest[j] in rest;
      }
      Append([properties[0].0], rest);
      assert TriggerIds(properties) == [properties[0].0] + TriggerIds(properties[1..])
          || TriggerIds(properties) == TriggerIds(properties[1..]);
    }
  }

  /** The steps' nodes are none of the frame's. */
  lemma StepNodesApart(ids: seq<string>, names: set<string>, id: string)
    requires Stand(ids, names) && id in ids && (forall n :: n in names ==> Simple(n))
    requires "start" !in names && "end" !in names && TRIGGER_KEYS !! names
    ensures id != "start" && id != "end" && id !in TRIGGER_KEYS && id != "trigger_start" && id != "trigger_end"
  {
    FrameOwners();
    var k :| 0 <= k < |ids| && ids[k] == id;
    hide OwnerOf;
  }

  lemma FrameOwners()
    ensures OwnerOf("start") == "start" && OwnerOf("end") == "end"
    ensures forall key :: key in TRIGGER_KEYS ==> OwnerOf(key) == key
    ensures OwnerOf("trigger_start") == "trigger_start" && !Simple("trigger_start")
    ensures OwnerOf("trigger_end") == "trigger_end" && !Simple("trigger_end")
  {
    NamesSimple();
    hide *;
    OwnerOfSimple("start");
    OwnerOfSimple("end");
    forall key | key in TRIGGER_KEYS ensures OwnerOf(key) == key {
      OwnerOfSimple(key);
    }
    NotMadeUp("trigger", "_start");
    NotMadeUp("trigger", "_end");
    assert "trigger" + "_start" == "trigger_start" && "trigger" + "_end" == "trigger_end";
  }

  lemma NamesSimple()
    ensures Simple("start") && Simple("end") && Simple("trigger")
    ensures forall key :: key in TRIGGER_KEYS ==> Simple(key)
  {
    assert Simple("interval") && Simple("manual") && Simple("alert") && Simple("incident");
  }

  lemma NotMadeUp(a: string, b: string)
    requires Simple(a) && |b| > 1 && b[0] == '_' && b[1] != '_'
    ensures OwnerOf(a + b) == a + b && !Simple(a + b)
  {
    UptoIs(a, b);
    assert (a + b)[|a|..] == b && (a + b)[|a|] == '_';
  }

  /** Different step ids give different nodes throughout the first graph. */
  lemma InitialNodesDiffer(properties: seq<(string, bool)>, steps: seq<Step>)
    requires DrawableAll(steps) && OwnNames(steps) && DifferentKeys(properties)
    ensures Distinct(Ids(Nodes(InitialSequence(properties, steps), {})))
  {
    var ids, w := TriggerIds(properties), Ids(Nodes(steps, {}));
    AllNodesStand(steps);
    AllSimple(steps);
    TriggerIdsDiffer(properties);
    FrameNodeIds(properties, steps);
    forall id | id in w
      ensures id != "start" && id != "end" && id !in TRIGGER_KEYS && id != "trigger_start" && id != "trigger_end"
    {
      StepNodesApart(w, AllStepIds(steps), id);
    }
    hide *;
    FrameDistinct(ids, w);
  }

  lemma {:induction false} AllSimple(steps: seq<Step>)
    requires UniqueAll(steps)
    ensures forall n :: n in AllStepIds(steps) ==> Simple(n)
    decreases SizeAll(steps), 1
  {
    if steps != [] {
      StepSimple(steps[0]);
      AllSimple(steps[1..]);
    }
  }

  lemma {:induction false} StepSimple(s: Step)
    requires Unique(s)
    ensures forall n :: n in StepIds(s) ==> Simple(n)
    decreases Size(s), 0
  {
    if IsSwitch(s) {
      AllSimple(TrueOf(s));
      AllSimple(FalseOf(s));
    } else if IsForeach(s) {
      AllSimple(BodyOf(s));
    }
  }

  lemma FrameNodeIds(properties: seq<(string, bool)>, steps: seq<Step>)
    ensures Ids(Nodes(InitialSequence(properties, steps), {}))
         == ["start"] + (["trigger_start"] + TriggerIds(properties) + ["trigger_end"]) + Ids(Nodes(steps, {})) + ["end"]
  {
    var ids := TriggerIds(properties);
    var a, b, c, d := DefaultNode(StartStep), DefaultNode(TriggerStart(ids)), DefaultNode(TriggerEnd), DefaultNode(EndStep);
    var ts, w := Nodes(TriggerSteps(ids), {}), Nodes(steps, {});
    TriggerNodes(ids);
    FrameNodes(properties, steps);
    assert a.id == "start" && b.id == "trigger_start" && c.id == "trigger_end" && d.id == "end";
    assert forall k :: 0 <= k < |ids| ==> ts[k].id == ids[k];
    hide *;
    assert Ids(ts) == ids;
    SingleId(a); SingleId(b); SingleId(c); SingleId(d);
    IdsConcat([b], ts);
    IdsConcat([b] + ts, [c]);
    IdsConcat([a], [b] + ts + [c]);
    IdsConcat([a] + ([b] + ts + [c]), w);
    IdsConcat([a] + ([b] + ts + [c]) + w, [d]);
  }

  lemma FrameDistinct(ids: seq<string>, w: seq<string>)
    requires Distinct(ids) && Distinct(w) && forall k :: 0 <= k < |ids| ==> ids[k] in TRIGGER_KEYS
    requires forall id :: id in w ==>
               id != "start" && id != "end" && id !in TRIGGER_KEYS && id != "trigger_start" && id != "trigger_end"
    ensures Distinct(["start"] + (["trigger_start"] + ids + ["trigger_end"]) + w + ["end"])
  {
    DistinctNames();
    Append(["trigger_start"], ids);
    Append(["trigger_start"] + ids, ["trigger_end"]);
    Append(["start"], ["trigger_start"] + ids + ["trigger_end"]);
    Append(["start"] + (["trigger_start"] + ids + ["trigger_end"]), w);
    Append(["start"] + (["trigger_start"] + ids + ["trigger_end"]) + w, ["end"]);
  }

  lemma DistinctNames()
    ensures "start" != "trigger_start" && "start" != "trigger_end" && "trigger_start" != "trigger_end"
    ensures "end" != "trigger_start" && "end" != "trigger_end" && "end" != "start"
    ensures "start" !in TRIGGER_KEYS && "end" !in TRIGGER_KEYS
    ensures "trigger_start" !in TRIGGER_KEYS && "trigger_end" !in TRIGGER_KEYS
  {}

  lemma Append(a: seq<string>, b: seq<string>)
    requires Distinct(a) && Distinct(b) && forall i, j :: 0 <= i < |a| && 0 <= j < |b| ==> a[i] != b[j]
    ensures Distinct(a + b)
  {}

  /** The shape of the first graph, from the ids of the steps alone. */
  lemma InitialGraphFromIds(properties: seq<(string, bool)>, steps: seq<Step>)
    requires DrawableAll(steps) && OwnNames(steps) && DifferentKeys(properties)
    ensures Shaped(Nodes(InitialSequence(properties, steps), {}), Edges(InitialSequence(properties, steps), ""),
                   ConditionsAll(steps), |TriggerIds(properties)|)
  {
    hide *;
    InitialNodesDiffer(properties, steps);
    InitialGraphShape(properties, steps);
  }
}
