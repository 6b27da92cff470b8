// Recursive merging of two documents, as a function (keep/parser/parser.py,
// ParserUtils.deep_merge and _merge). MergeObjects has the objects the program updates.
module DeepMerge {
  import opened Wrappers

  /** A parsed document. `Text` is apart from other leaves because it has a length. */
  datatype Json = Scalar(value: int) | Text(text: string) | Obj(fields: map<string, Json>) | List(items: seq<Json>)

  const EMPTY: Json := Obj(map[])

  predicate Leaf(j: Json) {
    j.Scalar? || j.Text?
  }

  // ---- The result, as a function; None stands for an exception ----

  /** What `_merge(source, dest)` leaves in `dest`. */
  function Merge(source: Json, dest: Json): Option<Json>
    decreases source, 0
  {
    if !source.Obj? then None
    else if source.fields == map[] then Some(dest)
    else if dest.Obj? && forall k :: k in source.fields ==> MergeField(source.fields[k], k, dest.fields).Some? then
      Some(Obj(map k | k in source.fields.Keys + dest.fields.Keys ::
                 if k in source.fields then MergeField(source.fields[k], k, dest.fields).value else dest.fields[k]))
    else None
  }

  /** What comes to stand under key `k`, where the source has `value`. */
  function MergeField(value: Json, k: string, dest: map<string, Json>): Option<Json>
    decreases value, 1
  {
    if value.Obj? && k in dest then Merge(value, dest[k])
    else if value.List? && k in dest then MergeList(value, dest[k])
    else Some(value)
  }

  /** Lists are merged index by index. Where the target has no such index the value is
      merged into a new object that nothing keeps; an object has no index at all. */
  function MergeList(source: Json, target: Json): Option<Json>
    requires source.List?
    decreases source, 0
  {
    var values := source.items;
    match target
    case Scalar(_) => None
    case Obj(fields) => if fields == map[] && AllObjects(values, 0) then Some(target) else None
    case Text(t) => if AllObjects(values, 0) && NothingFor(values, |t|) then Some(target) else None
    case List(nodes) =>
      if AllObjects(values, |nodes|) && forall i :: 0 <= i < |values| && i < |nodes| ==> Merge(values[i], nodes[i]).Some? then
        Some(List(seq(|nodes|, i requires 0 <= i < |nodes| =>
          if i < |values| then Merge(values[i], nodes[i]).value else nodes[i])))
      else None
  }

  predicate AllObjects(values: seq<Json>, from: nat) {
    forall i :: from <= i < |values| ==> values[i].Obj?
  }

  predicate NothingFor(values: seq<Json>, n: nat) {
    forall i :: 0 <= i < |values| && i < n ==> values[i] == EMPTY
  }

  // ---- Writing the fields one by one ----

  lemma NoneWritten(source: map<string, Json>, dest: map<string, Json>, out: map<string, Json>)
    requires source.Keys == {} && Written(source, dest, out, source.Keys)
    ensures out == dest
  {}

  /** A key not done yet is merged with what the destination had under it. */
  lemma FieldIs(source: map<string, Json>, dest: Json, out: map<string, Json>, done: set<string>, k: string)
    requires dest.Obj? && done <= source.Keys && Written(source, dest.fields, out, done) && k in source && k !in done
    ensures var merged := if source[k].Obj? && k in out then Merge(source[k], out[k])
                          else if source[k].List? && k in out then MergeList(source[k], out[k])
                          else Some(source[k]);
            MergeField(source[k], k, dest.fields) == merged && (merged.None? ==> Merge(Obj(source), dest) == None)
  {
    hide Merge, MergeList;
    FieldFails(source, dest, k);
  }

  lemma FieldFails(source: map<string, Json>, dest: Json, k: string)
    requires dest.Obj? && k in source
    ensures MergeField(source[k], k, dest.fields).None? ==> Merge(Obj(source), dest) == None
  {
    hide MergeField;
  }

  lemma OneWritten(source: map<string, Json>, dest: map<string, Json>, out: map<string, Json>, done: set<string>,
                   k: string, m: Json)
    requires done <= source.Keys && Written(source, dest, out, done) && k in source && k !in done
    requires MergeField(source[k], k, dest) == Some(m)
    ensures Written(source, dest, out[k := m], done + {k})
  {
    hide MergeField;
  }

  lemma AllWritten(source: map<string, Json>, dest: map<string, Json>, out: map<string, Json>)
    requires source.Keys != {} && Written(source, dest, out, source.Keys)
    ensures Merge(Obj(source), Obj(dest)) == Some(Obj(out))
  {
    var r := Merge(Obj(source), Obj(dest));
    forall k | k in source ensures MergeField(source[k], k, dest) == Some(out[k]) {
      assert k in source.Keys;
    }
    assert r.Some? && r.value.Obj?;
    assert r.value.fields == out;
  }

  /** The keys done hold their merged values; the others are as they were. */
  ghost predicate Written(source: map<string, Json>, dest: map<string, Json>, out: map<string, Json>, done: set<string>)
    requires done <= source.Keys
  {
    && out.Keys == dest.Keys + done
    && (forall k :: k in done ==> MergeField(source[k], k, dest) == Some(out[k]))
    && (forall k :: k in dest && k !in done ==> out[k] == dest[k])
  }

  lemma ListWritten(values: seq<Json>, items: seq<Json>, nodes: seq<Json>)
    requires |nodes| == |items| && AllObjects(values, |items|)
    requires forall j :: 0 <= j < |nodes| ==>
               if j < |values| then Merge(values[j], items[j]) == Some(nodes[j]) else nodes[j] == items[j]
    ensures MergeList(List(values), List(items)) == Some(List(nodes))
  {
    hide Merge;
    var r := MergeList(List(values), List(items));
    assert r.Some? && r.value.List? && r.value.items == nodes;
  }

  /** The empty object changes nothing on either side. */
  lemma MergeIntoEmpty(source: Json)
    ensures Merge(source, EMPTY) == if source.Obj? then Some(source) else None
    ensures Merge(EMPTY, source) == Some(source)
  {
    if source.Obj? {
      forall k | k in source.fields ensures MergeField(source.fields[k], k, map[]) == Some(source.fields[k]) {}
      var r := Merge(source, EMPTY);
      assert r.Some? && r.value.Obj? && r.value.fields == source.fields;
    }
  }
}
