// What recursive merging amounts to (keep/parser/parser.py, ParserUtils.deep_merge).
module MergeLaws {
  import opened Wrappers
  import opened DeepMerge

  datatype Step = Key(key: string) | Index(index: nat)

  /** What a document has at a path. */
  function At(j: Json, path: seq<Step>): Option<Json>
    decreases |path|
  {
    if path == [] then Some(j)
    else
      match path[0]
      case Key(k) => if j.Obj? && k in j.fields then At(j.fields[k], path[1..]) else None
      case Index(i) => if j.List? && i < |j.items| then At(j.items[i], path[1..]) else None
  }

  /** The leaf at a path, if there is one. */
  function LeafAt(j: Json, path: seq<Step>): Option<Json> {
    var at := At(j, path);
    if at.Some? && Leaf(at.value) then at else None
  }

  /** Some leaf lies on the path. */
  predicate Covers(j: Json, path: seq<Step>)
    decreases |path|
  {
    Leaf(j) || (path != [] &&
    match path[0]
    case Key(k) => j.Obj? && k in j.fields && Covers(j.fields[k], path[1..])
    case Index(i) => j.List? && i < |j.items| && Covers(j.items[i], path[1..]))
  }

  /** The path does not run off a list of the destination before it leaves the destination. */
  predicate Reaches(source: Json, dest: Json, path: seq<Step>)
    decreases |path|
  {
    path != [] ==>
      match path[0]
      case Key(k) =>
        source.Obj? && k in source.fields && dest.Obj? && k in dest.fields ==>
          Reaches(source.fields[k], dest.fields[k], path[1..])
      case Index(i) =>
        && dest.List? && i < |dest.items|
        && (source.List? && i < |source.items| ==> Reaches(source.items[i], dest.items[i], path[1..]))
  }

  /** The merged document has exactly these leaves: the source's wherever it has one that the
      destination's lists are long enough for, and the destination's where the source has
      none on the way. */
  lemma {:induction false} MergedLeaf(source: Json, dest: Json, path: seq<Step>)
    requires Merge(source, dest).Some?
    ensures LeafAt(Merge(source, dest).value, path) == Expected(source, dest, path)
    decreases |path|
  {
    var r := Merge(source, dest).value;
    if source.fields == map[] || path == [] || !path[0].Key? {
    } else {
      var k := path[0].key;
      if k in source.fields && k in dest.fields {
        if source.fields[k].Obj? {
          MergedLeaf(source.fields[k], dest.fields[k], path[1..]);
        } else if source.fields[k].List? {
          MergedListLeaf(source.fields[k], dest.fields[k], path[1..]);
        } else {
          LeafStays(source.fields[k], dest.fields[k], path[1..]);
        }
      } else if k in source.fields {
        CoversLeaf(source.fields[k], path[1..]);
      }
    }
  }

  lemma LeafStays(source: Json, dest: Json, path: seq<Step>)
    requires Leaf(source)
    ensures LeafAt(source, path) == Expected(source, dest, path) && Covers(source, path)
    ensures path == [] ==> Reaches(source, dest, path) && LeafAt(source, path) == Some(source)
  {}

  function Expected(source: Json, dest: Json, path: seq<Step>): Option<Json> {
    if LeafAt(source, path).Some? && Reaches(source, dest, path) then LeafAt(source, path)
    else if Covers(source, path) then None
    else LeafAt(dest, path)
  }

  lemma {:induction false} CoversLeaf(j: Json, path: seq<Step>)
    ensures LeafAt(j, path).Some? ==> Covers(j, path)
    decreases |path|
  {
    if path != [] {
      match path[0] {
        case Key(k) => if j.Obj? && k in j.fields { CoversLeaf(j.fields[k], path[1..]); }
        case Index(i) => if j.List? && i < |j.items| { CoversLeaf(j.items[i], path[1..]); }
      }
    }
  }

  lemma {:induction false} MergedListLeaf(source: Json, target: Json, path: seq<Step>)
    requires source.List? && MergeList(source, target).Some?
    ensures LeafAt(MergeList(source, target).value, path) == Expected(source, target, path)
    decreases |path|
  {
    if path != [] && path[0].Index? && target.List? {
      var i := path[0].index;
      if i < |source.items| && i < |target.items| {
        MergedLeaf(source.items[i], target.items[i], path[1..]);
      }
    }
  }

  // ---- Merging again ----

  /** Every list holds nothing but objects. */
  predicate Clean(j: Json) {
    match j
    case Obj(fields) => forall k :: k in fields ==> Clean(fields[k])
    case List(items) => forall i :: 0 <= i < |items| ==> items[i].Obj? && Clean(items[i])
    case _ => true
  }

  /** Merging an object into itself changes nothing if it is clean, and fails otherwise. */
  lemma {:induction false} MergeSelf(j: Json)
    requires j.Obj?
    ensures Merge(j, j) == if Clean(j) then Some(j) else None
    decreases j, 1
  {
    forall k | k in j.fields
      ensures MergeField(j.fields[k], k, j.fields) == if Clean(j.fields[k]) then Some(j.fields[k]) else None
    {
      MergeFieldSelf(j, k);
    }
    MergeSelfFields(j);
  }

  lemma MergeSelfFields(j: Json)
    requires j.Obj?
    requires forall k :: k in j.fields ==>
               MergeField(j.fields[k], k, j.fields) == if Clean(j.fields[k]) then Some(j.fields[k]) else None
    ensures Merge(j, j) == if Clean(j) then Some(j) else None
  {
    hide MergeField;
    if Clean(j) {
      assert Merge(j, j).Some?;
      var r := Merge(j, j).value;
      assert r.Obj? && r.fields == j.fields;
    } else {
      assert exists k :: k in j.fields && !Clean(j.fields[k]);
    }
  }

  lemma {:induction false} MergeFieldSelf(j: Json, k: string)
    requires j.Obj? && k in j.fields
    ensures MergeField(j.fields[k], k, j.fields) == if Clean(j.fields[k]) then Some(j.fields[k]) else None
    decreases j, 0
  {
    var v := j.fields[k];
    if v.Obj? {
      MergeSelf(v);
    } else if v.List? {
      MergeListSelf(v);
    }
  }

  lemma {:induction false} MergeListSelf(j: Json)
    requires j.List?
    ensures MergeList(j, j) == if Clean(j) then Some(j) else None
    decreases j, 0
  {
    forall i | 0 <= i < |j.items| && j.items[i].Obj?
      ensures Merge(j.items[i], j.items[i]) == if Clean(j.items[i]) then Some(j.items[i]) else None
    {
      MergeSelf(j.items[i]);
    }
    forall i | 0 <= i < |j.items| && !j.items[i].Obj? ensures Merge(j.items[i], j.items[i]).None? {}
    hide Merge;
    if Clean(j) {
      var r := MergeList(j, j);
      assert r.Some? && r.value.List? && r.value.items == j.items;
    }
  }

  /** A source can be merged twice, whatever the destination, if and only if it is clean. */
  lemma IdempotentIff(source: Json)
    requires source.Obj?
    ensures Clean(source) <==> forall dest, r | Merge(source, dest) == Some(r) :: Merge(source, r) == Some(r)
  {
    if Clean(source) {
      forall dest, r | Merge(source, dest) == Some(r) ensures Merge(source, r) == Some(r) {
        MergeAgain(source, dest, r);
      }
    } else {
      MergeIntoEmpty(source);
      MergeSelf(source);
    }
  }

  const Numbers: Json := Obj(map["k" := List([Scalar(1)])])

  /** A list of numbers merges once, into nothing, and not a second time. */
  lemma NumbersMergeOnce()
    ensures Merge(Numbers, EMPTY) == Some(Numbers) && Merge(Numbers, Numbers) == None
  {
    var list := List([Scalar(1)]);
    assert !list.items[0].Obj?;
    assert "k" in Numbers.fields && Numbers.fields["k"] == list;
    MergeIntoEmpty(Numbers);
    MergeSelf(Numbers);
  }

  lemma {:induction false} MergeAgain(source: Json, dest: Json, r: Json)
    requires Clean(source) && Merge(source, dest) == Some(r)
    ensures Merge(source, r) == Some(r)
    decreases source, 1
  {
    if source.fields != map[] {
      forall k | k in source.fields ensures MergeField(source.fields[k], k, r.fields) == Some(r.fields[k]) {
        MergeFieldAgain(source.fields[k], k, dest.fields, r.fields);
      }
      AgainFields(source, r);
    }
  }

  lemma AgainFields(source: Json, r: Json)
    requires source.Obj? && r.Obj? && source.fields.Keys <= r.fields.Keys
    requires forall k :: k in source.fields ==> MergeField(source.fields[k], k, r.fields) == Some(r.fields[k])
    ensures Merge(source, r) == Some(r)
  {
    hide MergeField;
    var again := Merge(source, r);
    assert again.Some?;
    if source.fields != map[] {
      assert again.value.Obj? && again.value.fields == r.fields;
    }
  }

  lemma {:induction false} MergeFieldAgain(value: Json, k: string, dest: map<string, Json>, r: map<string, Json>)
    requires Clean(value) && k in r && MergeField(value, k, dest) == Some(r[k])
    ensures MergeField(value, k, r) == Some(r[k])
    decreases value, 2
  {
    if value.Obj? {
      if k in dest {
        MergeAgain(value, dest[k], r[k]);
      } else {
        MergeSelf(value);
      }
    } else if value.List? {
      if k in dest {
        MergeListAgain(value, dest[k], r[k]);
      } else {
        MergeListSelf(value);
      }
    }
  }

  lemma {:induction false} MergeListAgain(source: Json, target: Json, r: Json)
    requires source.List? && Clean(source) && MergeList(source, target) == Some(r)
    ensures MergeList(source, r) == Some(r)
    decreases source, 0
  {
    if target.List? {
      var values := source.items;
      forall i | 0 <= i < |values| && i < |r.items| ensures Merge(values[i], r.items[i]) == Some(r.items[i]) {
        MergeAgain(values[i], target.items[i], r.items[i]);
      }
      hide Merge;
      var again := MergeList(source, r);
      assert again.Some? && again.value.List? && again.value.items == r.items;
    }
  }

  // ---- Three documents ----

  predicate NoLists(j: Json) {
    match j
    case Obj(fields) => forall k :: k in fields ==> NoLists(fields[k])
    case List(_) => false
    case _ => true
  }

  /** Without lists, merging is associative as soon as the inner merge succeeds: then both
      ways give the same document, or both fail. */
  lemma {:induction false} Associative(a: Json, b: Json, c: Json)
    requires a.Obj? && b.Obj? && NoLists(a) && NoLists(b) && NoLists(c) && Merge(b, c).Some?
    ensures Merge(a, Merge(b, c).value) == match Merge(a, b) case Some(ab) => Merge(ab, c) case None => None
    decreases a, 0
  {
    if a.fields != map[] && b.fields != map[] {
      var bc := Merge(b, c).value;
      forall k | k in a.fields ensures MergeField(a.fields[k], k, bc.fields) == LeftField(a.fields[k], k, b.fields, c.fields) {
        FieldAssociative(a.fields[k], k, b, c);
      }
      AssociativeFields(a, b, c);
    } else if b.fields == map[] {
      MergeIntoEmpty(a);
    }
  }

  /** Key `k` merged from the left. */
  function LeftField(value: Json, k: string, b: map<string, Json>, c: map<string, Json>): Option<Json> {
    match MergeField(value, k, b)
    case Some(ab) => MergeField(ab, k, c)
    case None => None
  }

  lemma {:induction false} FieldAssociative(value: Json, k: string, b: Json, c: Json)
    requires b.Obj? && c.Obj? && b.fields != map[] && NoLists(value) && NoLists(b) && NoLists(c) && Merge(b, c).Some?
    ensures MergeField(value, k, Merge(b, c).value.fields) == LeftField(value, k, b.fields, c.fields)
    decreases value, 1
  {
    var bc := Merge(b, c).value;
    if value.Obj? && k in b.fields && k in c.fields {
      if b.fields[k].Obj? {
        assert MergeField(b.fields[k], k, c.fields) == Merge(b.fields[k], c.fields[k]);
        Associative(value, b.fields[k], c.fields[k]);
        MergeIsObject(value, b.fields[k]);
      }
    }
  }

  lemma MergeIsObject(source: Json, dest: Json)
    requires source.Obj? && dest.Obj?
    ensures Merge(source, dest).Some? ==> Merge(source, dest).value.Obj?
  {}

  lemma AssociativeFields(a: Json, b: Json, c: Json)
    requires a.Obj? && b.Obj? && c.Obj? && a.fields != map[] && b.fields != map[] && Merge(b, c).Some?
    requires forall k :: k in a.fields ==>
               MergeField(a.fields[k], k, Merge(b, c).value.fields) == LeftField(a.fields[k], k, b.fields, c.fields)
    ensures Merge(a, Merge(b, c).value) == match Merge(a, b) case Some(ab) => Merge(ab, c) case None => None
  {
    hide Merge, MergeField, Written;
    var bc := Merge(b, c).value;
    MergeWrites(b, c);
    if Merge(a, b).None? {
      var k := FailingField(a, b);
      FieldFails(a.fields, bc, k);
    } else {
      var ab := Merge(a, b).value;
      MergeWrites(a, b);
      if Merge(ab, c).None? {
        var k := FailingField(ab, c);
        FailsInFirst(a.fields, b.fields, c.fields, ab.fields, bc.fields, k);
        FieldFails(a.fields, bc, k);
      } else {
        MergeWrites(ab, c);
        WrittenBoth(a.fields, b.fields, c.fields, ab.fields, bc.fields, Merge(ab, c).value.fields);
        AllWritten(a.fields, bc.fields, Merge(ab, c).value.fields);
      }
    }
  }

  lemma MergeWrites(source: Json, dest: Json)
    requires source.Obj? && dest.Obj? && source.fields.Keys != {} && Merge(source, dest).Some?
    ensures Merge(source, dest).value.Obj? && Merge(source, dest).value.fields.Keys != {}
    ensures Written(source.fields, dest.fields, Merge(source, dest).value.fields, source.fields.Keys)
  {
    hide MergeField;
    var k :| k in source.fields.Keys;
    assert k in Merge(source, dest).value.fields.Keys;
  }

  lemma FailingField(source: Json, dest: Json) returns (k: string)
    requires source.Obj? && dest.Obj? && Merge(source, dest).None?
    ensures k in source.fields && MergeField(source.fields[k], k, dest.fields).None?
  {
    hide MergeField;
    k :| k in source.fields && MergeField(source.fields[k], k, dest.fields).None?;
  }

  lemma FailsInFirst(a: map<string, Json>, b: map<string, Json>, c: map<string, Json>, ab: map<string, Json>,
                     bc: map<string, Json>,
                     k: string)
    requires Written(a, b, ab, a.Keys) && Written(b, c, bc, b.Keys) && k in ab && MergeField(ab[k], k, c).None?
    ensures k in a && LeftField(a[k], k, b, c).None?
  {
    hide MergeField;
    assert k in a.Keys || k in b.Keys;
  }

  lemma WrittenBoth(a: map<string, Json>, b: map<string, Json>, c: map<string, Json>, ab: map<string, Json>,
                    bc: map<string, Json>,
                    left: map<string, Json>)
    requires Written(a, b, ab, a.Keys) && Written(b, c, bc, b.Keys) && Written(ab, c, left, ab.Keys)
    requires forall k :: k in a ==> MergeField(a[k], k, bc) == LeftField(a[k], k, b, c)
    ensures Written(a, bc, left, a.Keys)
  {
    hide MergeField;
    forall k | k in a.Keys ensures MergeField(a[k], k, bc) == Some(left[k]) {
      assert k in ab.Keys;
    }
    forall k | k in bc && k !in a.Keys ensures left[k] == bc[k] {
      if k in b.Keys {
        assert k in ab.Keys;
      }
    }
  }

  // ---- When it fails ----

  /** Somewhere both have something that cannot be merged. */
  ghost predicate Clash(source: Json, dest: Json) {
    exists path :: ClashAt(source, dest, path)
  }

  /** At this path a non-empty object of the source meets something that is no object, or a list
      meets something it cannot be merged into. */
  predicate ClashAt(source: Json, dest: Json, path: seq<Step>) {
    var s, d := At(source, path), At(dest, path);
    s.Some? && d.Some?
    && ((s.value.Obj? && s.value != EMPTY && !d.value.Obj?) || (s.value.List? && ListClash(s.value.items, d.value)))
  }

  /** The list has an item that is no object; or it meets a number, or an object that is not
      empty, or a text, where items that are not empty meet characters. */
  predicate ListClash(items: seq<Json>, d: Json) {
    || (exists i :: 0 <= i < |items| && !items[i].Obj?)
    || d.Scalar? || (d.Obj? && d != EMPTY)
    || (d.Text? && exists i :: 0 <= i < |items| && i < |d.text| && items[i] != EMPTY)
  }

  /** Merging fails if and only if the two clash somewhere. */
  lemma {:induction false} FailsIff(source: Json, dest: Json)
    requires source.Obj?
    ensures Merge(source, dest).None? <==> Clash(source, dest)
    decreases source, 1
  {
    if Merge(source, dest).None? {
      if !dest.Obj? {
        assert ClashAt(source, dest, []);
      } else {
        var k := FailingField(source, dest);
        FieldFailsIff(source.fields[k], k, dest.fields);
        var path: seq<Step> :| ClashAt(source.fields[k], dest.fields[k], path);
        assert ([Key(k)] + path)[1..] == path;
        assert ClashAt(source, dest, [Key(k)] + path);
      }
    }
    if path: seq<Step> :| ClashAt(source, dest, path) {
      if path != [] {
        var k := path[0].key;
        assert ClashAt(source.fields[k], dest.fields[k], path[1..]);
        ClashesAgain(source.fields[k], dest.fields[k], path[1..]);
        FieldFailsIff(source.fields[k], k, dest.fields);
        FieldFails(source.fields, dest, k);
        assert Obj(source.fields) == source;
      }
    }
  }

  /** What is neither an object nor a list does not clash with anything. */
  lemma ClashesAgain(source: Json, dest: Json, path: seq<Step>)
    requires ClashAt(source, dest, path)
    ensures source.Obj? || source.List?
  {}

  lemma {:induction false} FieldFailsIff(value: Json, k: string, dest: map<string, Json>)
    ensures MergeField(value, k, dest).None? <==> k in dest && (value.Obj? || value.List?) && Clash(value, dest[k])
    decreases value, 2
  {
    if k in dest {
      if value.Obj? {
        FailsIff(value, dest[k]);
      } else if value.List? {
        ListFailsIff(value, dest[k]);
      }
    }
  }

  lemma {:induction false} ListFailsIff(source: Json, target: Json)
    requires source.List?
    ensures MergeList(source, target).None? <==> Clash(source, target)
    decreases source, 0
  {
    var values := source.items;
    if ListClash(values, target) {
      assert ClashAt(source, target, []);
      ListClashFails(source, target);
    } else if target.List? {
      var nodes := target.items;
      assert AllObjects(values, |nodes|);
      if i :| 0 <= i < |values| && i < |nodes| && Merge(values[i], nodes[i]).None? {
        FailsIff(values[i], nodes[i]);
        var path: seq<Step> :| ClashAt(values[i], nodes[i], path);
        assert ([Index(i)] + path)[1..] == path;
        assert ClashAt(source, target, [Index(i)] + path);
      }
      if path: seq<Step> :| ClashAt(source, target, path) {
        var i := path[0].index;
        assert ClashAt(values[i], nodes[i], path[1..]);
        FailsIff(values[i], nodes[i]);
      }
    } else {
      NoListClash(source, target);
    }
  }

  lemma ListClashFails(source: Json, target: Json)
    requires source.List? && ListClash(source.items, target)
    ensures MergeList(source, target).None?
  {}

  lemma NoListClash(source: Json, target: Json)
    requires source.List? && !target.List? && !ListClash(source.items, target)
    ensures MergeList(source, target).Some? && !Clash(source, target)
  {
    assert target.Text? || target == EMPTY;
    forall path: seq<Step> ensures !ClashAt(source, target, path) {}
  }
}
