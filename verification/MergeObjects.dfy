// Recursive merging as the program does it: dictionaries are objects that are updated in
// place, the destination is copied first, and what is taken over from the source is the
// source's own objects (keep/parser/parser.py, ParserUtils.deep_merge and _merge).
module MergeObjects {
  import opened Wrappers
  import opened Documents = DeepMerge

  /** What a variable holds: a number, a string, a dictionary, or a list. Lists are never
      changed by a merge, so they stand as values. */
  datatype Node = Atom(value: int) | Str(text: string) | Dict(dict: Dictionary) | Items(items: seq<Node>)

  class Dictionary {
    var fields: map<string, Node>

    constructor (fields: map<string, Node>)
      ensures this.fields == fields
    {
      this.fields := fields;
    }
  }

  /** A document with the dictionaries it is made of. */
  datatype Shape =
    | AtomShape(value: int)
    | StrShape(text: string)
    | DictShape(dict: Dictionary, fields: map<string, Shape>)
    | ItemsShape(items: seq<Shape>)

  ghost function NodeOf(s: Shape): Node {
    match s
    case AtomShape(v) => Atom(v)
    case StrShape(t) => Str(t)
    case DictShape(d, _) => Dict(d)
    case ItemsShape(items) => Items(NodesOf(items))
  }

  ghost function NodesOf(items: seq<Shape>): (r: seq<Node>)
    ensures |r| == |items| && forall i :: 0 <= i < |items| ==> r[i] == NodeOf(items[i])
  {
    seq(|items|, i requires 0 <= i < |items| => NodeOf(items[i]))
  }

  ghost function FieldNodes(fields: map<string, Shape>): map<string, Node> {
    map k | k in fields :: NodeOf(fields[k])
  }

  /** The document itself. */
  ghost function Value(s: Shape): Json {
    match s
    case AtomShape(v) => Scalar(v)
    case StrShape(t) => Text(t)
    case DictShape(_, fields) => Obj(map k | k in fields :: Value(fields[k]))
    case ItemsShape(items) => List(seq(|items|, i requires 0 <= i < |items| => Value(items[i])))
  }

  /** The dictionaries it is made of. */
  ghost function Footprint(s: Shape): set<Dictionary> {
    match s
    case DictShape(d, fields) => {d} + set k, x | k in fields && x in Footprint(fields[k]) :: x
    case ItemsShape(items) => set i, x | 0 <= i < |items| && x in Footprint(items[i]) :: x
    case _ => {}
  }

  /** No dictionary is in it twice. */
  ghost predicate Tree(s: Shape) {
    match s
    case DictShape(d, fields) =>
      && (forall k :: k in fields ==> Tree(fields[k]) && d !in Footprint(fields[k]))
      && forall k, l :: k in fields && l in fields && k != l ==> Footprint(fields[k]) !! Footprint(fields[l])
    case ItemsShape(items) =>
      && (forall i :: 0 <= i < |items| ==> Tree(items[i]))
      && forall i, j :: 0 <= i < j < |items| ==> Footprint(items[i]) !! Footprint(items[j])
    case _ => true
  }

  /** The dictionaries hold what the shape says. */
  ghost predicate Stored(s: Shape)
    reads Footprint(s)
  {
    match s
    case DictShape(d, fields) => d.fields == FieldNodes(fields) && forall k :: k in fields ==> Stored(fields[k])
    case ItemsShape(items) => forall i :: 0 <= i < |items| ==> Stored(items[i])
    case _ => true
  }

  // ---- The fields of a dictionary, and the items of a list ----

  ghost function Values(m: map<string, Shape>): map<string, Json> {
    map k | k in m :: Value(m[k])
  }

  ghost function FieldsPrint(m: map<string, Shape>): set<Dictionary> {
    set k, x | k in m && x in Footprint(m[k]) :: x
  }

  ghost predicate TreeFields(m: map<string, Shape>) {
    && (forall k :: k in m ==> Tree(m[k]))
    && forall k, l :: k in m && l in m && k != l ==> Footprint(m[k]) !! Footprint(m[l])
  }

  ghost predicate StoredFields(m: map<string, Shape>)
    reads FieldsPrint(m)
  {
    forall k :: k in m ==> Stored(m[k])
  }

  lemma DictIs(d: Dictionary, m: map<string, Shape>)
    ensures Footprint(DictShape(d, m)) == {d} + FieldsPrint(m) && Value(DictShape(d, m)) == Obj(Values(m))
    ensures Tree(DictShape(d, m)) <==> TreeFields(m) && d !in FieldsPrint(m)
    ensures Stored(DictShape(d, m)) <==> d.fields == FieldNodes(m) && StoredFields(m)
    ensures NodeOf(DictShape(d, m)) == Dict(d)
  {}

  lemma FieldInside(m: map<string, Shape>, k: string)
    requires k in m
    ensures Footprint(m[k]) <= FieldsPrint(m)
    ensures TreeFields(m) ==> Tree(m[k])
    ensures StoredFields(m) ==> Stored(m[k])
  {}

  ghost function ItemsPrint(items: seq<Shape>): set<Dictionary> {
    set i, x | 0 <= i < |items| && x in Footprint(items[i]) :: x
  }

  ghost function ItemValues(items: seq<Shape>): (r: seq<Json>)
    ensures |r| == |items| && forall i :: 0 <= i < |items| ==> r[i] == Value(items[i])
  {
    seq(|items|, i requires 0 <= i < |items| => Value(items[i]))
  }

  ghost predicate TreeItems(items: seq<Shape>) {
    && (forall i :: 0 <= i < |items| ==> Tree(items[i]))
    && forall i, j :: 0 <= i < j < |items| ==> Footprint(items[i]) !! Footprint(items[j])
  }

  ghost predicate StoredItems(items: seq<Shape>)
    reads ItemsPrint(items)
  {
    forall i :: 0 <= i < |items| ==> Stored(items[i])
  }

  lemma ItemsIs(items: seq<Shape>)
    ensures Footprint(ItemsShape(items)) == ItemsPrint(items) && Value(ItemsShape(items)) == List(ItemValues(items))
    ensures Tree(ItemsShape(items)) <==> TreeItems(items)
    ensures Stored(ItemsShape(items)) <==> StoredItems(items)
    ensures NodeOf(ItemsShape(items)) == Items(NodesOf(items))
  {}

  lemma ItemInside(items: seq<Shape>, i: nat)
    requires i < |items|
    ensures Footprint(items[i]) <= ItemsPrint(items)
    ensures TreeItems(items) ==> Tree(items[i])
    ensures StoredItems(items) ==> Stored(items[i])
  {}

  /** An item is added that shares nothing with the others. */
  lemma AddItem(items: seq<Shape>, s: Shape)
    requires TreeItems(items) && Tree(s) && ItemsPrint(items) !! Footprint(s) && StoredItems(items) && Stored(s)
    ensures TreeItems(items + [s]) && ItemsPrint(items + [s]) <= ItemsPrint(items) + Footprint(s)
    ensures StoredItems(items + [s]) && NodesOf(items + [s]) == NodesOf(items) + [NodeOf(s)]
    ensures ItemValues(items + [s]) == ItemValues(items) + [Value(s)]
  {
    forall i | 0 <= i < |items| ensures Footprint(items[i]) <= ItemsPrint(items) {
      ItemInside(items, i);
    }
    hide Tree, Footprint, Value, NodeOf, Stored;
  }

  /** A field is set to something that shares nothing with the others. */
  lemma SetField(m: map<string, Shape>, k: string, s: Shape)
    requires TreeFields(m) && Tree(s) && forall l :: l in m && l != k ==> Footprint(m[l]) !! Footprint(s)
    ensures TreeFields(m[k := s]) && FieldsPrint(m[k := s]) <= FieldsPrint(m) + Footprint(s)
    ensures Values(m[k := s]) == Values(m)[k := Value(s)] && FieldNodes(m[k := s]) == FieldNodes(m)[k := NodeOf(s)]
  {
    SetTree(m, k, s);
    SetPrint(m, k, s);
    SetValue(m, k, s);
    hide *;
  }

  lemma SetTree(m: map<string, Shape>, k: string, s: Shape)
    requires TreeFields(m) && Tree(s) && forall l :: l in m && l != k ==> Footprint(m[l]) !! Footprint(s)
    ensures TreeFields(m[k := s])
  {
    hide Tree, Footprint;
  }

  lemma SetPrint(m: map<string, Shape>, k: string, s: Shape)
    ensures FieldsPrint(m[k := s]) <= FieldsPrint(m) + Footprint(s)
  {
    hide Footprint;
  }

  lemma SetValue(m: map<string, Shape>, k: string, s: Shape)
    ensures Values(m[k := s]) == Values(m)[k := Value(s)] && FieldNodes(m[k := s]) == FieldNodes(m)[k := NodeOf(s)]
  {
    hide Value, NodeOf;
  }

  lemma SetStored(m: map<string, Shape>, k: string, s: Shape)
    requires Stored(s) && StoredFields(m - {k})
    ensures StoredFields(m[k := s])
  {
    forall l | l in m && l != k ensures Stored(m[l]) {
      assert l in m - {k} && (m - {k})[l] == m[l];
    }
    hide Stored;
  }

  // ---- Copying ----

  /** `copy.deepcopy`: new dictionaries all the way down. */
  method DeepCopy(n: Node, ghost s: Shape) returns (copy: Node, ghost r: Shape)
    requires NodeOf(s) == n && Tree(s) && Stored(s)
    ensures NodeOf(r) == copy && Tree(r) && Stored(r) && Value(r) == Value(s)
    ensures fresh(Footprint(r))
    decreases s
  {
    match n
    case Atom(_) =>
      copy, r := n, s;
    case Str(_) =>
      copy, r := n, s;
    case Dict(d) =>
      copy, r := CopyFields(d, s.fields, s);
    case Items(items) =>
      copy, r := CopyItems(items, s.items, s);
  }

  method CopyFields(d: Dictionary, ghost m: map<string, Shape>, ghost s: Shape) returns (copy: Node, ghost r: Shape)
    requires s == DictShape(d, m) && Tree(s) && Stored(s)
    ensures NodeOf(r) == copy && Tree(r) && Stored(r) && Value(r) == Value(s)
    ensures fresh(Footprint(r))
    decreases s, 0
  {
    DictIs(d, m);
    hide Tree, Stored, Value, Footprint, NodeOf, FieldNodes, TreeFields, StoredFields, Values, FieldsPrint, Copies;
    var keys := d.fields.Keys;
    var fields: map<string, Node> := map[];
    ghost var shapes: map<string, Shape>, made: set<Dictionary> := map[], {};
    NoFieldsYet(m);
    while keys != {}
      invariant StoredFields(m) && d.fields == FieldNodes(m) && keys <= m.Keys == d.fields.Keys
      invariant Copies(shapes, m, m.Keys - keys, made) && StoredFields(shapes) && fields == FieldNodes(shapes)
      invariant fresh(made)
      decreases |keys|
    {
      var k :| k in keys;
      FieldInside(m, k);
      FieldNode(m, k);
      assert allocated(FieldsPrint(m)) && allocated(FieldsPrint(shapes));
      var field;
      ghost var shape;
      field, shape := DeepCopy(d.fields[k], m[k]);
      OneCopied(shapes, m, m.Keys - keys, made, k, shape);
      assert m.Keys - keys + {k} == m.Keys - (keys - {k});
      fields, shapes, made := fields[k := field], shapes[k := shape], made + Footprint(shape);
      keys := keys - {k};
    }
    var out := new Dictionary(fields);
    copy, r := Dict(out), DictShape(out, shapes);
    DictIs(out, shapes);
    assert m.Keys - {} == m.Keys;
    AllCopied(shapes, m, made);
  }

  /** The fields done so far: their copies, made of the dictionaries `made`. */
  ghost predicate Copies(shapes: map<string, Shape>, m: map<string, Shape>, done: set<string>, made: set<Dictionary>) {
    && shapes.Keys == done <= m.Keys && TreeFields(shapes) && FieldsPrint(shapes) <= made
    && forall k :: k in shapes ==> Value(shapes[k]) == Value(m[k])
  }

  lemma OneCopied(shapes: map<string, Shape>, m: map<string, Shape>, done: set<string>, made: set<Dictionary>, k: string,
                  s: Shape)
    requires Copies(shapes, m, done, made) && StoredFields(shapes)
    requires k in m && k !in done && Tree(s) && Stored(s) && Value(s) == Value(m[k]) && made !! Footprint(s)
    ensures Copies(shapes[k := s], m, done + {k}, made + Footprint(s)) && StoredFields(shapes[k := s])
    ensures FieldNodes(shapes[k := s]) == FieldNodes(shapes)[k := NodeOf(s)]
  {
    hide Tree, Stored, Value, Footprint, NodeOf, FieldNodes, TreeFields, StoredFields, Values, FieldsPrint;
    assert shapes - {k} == shapes;
    OthersApart(shapes, made, k, s);
    SetField(shapes, k, s);
    SetStored(shapes, k, s);
  }

  lemma AllCopied(shapes: map<string, Shape>, m: map<string, Shape>, made: set<Dictionary>)
    requires Copies(shapes, m, m.Keys, made)
    ensures TreeFields(shapes) && FieldsPrint(shapes) <= made && Values(shapes) == Values(m)
  {
    hide Value, TreeFields, FieldsPrint;
  }

  lemma FieldNode(m: map<string, Shape>, k: string)
    requires k in m
    ensures FieldNodes(m).Keys == m.Keys && FieldNodes(m)[k] == NodeOf(m[k])
  {
    hide NodeOf;
  }

  lemma NoFieldsYet(m: map<string, Shape>)
    ensures Copies(map[], m, m.Keys - m.Keys, {}) && StoredFields(map[]) && FieldNodes(map[]) == map[]
    ensures FieldNodes(m).Keys == m.Keys
  {}

  lemma OthersApart(m: map<string, Shape>, made: set<Dictionary>, k: string, s: Shape)
    requires FieldsPrint(m) <= made && made !! Footprint(s)
    ensures forall l :: l in m && l != k ==> Footprint(m[l]) !! Footprint(s)
  {
    forall l | l in m ensures Footprint(m[l]) <= made {
      FieldInside(m, l);
    }
    hide Footprint;
  }

  method CopyItems(items: seq<Node>, ghost m: seq<Shape>, ghost s: Shape) returns (copy: Node, ghost r: Shape)
    requires s == ItemsShape(m) && NodesOf(m) == items && Tree(s) && Stored(s)
    ensures NodeOf(r) == copy && Tree(r) && Stored(r) && Value(r) == Value(s)
    ensures fresh(Footprint(r))
    decreases s, 0
  {
    ItemsIs(m);
    hide Tree, Stored, Value, Footprint, NodeOf, TreeItems, StoredItems, ItemsPrint;
    var copies: seq<Node> := [];
    ghost var shapes: seq<Shape>, made: set<Dictionary> := [], {};
    NoItemsYet();
    for i := 0 to |items|
      invariant StoredItems(m)
      invariant |shapes| == i && copies == NodesOf(shapes)
      invariant TreeItems(shapes) && StoredItems(shapes) && ItemsPrint(shapes) <= made && fresh(made)
      invariant forall j :: 0 <= j < i ==> Value(shapes[j]) == Value(m[j])
    {
      ItemInside(m, i);
      assert allocated(ItemsPrint(m));
      var item;
      ghost var shape;
      item, shape := DeepCopy(items[i], m[i]);
      AddItem(shapes, shape);
      copies, shapes, made := copies + [item], shapes + [shape], made + Footprint(shape);
    }
    copy, r := Items(copies), ItemsShape(shapes);
    ItemsIs(shapes);
    assert ItemValues(shapes) == ItemValues(m);
  }

  lemma NoItemsYet()
    ensures TreeItems([]) && StoredItems([]) && ItemsPrint([]) == {} && NodesOf([]) == []
  {}

  // ---- Merging in place ----

  /** What field `k` may be made of. */
  ghost function FieldPrint(m: map<string, Shape>, k: string): set<Dictionary> {
    if k in m then Footprint(m[k]) else {}
  }

  /** The destination's fields once those of `done` are merged: each is made of its own
      dictionaries and those of the source's field, and the others are as they were. */
  ghost predicate Merging(m: map<string, Shape>, t: map<string, Shape>, c: map<string, Shape>, done: set<string>) {
    && done <= m.Keys && TreeFields(c)
    && (forall k :: k in c ==> Footprint(c[k]) <= FieldPrint(t, k) + FieldPrint(m, k))
    && (forall k :: k in t && k !in done ==> k in c && c[k] == t[k])
    && Written(Values(m), Values(t), Values(c), done)
  }

  lemma PrintsApart(m: map<string, Shape>, t: map<string, Shape>, k: string, l: string)
    requires TreeFields(m) && TreeFields(t) && FieldsPrint(m) !! FieldsPrint(t) && k != l
    ensures FieldPrint(t, k) + FieldPrint(m, k) !! FieldPrint(t, l) + FieldPrint(m, l)
    ensures FieldPrint(t, k) <= FieldsPrint(t) && FieldPrint(m, k) <= FieldsPrint(m)
    ensures FieldPrint(t, l) <= FieldsPrint(t) && FieldPrint(m, l) <= FieldsPrint(m)
  {
    hide Tree;
  }

  lemma OneMerged(m: map<string, Shape>, t: map<string, Shape>, c: map<string, Shape>, done: set<string>, k: string, s: Shape)
    requires TreeFields(m) && TreeFields(t) && FieldsPrint(m) !! FieldsPrint(t)
    requires Merging(m, t, c, done) && k in m && k !in done && Tree(s)
    requires Footprint(s) <= FieldPrint(t, k) + FieldPrint(m, k)
    requires MergeField(Value(m[k]), k, Values(t)) == Some(Value(s))
    ensures Merging(m, t, c[k := s], done + {k})
    ensures FieldsPrint(c[k := s]) <= FieldsPrint(t) + FieldsPrint(m)
    ensures FieldNodes(c[k := s]) == FieldNodes(c)[k := NodeOf(s)]
  {
    hide Tree, Footprint, Value, NodeOf, MergeField, Written, FieldNodes, Values, FieldPrint, FieldsPrint;
    forall l | l in c && l != k ensures Footprint(c[l]) !! Footprint(s) {
      PrintsApart(m, t, k, l);
    }
    SetField(c, k, s);
    ValuesAt(m, k);
    OneWritten(Values(m), Values(t), Values(c), done, k, Value(s));
    AllPrints(m, t, c[k := s]);
  }

  lemma ValuesAt(m: map<string, Shape>, k: string)
    ensures Values(m).Keys == m.Keys && (k in m ==> Values(m)[k] == Value(m[k]))
  {
    hide Value;
  }

  lemma AllPrints(m: map<string, Shape>, t: map<string, Shape>, c: map<string, Shape>)
    requires forall k :: k in c ==> Footprint(c[k]) <= FieldPrint(t, k) + FieldPrint(m, k)
    ensures FieldsPrint(c) <= FieldsPrint(t) + FieldsPrint(m)
  {
    hide Footprint;
  }

  /** `_merge`: the second dictionary takes in the first; false is an exception. */
  method MergeInto(ob1: Node, ob2: Node, ghost s: Shape, ghost t: Shape) returns (ok: bool, ghost r: Shape)
    requires NodeOf(s) == ob1 && NodeOf(t) == ob2 && Footprint(s) !! Footprint(t)
    requires Tree(s) && Tree(t) && Stored(s) && Stored(t)
    modifies Footprint(t)
    ensures ok <==> Merge(Value(s), Value(t)).Some?
    ensures ok ==> NodeOf(r) == ob2 && Tree(r) && Stored(r) && Merge(Value(s), Value(t)) == Some(Value(r))
    ensures ok ==> Footprint(r) <= Footprint(t) + Footprint(s)
    decreases s, 2
  {
    r := t;
    if !ob1.Dict? {
      NotMergeable(s, t);
      return false, r;
    }
    DictIs(ob1.dict, s.fields);
    if !ob2.Dict? {
      ok := ob1.dict.fields.Keys == {};
      IntoNoDict(s, t);
      return ok, r;
    }
    DictIs(ob2.dict, t.fields);
    ok, r := MergeFields(ob1.dict, ob2.dict, s.fields, t.fields, s, t);
  }

  lemma NotMergeable(s: Shape, t: Shape)
    requires !s.DictShape?
    ensures Merge(Value(s), Value(t)) == None
  {}

  /** Only an empty dictionary merges into something else. */
  lemma IntoNoDict(s: Shape, t: Shape)
    requires s.DictShape? && !t.DictShape?
    ensures Merge(Value(s), Value(t)) == if FieldNodes(s.fields).Keys == {} then Some(Value(t)) else None
  {
    ValuesAt(s.fields, "");
    DictIs(s.dict, s.fields);
    assert !Value(t).Obj?;
    hide Value, MergeField;
    assert FieldNodes(s.fields).Keys == s.fields.Keys;
    if s.fields.Keys == {} {
      assert Values(s.fields) == map[];
    } else {
      var k :| k in s.fields.Keys;
      assert k in Values(s.fields);
    }
  }

  /** The loop over the first dictionary's keys. */
  method MergeFields(d1: Dictionary, d2: Dictionary, ghost m: map<string, Shape>, ghost tm: map<string, Shape>,
                     ghost s: Shape, ghost t: Shape)
    returns (ok: bool, ghost r: Shape)
    requires s == DictShape(d1, m) && t == DictShape(d2, tm) && Footprint(s) !! Footprint(t)
    requires Tree(s) && Tree(t) && Stored(s) && Stored(t)
    modifies Footprint(t)
    ensures ok <==> Merge(Value(s), Value(t)).Some?
    ensures ok ==> NodeOf(r) == Dict(d2) && Tree(r) && Stored(r) && Merge(Value(s), Value(t)) == Some(Value(r))
    ensures ok ==> Footprint(r) <= Footprint(t) + Footprint(s)
    decreases s, 1
  {
    DictIs(d1, m);
    DictIs(d2, tm);
    hide Tree, Stored, Value, Footprint, NodeOf, FieldNodes, TreeFields, StoredFields, Values, FieldsPrint, FieldPrint;
    hide Merging, Merge, MergeField, MergeList, Written;
    var keys := d1.fields.Keys;
    ghost var c := tm;
    r := t;
    NothingMerged(m, tm);
    while keys != {}
      invariant keys <= m.Keys == d1.fields.Keys && Merging(m, tm, c, m.Keys - keys)
      invariant d1.fields == FieldNodes(m) && StoredFields(m) && d2.fields == FieldNodes(c) && StoredFields(c)
      invariant FieldsPrint(c) <= FieldsPrint(tm) + FieldsPrint(m)
      decreases |keys|
    {
      var k :| k in keys;
      ghost var shape;
      ok, shape := MergeOne(d1, d2, m, tm, c, m.Keys - keys, k);
      if !ok {
        return;
      }
      assert m.Keys - keys + {k} == m.Keys - (keys - {k});
      c := c[k := shape];
      keys := keys - {k};
    }
    ok, r := true, DictShape(d2, c);
    DictIs(d2, c);
    assert m.Keys - {} == m.Keys;
    AllMerged(m, tm, c);
  }

  lemma NothingMerged(m: map<string, Shape>, t: map<string, Shape>)
    requires TreeFields(t)
    ensures Merging(m, t, t, m.Keys - m.Keys) && FieldsPrint(t) <= FieldsPrint(t) + FieldsPrint(m)
    ensures FieldNodes(m).Keys == m.Keys
  {
    hide Tree, Value;
  }

  lemma AllMerged(m: map<string, Shape>, t: map<string, Shape>, c: map<string, Shape>)
    requires Merging(m, t, c, m.Keys)
    ensures Merge(Obj(Values(m)), Obj(Values(t))) == Some(Obj(Values(c))) && TreeFields(c)
  {
    ValuesAt(m, "");
    hide Value, TreeFields, Footprint;
    if m.Keys == {} {
      NoneWritten(Values(m), Values(t), Values(c));
    } else {
      AllWritten(Values(m), Values(t), Values(c));
    }
  }

  /** One turn: the field is merged in place, or taken over from the first dictionary. */
  method MergeOne(d1: Dictionary, d2: Dictionary, ghost m: map<string, Shape>, ghost tm: map<string, Shape>,
                  ghost c: map<string, Shape>, ghost done: set<string>, k: string)
    returns (ok: bool, ghost shape: Shape)
    requires Merging(m, tm, c, done) && k in m && k !in done && TreeFields(m) && TreeFields(tm)
    requires d1.fields == FieldNodes(m) && StoredFields(m) && d2.fields == FieldNodes(c) && StoredFields(c)
    requires FieldsPrint(m) !! FieldsPrint(tm) && d2 !in FieldsPrint(tm) + FieldsPrint(m) && d1 !in FieldsPrint(tm)
    requires FieldsPrint(c) <= FieldsPrint(tm) + FieldsPrint(m) && d1 != d2
    modifies {d2} + FieldsPrint(tm)
    ensures !ok ==> Merge(Obj(Values(m)), Obj(Values(tm))) == None
    ensures ok ==>
              && d1.fields == FieldNodes(m) && StoredFields(m)
              && d2.fields == FieldNodes(c[k := shape]) && StoredFields(c[k := shape])
              && Merging(m, tm, c[k := shape], done + {k})
              && FieldsPrint(c[k := shape]) <= FieldsPrint(tm) + FieldsPrint(m)
    decreases m[k], 3
  {
    hide Tree, Stored, Value, Footprint, NodeOf, FieldNodes, TreeFields, StoredFields, Values, FieldsPrint, FieldPrint;
    hide Merging, Merge, MergeField, MergeList, Written;
    TurnFacts(m, tm, c, done, k);
    assert allocated(FieldsPrint(m)) && allocated(FieldsPrint(c - {k})) && allocated(FieldsPrint(tm));
    var value := d1.fields[k];
    if value.Dict? && k in d2.fields {
      ok, shape := MergeInto(value, d2.fields[k], m[k], c[k]);
    } else if value.Items? && k in d2.fields {
      ok, shape := MergeItems(value.items, d2.fields[k], m[k].items, m[k], c[k]);
    } else {
      ok, shape := true, m[k];
      d2.fields := d2.fields[k := value];
    }
    if ok {
      OneMerged(m, tm, c, done, k, shape);
      SetStored(c, k, shape);
    }
  }

  /** What one turn needs to know. */
  lemma TurnFacts(m: map<string, Shape>, tm: map<string, Shape>, c: map<string, Shape>, done: set<string>, k: string)
    requires Merging(m, tm, c, done) && k in m && k !in done && TreeFields(m) && TreeFields(tm)
    requires FieldsPrint(m) !! FieldsPrint(tm) && StoredFields(m) && StoredFields(c)
    ensures k in FieldNodes(m) && FieldNodes(m)[k] == NodeOf(m[k]) && Tree(m[k]) && Stored(m[k])
    ensures Footprint(m[k]) <= FieldsPrint(m) && Footprint(m[k]) == FieldPrint(m, k)
    ensures FieldNodes(c).Keys == c.Keys && (k in c <==> k in tm)
    ensures StoredFields(c - {k}) && FieldsPrint(c - {k}) <= FieldsPrint(c)
    ensures k in c ==> FieldNodes(c)[k] == NodeOf(c[k]) && c[k] == tm[k] && Tree(c[k]) && Stored(c[k])
    ensures k in c ==> Footprint(c[k]) <= FieldsPrint(tm) && Footprint(c[k]) == FieldPrint(tm, k)
    ensures k in c ==> FieldsPrint(c - {k}) !! Footprint(c[k]) && Footprint(m[k]) !! Footprint(c[k])
    ensures NodeOf(m[k]).Dict? <==> Value(m[k]).Obj?
    ensures NodeOf(m[k]).Items? <==> m[k].ItemsShape?
    ensures m[k].ItemsShape? ==> NodeOf(m[k]) == Items(NodesOf(m[k].items)) && Value(m[k]).List?
    ensures !m[k].ItemsShape? ==> !Value(m[k]).List?
    ensures var merged := if Value(m[k]).Obj? && k in c then Merge(Value(m[k]), Value(c[k]))
                          else if Value(m[k]).List? && k in c then MergeList(Value(m[k]), Value(c[k]))
                          else Some(Value(m[k]));
            MergeField(Value(m[k]), k, Values(tm)) == merged
            && (merged.None? ==> Merge(Obj(Values(m)), Obj(Values(tm))) == None)
  {
    hide Tree, Stored, Footprint, FieldNodes, TreeFields, StoredFields, Values, FieldsPrint, Merge, MergeField, MergeList;
    FieldNode(m, k);
    FieldInside(m, k);
    ValuesAt(m, k);
    ValuesAt(c, k);
    ValuesAt(tm, k);
    FieldIs(Values(m), Obj(Values(tm)), Values(c), done, k);
    NodeKeys(c);
    OthersStored(c, k);
    if k in c {
      FieldNode(c, k);
      FieldInside(c, k);
      FieldInside(tm, k);
    }
  }

  lemma NodeKeys(c: map<string, Shape>)
    ensures FieldNodes(c).Keys == c.Keys
  {}

  lemma OthersStored(c: map<string, Shape>, k: string)
    requires TreeFields(c) && StoredFields(c)
    ensures StoredFields(c - {k}) && (k in c ==> FieldsPrint(c - {k}) !! Footprint(c[k]))
    ensures FieldsPrint(c - {k}) <= FieldsPrint(c)
  {
    hide Tree, Stored, Footprint;
  }

  /** The loop over the indices of two lists, or of a list and what else there is. */
  method MergeItems(values: seq<Node>, target: Node, ghost ms: seq<Shape>, ghost s: Shape, ghost t: Shape)
    returns (ok: bool, ghost r: Shape)
    requires s == ItemsShape(ms) && NodesOf(ms) == values && NodeOf(t) == target && Footprint(s) !! Footprint(t)
    requires Tree(s) && Tree(t) && Stored(s) && Stored(t)
    modifies Footprint(t)
    ensures ok <==> MergeList(Value(s), Value(t)).Some?
    ensures ok ==> NodeOf(r) == target && Tree(r) && Stored(r) && MergeList(Value(s), Value(t)) == Some(Value(r))
    ensures ok ==> Footprint(r) <= Footprint(t) + Footprint(s)
    decreases s, 1
  {
    ItemsIs(ms);
    assert allocated(Footprint(t));
    r := t;
    match target
    case Atom(_) =>
      IntoOther(s, t);
      ok := false;
    case Dict(d) =>
      ok := MergeIntoDict(values, d, ms, s, t);
    case Str(text) =>
      ok := MergeIntoText(values, text, ms, s, t);
    case Items(nodes) =>
      ok, r := MergeLists(values, nodes, ms, t.items, s, t);
  }

  lemma IntoOther(s: Shape, t: Shape)
    requires s.ItemsShape?
    ensures t.AtomShape? ==> MergeList(Value(s), Value(t)) == None
    ensures t.StrShape? ==>
              (MergeList(Value(s), Value(t)).Some? <==>
                 AllObjects(Value(s).items, 0) && NothingFor(Value(s).items, |t.text|))
              && (MergeList(Value(s), Value(t)).Some? ==> MergeList(Value(s), Value(t)).value == Value(t))
    ensures t.DictShape? ==>
              (MergeList(Value(s), Value(t)).Some? <==> t.fields.Keys == {} && AllObjects(Value(s).items, 0))
              && (MergeList(Value(s), Value(t)).Some? ==> MergeList(Value(s), Value(t)).value == Value(t))
  {
    if t.DictShape? {
      ValuesAt(t.fields, "");
      DictIs(t.dict, t.fields);
      assert t.fields.Keys == {} <==> Values(t.fields) == map[];
    }
  }

  /** A dictionary has no indices: whatever it holds cannot be looked up. */
  method MergeIntoDict(values: seq<Node>, d: Dictionary, ghost ms: seq<Shape>, ghost s: Shape, ghost t: Shape)
    returns (ok: bool)
    requires s == ItemsShape(ms) && NodesOf(ms) == values && t.DictShape? && NodeOf(t) == Dict(d)
    requires Tree(s) && Stored(s) && Stored(t)
    ensures ok <==> MergeList(Value(s), Value(t)).Some?
    ensures ok ==> MergeList(Value(s), Value(t)) == Some(Value(t))
    decreases s, 0, 1
  {
    IntoOther(s, t);
    ItemsIs(ms);
    DictIs(d, t.fields);
    hide Tree, Stored, Value, Footprint, NodeOf, TreeItems, StoredItems, ItemsPrint, MergeList, Merge;
    NodeKeys(t.fields);
    KeysCounted(d.fields);
    if |d.fields| > 0 {
      return false;
    }
    ok := MergeAway(values, 0, ms, s);
  }

  lemma KeysCounted(m: map<string, Node>)
    ensures |m| > 0 <==> m.Keys != {}
  {
    assert |m| == |m.Keys|;
  }

  /** The values from `from` on are merged into new dictionaries that nothing keeps. */
  method MergeAway(values: seq<Node>, from: nat, ghost ms: seq<Shape>, ghost s: Shape) returns (ok: bool)
    requires s == ItemsShape(ms) && NodesOf(ms) == values && Tree(s) && Stored(s)
    ensures ok <==> AllObjects(ItemValues(ms), from)
    decreases s, 0, 0
  {
    ItemsIs(ms);
    hide Tree, Stored, Value, Footprint, NodeOf, TreeItems, StoredItems, ItemsPrint, Merge;
    for i := from to if |values| > from then |values| else from
      invariant StoredItems(ms)
      invariant forall j :: from <= j < i && j < |ms| ==> Value(ms[j]).Obj?
    {
      ItemInside(ms, i);
      assert allocated(ItemsPrint(ms)) && allocated(Footprint(ms[i]));
      var lost := new Dictionary(map[]);
      NewIsEmpty(lost);
      ghost var shape;
      ok, shape := MergeInto(values[i], Dict(lost), ms[i], DictShape(lost, map[]));
      MergeIntoEmpty(Value(ms[i]));
      if !ok {
        return;
      }
    }
    ok := true;
  }

  lemma NewIsEmpty(d: Dictionary)
    requires d.fields == map[]
    ensures var s := DictShape(d, map[]); Tree(s) && Stored(s) && Value(s) == EMPTY && Footprint(s) == {d} && NodeOf(s) == Dict(d)
  {
    DictIs(d, map[]);
  }

  /** Into a string: the first values into its letters, and the others nowhere. */
  method MergeIntoText(values: seq<Node>, text: string, ghost ms: seq<Shape>, ghost s: Shape, ghost t: Shape)
    returns (ok: bool)
    requires s == ItemsShape(ms) && NodesOf(ms) == values && t == StrShape(text) && Tree(s) && Stored(s)
    ensures ok <==> MergeList(Value(s), Value(t)).Some?
    ensures ok ==> MergeList(Value(s), Value(t)) == Some(Value(t))
    decreases s, 0, 1
  {
    ItemsIs(ms);
    IntoOther(s, t);
    assert allocated(Footprint(s));
    hide *;
    ok := MergeIntoLetters(values, text, ms, s);
    if ok {
      ok := MergeAway(values, |text|, ms, s);
      OnlyEmpty(ItemValues(ms), |text|);
    }
  }

  /** Into the letters of a string only empty dictionaries merge. */
  method MergeIntoLetters(values: seq<Node>, text: string, ghost ms: seq<Shape>, ghost s: Shape) returns (ok: bool)
    requires s == ItemsShape(ms) && NodesOf(ms) == values && Tree(s) && Stored(s)
    ensures ok <==> NothingFor(ItemValues(ms), |text|)
    decreases s, 0, 0
  {
    ItemsIs(ms);
    hide Tree, Stored, Value, Footprint, NodeOf, TreeItems, StoredItems, ItemsPrint, MergeList, Merge;
    for i := 0 to if |values| < |text| then |values| else |text|
      invariant StoredItems(ms)
      invariant forall j :: 0 <= j < i ==> ItemValues(ms)[j] == EMPTY
    {
      ItemInside(ms, i);
      assert allocated(ItemsPrint(ms));
      ok := MergeIntoLetter(values[i], text[i], ms[i]);
      if !ok {
        return;
      }
    }
    ok := true;
  }

  method MergeIntoLetter(value: Node, letter: char, ghost s: Shape) returns (ok: bool)
    requires NodeOf(s) == value && Tree(s) && Stored(s)
    ensures ok <==> Value(s) == EMPTY
    decreases s, 3
  {
    IntoLetter(s, letter);
    hide Tree, Stored, Value, Footprint, NodeOf, Merge;
    ghost var shape;
    ok, shape := MergeInto(value, Str([letter]), s, StrShape([letter]));
  }

  lemma OnlyEmpty(values: seq<Json>, n: nat)
    requires NothingFor(values, n)
    ensures (AllObjects(values, n) <==> AllObjects(values, 0))
  {}

  lemma IntoLetter(s: Shape, c: char)
    ensures var t := StrShape([c]);
            && Tree(t) && Stored(t) && Footprint(t) == {} && NodeOf(t) == Str([c])
            && (Merge(Value(s), Value(t)).Some? <==> Value(s) == EMPTY)
  {
    hide MergeField;
  }

  // ---- Two lists ----

  ghost function ItemPrint(items: seq<Shape>, i: nat): set<Dictionary> {
    if i < |items| then Footprint(items[i]) else {}
  }

  /** The destination's items once the first `i` are merged. */
  ghost predicate MergingItems(ms: seq<Shape>, ts: seq<Shape>, cs: seq<Shape>, i: nat) {
    && |cs| == |ts| && i <= |ts| && i <= |ms| && TreeItems(cs)
    && (forall j: nat :: j < |cs| ==> Footprint(cs[j]) <= ItemPrint(ts, j) + ItemPrint(ms, j))
    && (forall j: nat :: i <= j < |cs| ==> cs[j] == ts[j])
    && (forall j: nat :: j < |cs| ==> NodeOf(cs[j]) == NodeOf(ts[j]))
    && (forall j: nat :: j < i ==> Merge(Value(ms[j]), Value(ts[j])) == Some(Value(cs[j])))
  }

  lemma ItemPrintsApart(ms: seq<Shape>, ts: seq<Shape>, i: nat, j: nat)
    requires TreeItems(ms) && TreeItems(ts) && ItemsPrint(ms) !! ItemsPrint(ts) && i != j
    ensures ItemPrint(ts, i) + ItemPrint(ms, i) !! ItemPrint(ts, j) + ItemPrint(ms, j)
  {
    assert ItemPrint(ts, i) <= ItemsPrint(ts) && ItemPrint(ms, i) <= ItemsPrint(ms);
    assert ItemPrint(ts, j) <= ItemsPrint(ts) && ItemPrint(ms, j) <= ItemsPrint(ms);
    hide Tree, Footprint, ItemsPrint;
  }

  lemma OneItemMerged(ms: seq<Shape>, ts: seq<Shape>, cs: seq<Shape>, i: nat, s: Shape)
    requires TreeItems(ms) && TreeItems(ts) && ItemsPrint(ms) !! ItemsPrint(ts)
    requires MergingItems(ms, ts, cs, i) && i < |ms| && i < |ts| && Tree(s) && NodeOf(s) == NodeOf(ts[i])
    requires Footprint(s) <= Footprint(ts[i]) + Footprint(ms[i])
    requires Merge(Value(ms[i]), Value(ts[i])) == Some(Value(s))
    ensures MergingItems(ms, ts, cs[i := s], i + 1)
  {
    hide Tree, Footprint, Value, NodeOf, Merge, ItemsPrint, TreeItems;
    PrintOfItem(ts, i);
    PrintOfItem(ms, i);
    forall j: nat | j < |cs| && j != i ensures Footprint(cs[j]) !! Footprint(s) {
      ItemPrintsApart(ms, ts, i, j);
      hide ItemPrint;
    }
    SetItem(cs, i, s);
    hide ItemPrint;
  }

  lemma PrintOfItem(items: seq<Shape>, i: nat)
    requires i < |items|
    ensures ItemPrint(items, i) == Footprint(items[i])
  {}

  lemma SetItem(cs: seq<Shape>, i: nat, s: Shape)
    requires TreeItems(cs) && i < |cs| && Tree(s) && forall j: nat :: j < |cs| && j != i ==> Footprint(cs[j]) !! Footprint(s)
    ensures TreeItems(cs[i := s])
  {
    hide Tree, Footprint;
  }

  /** The other items. */
  ghost function Others(cs: seq<Shape>, i: nat): seq<Shape>
    requires i < |cs|
  {
    cs[..i] + cs[i + 1..]
  }

  lemma OtherItems(cs: seq<Shape>, i: nat)
    requires i < |cs| && TreeItems(cs) && StoredItems(cs)
    ensures StoredItems(Others(cs, i)) && ItemsPrint(Others(cs, i)) !! Footprint(cs[i])
  {
    hide Tree, Footprint, Stored;
    var others := Others(cs, i);
    forall j | 0 <= j < |others| ensures Stored(others[j]) && Footprint(others[j]) !! Footprint(cs[i]) {
      if j < i {
        assert others[j] == cs[j];
      } else {
        assert others[j] == cs[i + 1..][j - i] == cs[j + 1];
      }
    }
  }

  lemma SetItemStored(cs: seq<Shape>, i: nat, s: Shape)
    requires i < |cs| && StoredItems(Others(cs, i)) && Stored(s)
    ensures StoredItems(cs[i := s])
  {
    forall j | 0 <= j < |cs| && j != i ensures Stored(cs[j]) {
      assert Others(cs, i)[if j < i then j else j - 1] == cs[j];
    }
    hide Stored;
  }

  /** Two lists, index by index; what is past the second one's end goes nowhere, and past
      the first one's end merging an empty dictionary changes nothing. */
  method MergeLists(values: seq<Node>, nodes: seq<Node>, ghost ms: seq<Shape>, ghost ts: seq<Shape>, ghost s: Shape,
                    ghost t: Shape)
    returns (ok: bool, ghost r: Shape)
    requires s == ItemsShape(ms) && NodesOf(ms) == values && t == ItemsShape(ts) && NodesOf(ts) == nodes
    requires Footprint(s) !! Footprint(t) && Tree(s) && Tree(t) && Stored(s) && Stored(t)
    modifies Footprint(t)
    ensures ok <==> MergeList(Value(s), Value(t)).Some?
    ensures ok ==> NodeOf(r) == Items(nodes) && Tree(r) && Stored(r) && MergeList(Value(s), Value(t)) == Some(Value(r))
    ensures ok ==> Footprint(r) <= Footprint(t) + Footprint(s)
    decreases s, 0, 1
  {
    ItemsIs(ms);
    ItemsIs(ts);
    hide Tree, Stored, Value, Footprint, NodeOf, TreeItems, StoredItems, ItemsPrint, MergeList, Merge, MergingItems;
    hide Others, ItemPrint;
    ghost var cs := ts;
    r := t;
    NoItemMerged(ms, ts);
    for i := 0 to if |values| < |nodes| then |values| else |nodes|
      invariant StoredItems(ms) && StoredItems(cs) && MergingItems(ms, ts, cs, i)
    {
      ItemFacts(ms, ts, cs, i);
      assert allocated(ItemsPrint(ms)) && allocated(ItemsPrint(Others(cs, i)));
      ghost var shape;
      ok, shape := MergeInto(values[i], nodes[i], ms[i], cs[i]);
      if !ok {
        ItemFails(s, t, i);
        return;
      }
      OneItemMerged(ms, ts, cs, i, shape);
      SetItemStored(cs, i, shape);
      cs := cs[i := shape];
    }
    ItemsIs(ms);
    assert allocated(ItemsPrint(cs));
    ok := MergeAway(values, |nodes|, ms, s);
    r := ItemsShape(cs);
    ItemsIs(cs);
    AllItemsMerged(ms, ts, cs);
  }

  lemma AllItemsMerged(ms: seq<Shape>, ts: seq<Shape>, cs: seq<Shape>)
    requires MergingItems(ms, ts, cs, if |ms| < |ts| then |ms| else |ts|)
    ensures TreeItems(cs) && NodesOf(cs) == NodesOf(ts) && ItemsPrint(cs) <= ItemsPrint(ts) + ItemsPrint(ms)
    ensures MergeList(List(ItemValues(ms)), List(ItemValues(ts)))
         == if AllObjects(ItemValues(ms), |ts|) then Some(List(ItemValues(cs))) else None
  {
    assert forall j: nat :: ItemPrint(ts, j) <= ItemsPrint(ts) && ItemPrint(ms, j) <= ItemsPrint(ms);
    hide Merge, Value, NodeOf, Tree, Footprint;
    if AllObjects(ItemValues(ms), |ts|) {
      ListWritten(ItemValues(ms), ItemValues(ts), ItemValues(cs));
    }
  }

  lemma NoItemMerged(ms: seq<Shape>, ts: seq<Shape>)
    requires TreeItems(ts)
    ensures MergingItems(ms, ts, ts, 0)
  {
    hide Tree, Value, Merge, NodeOf;
  }

  lemma ItemFacts(ms: seq<Shape>, ts: seq<Shape>, cs: seq<Shape>, i: nat)
    requires MergingItems(ms, ts, cs, i) && i < |ms| && i < |ts| && TreeItems(ms) && TreeItems(ts)
    requires ItemsPrint(ms) !! ItemsPrint(ts) && StoredItems(ms) && StoredItems(cs)
    ensures |cs| == |ts| && cs[i] == ts[i] && Tree(ms[i]) && Stored(ms[i]) && Tree(cs[i]) && Stored(cs[i])
    ensures Footprint(ms[i]) <= ItemsPrint(ms) && Footprint(ts[i]) <= ItemsPrint(ts)
    ensures StoredItems(Others(cs, i)) && ItemsPrint(Others(cs, i)) !! Footprint(ts[i])
  {
    hide Merge, Value, NodeOf, Others;
    ItemInside(ms, i);
    ItemInside(ts, i);
    ItemInside(cs, i);
    OtherItems(cs, i);
    hide Tree, Stored, Footprint;
  }

  lemma ItemFails(s: Shape, t: Shape, i: nat)
    requires s.ItemsShape? && t.ItemsShape? && i < |s.items| && i < |t.items|
    requires Merge(Value(s.items[i]), Value(t.items[i])).None?
    ensures MergeList(Value(s), Value(t)) == None
  {
    assert Value(s).items[i] == Value(s.items[i]) && Value(t).items[i] == Value(t.items[i]);
    hide Merge, Value;
  }

  // ---- The whole merge ----

  /** `deep_merge`: the destination is copied and the copy takes in the source. Neither the
      source nor the destination is changed, however many dictionaries they share; the
      result is made of new dictionaries and of the source's, of none of the destination's
      own. */
  method DeepMerge(source: Node, dest: Node, ghost s: Shape, ghost t: Shape) returns (out: Option<Node>, ghost r: Shape)
    requires NodeOf(s) == source && NodeOf(t) == dest && Tree(s) && Tree(t) && Stored(s) && Stored(t)
    ensures Stored(s) && Stored(t)
    ensures out.Some? <==> Merge(Value(s), Value(t)).Some?
    ensures out.Some? ==> NodeOf(r) == out.value && Tree(r) && Stored(r) && Merge(Value(s), Value(t)) == Some(Value(r))
    ensures out.Some? ==> forall d :: d in Footprint(r) ==> fresh(d) || d in Footprint(s)
  {
    assert allocated(Footprint(s)) && allocated(Footprint(t));
    hide Tree, Stored, Value, Footprint, NodeOf, Merge;
    var copy, ok;
    ghost var c;
    copy, c := DeepCopy(dest, t);
    ok, r := MergeInto(source, copy, s, c);
    out := if ok then Some(copy) else None;
  }
}
