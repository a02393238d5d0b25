/**
  The data in memory, and applyAtPath of gdpr.go, which changes it in place. Objects are maps and arrays are
  slices, both held by reference; a ghost tree says which of them make up the data, and that no two positions
  share one. Whatever is changed, the heap goes on holding a tree, and what the tree stands for afterwards is
  given by FieldPaths.Into.
 */
module DataTree {
  import opened Wrappers
  import opened FieldPaths
  import opened SensitivePaths

  /** A value as it is held in a field or an element. */
  datatype Slot = Scalar(v: Json) | Object(o: ObjectNode) | Array(a: array<Slot>)

  class ObjectNode {
    var fields: map<string, Slot>

    constructor (fields: map<string, Slot>)
      ensures this.fields == fields
    {
      this.fields := fields;
    }
  }

  datatype Tree = Leaf(v: Json) | ObjectAt(o: ObjectNode, fields: map<string, Tree>)
      | ArrayAt(a: array<Slot>, elems: seq<Tree>)

  function SlotOf(t: Tree): Slot {
    match t
    case Leaf(v) => Scalar(v)
    case ObjectAt(o, _) => Object(o)
    case ArrayAt(a, _) => Array(a)
  }

  ghost function Nodes(t: Tree): (r: set<object>)
    ensures t.ObjectAt? ==> t.o in r && forall k :: k in t.fields ==> Nodes(t.fields[k]) <= r
    ensures t.ArrayAt? ==> t.a in r && forall i :: 0 <= i < |t.elems| ==> Nodes(t.elems[i]) <= r
  {
    match t
    case Leaf(_) => {}
    case ObjectAt(o, fields) =>
      var below: set<object> := set k, x | k in fields && x in Nodes(fields[k]) :: x;
      assert forall k :: k in fields ==> forall x :: x in Nodes(fields[k]) ==> x in below;
      below + {o}
    case ArrayAt(a, elems) =>
      var below: set<object> := set i, x | 0 <= i < |elems| && x in Nodes(elems[i]) :: x;
      assert forall i :: 0 <= i < |elems| ==> forall x :: x in Nodes(elems[i]) ==> x in below;
      below + {a}
  }

  /** The value the tree stands for. */
  ghost function Value(t: Tree): Json {
    match t
    case Leaf(v) => v
    case ObjectAt(_, fields) => Obj(map k | k in fields :: Value(fields[k]))
    case ArrayAt(_, elems) => Arr(seq(|elems|, i requires 0 <= i < |elems| => Value(elems[i])))
  }

  /** No node occurs twice, and a scalar is one. */
  ghost predicate IsTree(t: Tree) {
    match t
    case Leaf(v) => !v.Obj? && !v.Arr?
    case ObjectAt(o, fields) =>
      && (forall k :: k in fields ==> IsTree(fields[k]) && o !in Nodes(fields[k]))
      && (forall j, k :: j in fields && k in fields && j != k ==> Nodes(fields[j]) !! Nodes(fields[k]))
    case ArrayAt(a, elems) =>
      && (forall i :: 0 <= i < |elems| ==> IsTree(elems[i]) && a !in Nodes(elems[i]))
      && (forall i, j :: 0 <= i < j < |elems| ==> Nodes(elems[i]) !! Nodes(elems[j]))
  }

  /** The heap holds exactly this tree. */
  ghost predicate Holds(t: Tree)
    reads Nodes(t)
    decreases t
  {
    match t
    case Leaf(_) => true
    case ObjectAt(o, fields) =>
      && o.fields.Keys == fields.Keys
      && (forall k :: k in fields ==> o.fields[k] == SlotOf(fields[k]) && Holds(fields[k]))
    case ArrayAt(a, elems) =>
      && a.Length == |elems|
      && (forall i :: 0 <= i < |elems| ==> a[i] == SlotOf(elems[i]) && Holds(elems[i]))
  }

  // ---------- Reading and building ----------

  function Read(s: Slot, ghost t: Tree): (v: Json)
    requires SlotOf(t) == s && Holds(t)
    reads Nodes(t)
    ensures v == Value(t)
    decreases t
  {
    match s
    case Scalar(v) => v
    case Object(o) =>
      var read := map k | k in o.fields :: Read(o.fields[k], t.fields[k]);
      assert read == map k | k in t.fields :: Value(t.fields[k]);
      Obj(read)
    case Array(a) =>
      var read := seq(a.Length, i requires 0 <= i < a.Length && SlotOf(t) == s && Holds(t) reads Nodes(t) =>
        Read(a[i], t.elems[i]));
      assert read == seq(|t.elems|, i requires 0 <= i < |t.elems| => Value(t.elems[i]));
      Arr(read)
  }

  /** A value that was decoded, as a tree of its own. */
  method Build(v: Json) returns (s: Slot, ghost t: Tree)
    ensures IsNew(s, t, v) && fresh(Nodes(t))
    decreases v, 1
  {
    match v
    case Obj(fields) =>
      s, t := BuildObject(v);
    case Arr(elems) =>
      s, t := BuildArray(v);
    case _ =>
      assert !v.Obj? && !v.Arr?;
      t := Leaf(v);
      s := Scalar(v);
  }

  ghost predicate IsNew(s: Slot, t: Tree, v: Json)
    reads Nodes(t)
  {
    SlotOf(t) == s && IsTree(t) && Holds(t) && Value(t) == v
  }

  /** u may stand at field k of t: no node of it is elsewhere in t. */
  ghost predicate FitsField(t: Tree, k: string, u: Tree)
    requires t.ObjectAt?
  {
    IsTree(u) && t.o !in Nodes(u) && forall j :: j in t.fields && j != k ==> Nodes(t.fields[j]) !! Nodes(u)
  }

  function SetField(t: Tree, k: string, u: Tree): Tree
    requires t.ObjectAt?
  {
    ObjectAt(t.o, t.fields[k := u])
  }

  lemma SetFieldIs(t: Tree, k: string, u: Tree)
    requires t.ObjectAt? && IsTree(t) && FitsField(t, k, u)
    ensures IsTree(SetField(t, k, u)) && Nodes(SetField(t, k, u)) <= Nodes(t) + Nodes(u)
    ensures Value(SetField(t, k, u)) == Obj(Value(t).fields[k := Value(u)])
  {
    var s := SetField(t, k, u);
    assert Value(s).fields == Value(t).fields[k := Value(u)];
    TreeWithField(t, k, u);
  }

  lemma TreeWithField(t: Tree, k: string, u: Tree)
    requires t.ObjectAt? && IsTree(t) && FitsField(t, k, u)
    ensures IsTree(SetField(t, k, u))
  {
    hide Nodes;
    var s := SetField(t, k, u);
    forall j | j in s.fields ensures IsTree(s.fields[j]) && t.o !in Nodes(s.fields[j]) {}
    forall i, j | i in s.fields && j in s.fields && i != j ensures Nodes(s.fields[i]) !! Nodes(s.fields[j]) {}
  }

  /** What holding an object means for its fields. */
  lemma ObjectHolds(t: Tree)
    requires t.ObjectAt?
    ensures Holds(t) <==> HoldsFields(t)
  {
    hide Nodes;
  }

  ghost predicate HoldsFields(t: Tree)
    requires t.ObjectAt?
    reads Nodes(t)
  {
    t.o.fields.Keys == t.fields.Keys && forall k :: k in t.fields ==>
      t.o.fields[k] == SlotOf(t.fields[k]) && Holds(t.fields[k])
  }

  /** A field is written: u stands at k now. */
  method PutField(o: ObjectNode, k: string, slot: Slot, ghost t: Tree, ghost u: Tree)
    requires t.ObjectAt? && t.o == o && HoldsFields(t) && FitsField(t, k, u) && Holds(u) && slot == SlotOf(u)
    requires forall j :: j in t.fields ==> o !in Nodes(t.fields[j])
    modifies o
    ensures HoldsFields(SetField(t, k, u))
  {
    hide Nodes, Holds, IsTree;
    o.fields := o.fields[k := slot];
  }

  method BuildObject(v: Json) returns (s: Slot, ghost t: Tree)
    requires v.Obj?
    ensures IsNew(s, t, v) && fresh(Nodes(t))
    decreases v, 0, 1
  {
    hide Nodes, Holds, IsTree, Value, HoldsFields, HasAllBut;
    var left := v.fields.Keys;
    var o := new ObjectNode(map[]);
    t := ObjectAt(o, map[]);
    s := Object(o);
    EmptyObject(o, v);
    while left != {}
      invariant left <= v.fields.Keys && HasAllBut(o, t, v, left) && fresh(Nodes(t))
      decreases |left|
    {
      var k :| k in left;
      ghost var nodes := Nodes(t);
      t := AddField(o, k, v, left, t, nodes);
      left := left - {k};
    }
    AllFields(o, t, v);
  }

  /** The fields of v have been added, except those left. */
  ghost predicate HasAllBut(o: ObjectNode, t: Tree, v: Json, left: set<string>)
    requires v.Obj?
    reads Nodes(t)
  {
    && t.ObjectAt? && t.o == o && HoldsFields(t) && IsTree(t)
    && Value(t) == Obj(map k | k in v.fields && k !in left :: v.fields[k])
  }

  method AddField(o: ObjectNode, k: string, v: Json, ghost left: set<string>, ghost t: Tree, ghost nodes: set<object>)
      returns (ghost r: Tree)
    requires v.Obj? && k in v.fields && k in left && HasAllBut(o, t, v, left) && nodes == Nodes(t)
    modifies o
    ensures HasAllBut(o, r, v, left - {k}) && forall x :: x in Nodes(r) ==> x in nodes || fresh(x)
    decreases v, 0, 0
  {
    hide Nodes, Holds, IsTree, Value, HoldsFields;
    var slot, kid := Build(v.fields[k]);
    assert forall x :: x in Nodes(kid) ==> x !in nodes;
    FitsApart(t, k, kid);
    ApartFields(t);
    PutField(o, k, slot, t, kid);
    SetFieldIs(t, k, kid);
    r := SetField(t, k, kid);
    assert (map j | j in v.fields && j !in left :: v.fields[j])[k := v.fields[k]] ==
      map j | j in v.fields && j !in left - {k} :: v.fields[j];
  }

  lemma AllFields(o: ObjectNode, t: Tree, v: Json)
    requires v.Obj? && HasAllBut(o, t, v, {})
    ensures IsNew(Object(o), t, v)
  {
    hide Nodes, Holds, IsTree, Value;
    ObjectHolds(t);
    assert (map k | k in v.fields && k !in {} :: v.fields[k]) == v.fields;
  }

  lemma FitsApart(t: Tree, k: string, u: Tree)
    requires t.ObjectAt? && IsTree(u) && Nodes(t) !! Nodes(u)
    ensures FitsField(t, k, u)
  {
    hide IsTree;
  }

  lemma ApartFields(t: Tree)
    requires t.ObjectAt? && IsTree(t)
    ensures forall j :: j in t.fields ==> t.o !in Nodes(t.fields[j])
  {
    hide Nodes;
  }

  lemma EmptyObject(o: ObjectNode, v: Json)
    requires v.Obj? && o.fields == map[]
    ensures HasAllBut(o, ObjectAt(o, map[]), v, v.fields.Keys) && Nodes(ObjectAt(o, map[])) == {o}
  {
    var none: map<string, Tree> := map[];
    assert Value(ObjectAt(o, none)).fields == map[];
  }

  /** u may stand at element i of t. */
  ghost predicate FitsElem(t: Tree, i: nat, u: Tree)
    requires t.ArrayAt?
  {
    IsTree(u) && t.a !in Nodes(u) && forall j :: 0 <= j < |t.elems| && j != i ==> Nodes(t.elems[j]) !! Nodes(u)
  }

  function SetElem(t: Tree, i: nat, u: Tree): Tree
    requires t.ArrayAt? && i < |t.elems|
  {
    ArrayAt(t.a, t.elems[i := u])
  }

  lemma SetElemIs(t: Tree, i: nat, u: Tree)
    requires t.ArrayAt? && i < |t.elems| && IsTree(t) && FitsElem(t, i, u)
    ensures IsTree(SetElem(t, i, u)) && Nodes(SetElem(t, i, u)) <= Nodes(t) + Nodes(u)
    ensures i < |Value(t).elems| && Value(SetElem(t, i, u)) == Arr(Value(t).elems[i := Value(u)])
  {
    var s := SetElem(t, i, u);
    assert Value(s).elems == Value(t).elems[i := Value(u)];
  }

  lemma ArrayHolds(t: Tree)
    requires t.ArrayAt?
    ensures Holds(t) <==> HoldsElems(t)
  {
    hide Nodes;
  }

  ghost predicate HoldsElems(t: Tree)
    requires t.ArrayAt?
    reads Nodes(t)
  {
    t.a.Length == |t.elems| && forall i :: 0 <= i < |t.elems| ==> t.a[i] == SlotOf(t.elems[i]) && Holds(t.elems[i])
  }

  /** An element is written: u stands at i now. */
  method PutElem(a: array<Slot>, i: nat, slot: Slot, ghost t: Tree, ghost u: Tree)
    requires t.ArrayAt? && t.a == a && i < |t.elems| && HoldsElems(t) && FitsElem(t, i, u) && Holds(u)
      && slot == SlotOf(u)
    requires forall j :: 0 <= j < |t.elems| ==> a !in Nodes(t.elems[j])
    modifies a
    ensures HoldsElems(SetElem(t, i, u))
  {
    hide Nodes, Holds, IsTree;
    a[i] := slot;
  }

  method BuildArray(v: Json) returns (s: Slot, ghost t: Tree)
    requires v.Arr?
    ensures IsNew(s, t, v) && fresh(Nodes(t))
    decreases v, 0, 1
  {
    hide Nodes, Holds, IsTree, Value, HoldsElems, HasFirst;
    var a := new Slot[|v.elems|](_ => Scalar(Null));
    t := ArrayAt(a, seq(|v.elems|, _ => Leaf(Null)));
    s := Array(a);
    EmptyArray(a, v);
    for i := 0 to |v.elems|
      invariant HasFirst(a, t, v, i) && fresh(Nodes(t))
    {
      ghost var nodes := Nodes(t);
      t := AddElem(a, i, v, t, nodes);
    }
    AllElems(a, t, v);
  }

  /** The first n elements of v are in place. */
  ghost predicate HasFirst(a: array<Slot>, t: Tree, v: Json, n: nat)
    requires v.Arr? && n <= |v.elems|
    reads Nodes(t)
  {
    && t.ArrayAt? && t.a == a && HoldsElems(t) && IsTree(t)
    && |t.elems| == |v.elems| && |Value(t).elems| == |v.elems| && Value(t).elems[..n] == v.elems[..n]
  }

  method AddElem(a: array<Slot>, i: nat, v: Json, ghost t: Tree, ghost nodes: set<object>) returns (ghost r: Tree)
    requires v.Arr? && i < |v.elems| && HasFirst(a, t, v, i) && nodes == Nodes(t)
    modifies a
    ensures HasFirst(a, r, v, i + 1) && forall x :: x in Nodes(r) ==> x in nodes || fresh(x)
    decreases v, 0, 0
  {
    hide Nodes, Holds, IsTree, Value, HoldsElems;
    var slot, kid := Build(v.elems[i]);
    assert forall x :: x in Nodes(kid) ==> x !in nodes;
    FitsElemApart(t, i, kid);
    ApartElems(t);
    PutElem(a, i, slot, t, kid);
    SetElemIs(t, i, kid);
    r := SetElem(t, i, kid);
  }

  lemma FitsElemApart(t: Tree, i: nat, u: Tree)
    requires t.ArrayAt? && IsTree(u) && Nodes(t) !! Nodes(u)
    ensures FitsElem(t, i, u)
  {
    hide IsTree;
  }

  lemma ApartElems(t: Tree)
    requires t.ArrayAt? && IsTree(t)
    ensures forall j :: 0 <= j < |t.elems| ==> t.a !in Nodes(t.elems[j])
  {
    hide Nodes;
  }

  lemma AllElems(a: array<Slot>, t: Tree, v: Json)
    requires v.Arr? && HasFirst(a, t, v, |v.elems|)
    ensures IsNew(Array(a), t, v)
  {
    hide Nodes, Holds, IsTree;
    ArrayHolds(t);
  }

  lemma EmptyArray(a: array<Slot>, v: Json)
    requires v.Arr? && a.Length == |v.elems| && forall i :: 0 <= i < a.Length ==> a[i] == Scalar(Null)
    ensures var t := ArrayAt(a, seq(|v.elems|, _ => Leaf(Null))); HasFirst(a, t, v, 0) && Nodes(t) == {a}
  {
  }

  // ---------- Changing in place ----------

  /** A field's tree was replaced by one of its own nodes and new ones. */
  lemma FitsAround(t: Tree, k: string, u: Tree, nodes: set<object>)
    requires t.ObjectAt? && IsTree(t) && k in t.fields && IsTree(u) && nodes == Nodes(t)
    requires forall x :: x in Nodes(u) ==> x in Nodes(t.fields[k]) || x !in nodes
    ensures FitsField(t, k, u)
  {
    forall j | j in t.fields && j != k ensures Nodes(t.fields[j]) !! Nodes(u) {
      assert Nodes(t.fields[j]) !! Nodes(t.fields[k]) && Nodes(t.fields[j]) <= nodes;
    }
    hide IsTree;
  }

  lemma FieldValue(t: Tree, k: string)
    requires t.ObjectAt? && k in t.fields
    ensures Value(t).Obj? && Value(t).fields.Keys == t.fields.Keys && Value(t).fields[k] == Value(t.fields[k])
  {
  }

  lemma ApartFromField(t: Tree, k: string)
    requires t.ObjectAt? && IsTree(t) && k in t.fields
    ensures IsTree(t.fields[k]) && forall j :: j in t.fields && j != k ==> Nodes(t.fields[j]) !! Nodes(t.fields[k])
  {
    hide Nodes;
  }

  /** op on one value: what has to be written where it stood, or None for an error. */
  method LeafInPlace(s: Slot, op: Op, ghost t: Tree) returns (r: Option<Slot>, ghost u: Tree)
    requires SlotOf(t) == s && IsTree(t) && Holds(t)
    ensures r == None <==> op(Value(t)) == None
    ensures r == None ==> u == t
    ensures r.Some? ==> r.value == SlotOf(u) && IsTree(u) && Holds(u) && op(Value(t)) == Some(Value(u))
    ensures u == t || fresh(Nodes(u))
  {
    hide Nodes, Holds, Value, IsTree;
    var v := Read(s, t);
    match op(v)
    case None => return None, t;
    case Some(w) =>
      if w == v {
        return Some(s), t;
      }
      var slot;
      slot, u := Build(w);
      return Some(slot), u;
  }

  /** applyAtPath on a field that is there, after its segment was taken off. */
  method FieldInPlace(o: ObjectNode, k: string, each: bool, rest: seq<Segment>, op: Op, ghost t: Tree,
      ghost nodes: set<object>)
    returns (ok: bool, ghost u: Tree)
    requires t.ObjectAt? && t.o == o && IsTree(t) && HoldsFields(t) && nodes == Nodes(t) && k in t.fields
    modifies nodes
    ensures SlotOf(u) == Object(o) && IsTree(u) && Holds(u) && forall x :: x in Nodes(u) ==> x in nodes || fresh(x)
    ensures Value(t).Obj? && Below(Value(t.fields[k]), each, rest, op).ok == ok
    ensures Value(u) == Obj(Value(t).fields[k := Below(Value(t.fields[k]), each, rest, op).left])
    decreases |rest|, 2, 0
  {
    hide Nodes, Holds, Value, Below, IsTree, HoldsFields;
    ghost var v;
    ok, v := WriteField(o, k, each, rest, op, t, nodes);
    FieldValue(t, k);
    SetFieldIs(t, k, v);
    u := SetField(t, k, v);
    ObjectHolds(u);
  }

  /** What is in the field afterwards. */
  method WriteField(o: ObjectNode, k: string, each: bool, rest: seq<Segment>, op: Op, ghost t: Tree,
      ghost nodes: set<object>)
    returns (ok: bool, ghost v: Tree)
    requires t.ObjectAt? && t.o == o && IsTree(t) && HoldsFields(t) && nodes == Nodes(t) && k in t.fields
    modifies nodes
    ensures FitsField(t, k, v) && HoldsFields(SetField(t, k, v)) && forall x :: x in Nodes(v) ==> x in nodes || fresh(x)
    ensures Result(Value(v), ok) == Below(Value(t.fields[k]), each, rest, op)
    decreases |rest|, 1, 2
  {
    hide Nodes, Holds, Value, Below, IsTree, FitsField, HoldsFields;
    if !each && rest == [] {
      ok, v := WriteLeaf(o, k, op, t, nodes);
    } else {
      ok, v := WriteBelow(o, k, each, rest, op, t, nodes);
    }
  }

  method WriteBelow(o: ObjectNode, k: string, each: bool, rest: seq<Segment>, op: Op, ghost t: Tree,
      ghost nodes: set<object>)
    returns (ok: bool, ghost v: Tree)
    requires t.ObjectAt? && t.o == o && IsTree(t) && HoldsFields(t) && nodes == Nodes(t) && k in t.fields
    requires each || rest != []
    modifies nodes
    ensures FitsField(t, k, v) && HoldsFields(SetField(t, k, v)) && forall x :: x in Nodes(v) ==> x in nodes || fresh(x)
    ensures Result(Value(v), ok) == Below(Value(t.fields[k]), each, rest, op)
    decreases |rest|, 1, 1
  {
    hide Nodes, Holds, Value, Below, IsTree, FitsField, HoldsFields, HoldsOthers, OtherNodes;
    ghost var kid := t.fields[k];
    FieldHolds(t, k);
    ApartOthers(t, k);
    ApartFromField(t, k);
    ok, v := ChildInPlace(o.fields[k], each, rest, op, kid, Nodes(kid));
    FitsAround(t, k, v, nodes);
    HoldsAgain(t, k, v);
  }

  ghost function OtherNodes(t: Tree, k: string): (r: set<object>)
    requires t.ObjectAt?
    ensures t.o in r && forall j :: j in t.fields && j != k ==> Nodes(t.fields[j]) <= r
  {
    var below: set<object> := set j, x | j in t.fields && j != k && x in Nodes(t.fields[j]) :: x;
    assert forall j :: j in t.fields && j != k ==> forall x :: x in Nodes(t.fields[j]) ==> x in below;
    below + {t.o}
  }

  /** The object holds its fields but for k. */
  ghost predicate HoldsOthers(t: Tree, k: string)
    requires t.ObjectAt? && k in t.fields
    reads OtherNodes(t, k)
  {
    t.o.fields.Keys == t.fields.Keys && forall j :: j in t.fields && j != k ==>
      t.o.fields[j] == SlotOf(t.fields[j]) && Holds(t.fields[j])
  }

  lemma ApartOthers(t: Tree, k: string)
    requires t.ObjectAt? && IsTree(t) && HoldsFields(t) && k in t.fields
    ensures OtherNodes(t, k) <= Nodes(t) && OtherNodes(t, k) !! Nodes(t.fields[k]) && HoldsOthers(t, k)
  {
    hide Nodes, Holds;
  }

  lemma HoldsAgain(t: Tree, k: string, v: Tree)
    requires t.ObjectAt? && k in t.fields && HoldsOthers(t, k)
    requires t.o.fields[k] == SlotOf(v) && Holds(v)
    ensures HoldsFields(SetField(t, k, v))
  {
    hide Nodes, Holds, OtherNodes;
  }

  method WriteLeaf(o: ObjectNode, k: string, op: Op, ghost t: Tree, ghost nodes: set<object>)
      returns (ok: bool, ghost v: Tree)
    requires t.ObjectAt? && t.o == o && IsTree(t) && HoldsFields(t) && nodes == Nodes(t) && k in t.fields
    modifies o
    ensures FitsField(t, k, v) && HoldsFields(SetField(t, k, v)) && forall x :: x in Nodes(v) ==> x in nodes || fresh(x)
    ensures Result(Value(v), ok) == Below(Value(t.fields[k]), false, [], op)
  {
    hide Nodes, Holds, Value, Below, IsTree, FitsField, HoldsFields;
    FieldHolds(t, k);
    ApartFields(t);
    ApartFromField(t, k);
    var r;
    r, v := LeafInPlace(o.fields[k], op, t.fields[k]);
    BelowLeaf(Value(t.fields[k]), op);
    FitsAround(t, k, v, nodes);
    if r.Some? {
      PutField(o, k, r.value, t, v);
    } else {
      SameField(t, k);
    }
    ok := r.Some?;
  }

  lemma FieldHolds(t: Tree, k: string)
    requires t.ObjectAt? && HoldsFields(t) && k in t.fields
    ensures k in t.o.fields && t.o.fields[k] == SlotOf(t.fields[k]) && Holds(t.fields[k])
  {
  }

  lemma SameField(t: Tree, k: string)
    requires t.ObjectAt? && k in t.fields
    ensures SetField(t, k, t.fields[k]) == t
  {
    assert t.fields[k := t.fields[k]] == t.fields;
  }

  /** What is below a field whose segment was taken off. */
  function Below(v: Json, each: bool, rest: seq<Segment>, op: Op): Result<Json> {
    Into(v, (if each then [Each] else []) + StepsOf(rest), op)
  }

  lemma BelowLeaf(v: Json, op: Op)
    ensures Below(v, false, [], op) == match op(v) case None => Result(v, false) case Some(w) => Result(w, true)
  {
    assert [] + StepsOf([]) == [];
  }

  /** Nothing to write at the field itself. */
  method ChildInPlace(child: Slot, each: bool, rest: seq<Segment>, op: Op, ghost t: Tree, ghost nodes: set<object>)
    returns (ok: bool, ghost u: Tree)
    requires SlotOf(t) == child && IsTree(t) && Holds(t) && nodes == Nodes(t) && (each || rest != [])
    modifies nodes
    ensures SlotOf(u) == child && IsTree(u) && Holds(u) && forall x :: x in Nodes(u) ==> x in nodes || fresh(x)
    ensures Result(Value(u), ok) == Below(Value(t), each, rest, op)
    decreases |rest|, 1, 0
  {
    hide Nodes, Holds, Value, Into, IntoAll, StepsOf, IsTree;
    if !each {
      assert [] + StepsOf(rest) == StepsOf(rest);
      ok, u := ApplyAtPath(child, rest, op, t, nodes);
      return;
    }
    NotAnArray(t);
    IntoEach(Value(t), StepsOf(rest), op);
    if child.Array? {
      ArrayHolds(t);
      ok, u := ElemsInPlace(child.a, rest, op, t, nodes);
    } else {
      return true, t;
    }
  }

  lemma NotAnArray(t: Tree)
    requires IsTree(t)
    ensures t.ArrayAt? <==> Value(t).Arr?
    ensures t.ObjectAt? <==> Value(t).Obj?
  {
  }

  lemma IntoEach(v: Json, p: Path, op: Op)
    ensures Into(v, [Each] + p, op) ==
      if v.Arr? then Result(Arr(IntoAll(v.elems, p, op).left), IntoAll(v.elems, p, op).ok) else Result(v, true)
  {
    assert ([Each] + p)[1..] == p;
    hide IntoAll;
  }

  method ElemsInPlace(a: array<Slot>, rest: seq<Segment>, op: Op, ghost t: Tree, ghost nodes: set<object>)
    returns (ok: bool, ghost u: Tree)
    requires t.ArrayAt? && t.a == a && IsTree(t) && HoldsElems(t) && nodes == Nodes(t)
    modifies nodes
    ensures SlotOf(u) == Array(a) && IsTree(u) && Holds(u) && forall x :: x in Nodes(u) ==> x in nodes || fresh(x)
    ensures Value(t).Arr? && IntoAll(Value(t).elems, StepsOf(rest), op).ok == ok
    ensures Value(u) == Arr(IntoAll(Value(t).elems, StepsOf(rest), op).left)
    decreases |rest|, 0, 2
  {
    hide Nodes, Holds, Value, Into, IntoAll, StepsOf, IsTree, HoldsElems;
    ghost var p := StepsOf(rest);
    NotAnArray(t);
    ElemsValue(t);
    ghost var was := Value(t).elems;
    u := t;
    ghost var now := nodes;
    AllAhead(was, p, op);
    for i := 0 to a.Length
      invariant u.ArrayAt? && u.a == a && IsTree(u) && HoldsElems(u) && now == Nodes(u)
      invariant forall x :: x in now ==> x in nodes || fresh(x)
      invariant Value(u).Arr? && |Value(u).elems| == |was| == a.Length && DoneUpTo(was, Value(u).elems, i, p, op)
    {
      ghost var before := Value(u).elems;
      ok, u := ElemInPlace(a, i, rest, op, u, now);
      now := Nodes(u);
      NextDone(was, before, i, p, op);
      if !ok {
        ArrayHolds(u);
        return;
      }
    }
    AllDone(was, Value(u).elems, p, op);
    ArrayHolds(u);
    ok := true;
  }

  lemma ElemsValue(t: Tree)
    requires t.ArrayAt?
    ensures Value(t).Arr? && |Value(t).elems| == |t.elems| && forall i :: 0 <= i < |t.elems| ==>
      Value(t).elems[i] == Value(t.elems[i])
    ensures HoldsElems(t) ==> |t.elems| == t.a.Length
  {
    hide Nodes, Holds;
  }

  /** The first n elements are done, the others as they were. */
  ghost predicate DoneUpTo(was: seq<Json>, now: seq<Json>, n: nat, p: Path, op: Op)
    requires n <= |was| == |now|
  {
    && now[n..] == was[n..]
    && IntoAll(was, p, op) == Result(now[..n] + IntoAll(was[n..], p, op).left, IntoAll(was[n..], p, op).ok)
  }

  lemma AllAhead(was: seq<Json>, p: Path, op: Op)
    ensures DoneUpTo(was, was, 0, p, op)
  {
    hide IntoAll;
    assert was[0..] == was && was[..0] == [];
    assert [] + IntoAll(was, p, op).left == IntoAll(was, p, op).left;
  }

  lemma AllDone(was: seq<Json>, now: seq<Json>, p: Path, op: Op)
    requires |was| == |now| && DoneUpTo(was, now, |was|, p, op)
    ensures IntoAll(was, p, op) == Result(now, true)
  {
    assert was[|was|..] == [] && now[..|was|] == now;
    assert now + [] == now;
  }

  lemma OneFurther<T>(was: seq<T>, now: seq<T>, n: nat, x: T, rest: seq<T>)
    requires n < |was| == |now| && now[n..] == was[n..]
    ensures now[n := x][n + 1..] == was[n + 1..]
    ensures was[n..] != [] && was[n..][0] == now[n] && was[n..][1..] == was[n + 1..]
    ensures now[..n] + ([x] + rest) == now[n := x][..n + 1] + rest
    ensures now[..n] + ([x] + was[n + 1..]) == now[n := x]
  {
    assert now[n..][0] == now[n];
    forall i | n < i < |was| ensures now[i] == was[i] { assert now[n..][i - n] == was[n..][i - n]; }
  }

  lemma NextDone(was: seq<Json>, now: seq<Json>, n: nat, p: Path, op: Op)
    requires n < |was| == |now| && DoneUpTo(was, now, n, p, op)
    ensures var c := Into(now[n], p, op);
      if c.ok then DoneUpTo(was, now[n := c.left], n + 1, p, op)
      else IntoAll(was, p, op) == Result(now[n := c.left], false)
  {
    hide Into;
    var c := Into(now[n], p, op);
    OneFurther(was, now, n, c.left, IntoAll(was[n + 1..], p, op).left);
    IntoAllCons(was[n..], p, op);
    hide IntoAll;
  }

  lemma IntoAllCons(elems: seq<Json>, p: Path, op: Op)
    requires elems != []
    ensures var c := Into(elems[0], p, op); var rest := IntoAll(elems[1..], p, op);
      IntoAll(elems, p, op) ==
        if c.ok then Result([c.left] + rest.left, rest.ok) else Result([c.left] + elems[1..], false)
  {
    hide Into;
  }

  /** One element of the loop. */
  method ElemInPlace(a: array<Slot>, i: nat, rest: seq<Segment>, op: Op, ghost t: Tree, ghost nodes: set<object>)
    returns (ok: bool, ghost u: Tree)
    requires t.ArrayAt? && t.a == a && IsTree(t) && HoldsElems(t) && nodes == Nodes(t) && i < a.Length
    modifies nodes
    ensures u.ArrayAt? && u.a == a && IsTree(u) && HoldsElems(u) && forall x :: x in Nodes(u) ==> x in nodes || fresh(x)
    ensures Value(t).Arr? && |Value(t).elems| == a.Length && Into(Value(t).elems[i], StepsOf(rest), op).ok == ok
    ensures Value(u) == Arr(Value(t).elems[i := Into(Value(t).elems[i], StepsOf(rest), op).left])
    decreases |rest|, 0, 1
  {
    hide Nodes, Holds, Value, Into, StepsOf, IsTree;
    ghost var kid := t.elems[i];
    ghost var v;
    ApartElems(t);
    ApartFromElem(t, i);
    ElemsValue(t);
    if rest == [] {
      var r;
      r, v := LeafInPlace(a[i], op, kid);
      IntoLeaf(Value(kid), op);
      FitsElemAround(t, i, v, nodes);
      if r.Some? {
        PutElem(a, i, r.value, t, v);
      }
      ok := r.Some?;
    } else {
      ok, v := ApplyAtPath(a[i], rest, op, kid, Nodes(kid));
      FitsElemAround(t, i, v, nodes);
    }
    SetElemIs(t, i, v);
    u := SetElem(t, i, v);
  }

  lemma IntoLeaf(v: Json, op: Op)
    ensures Into(v, StepsOf([]), op) == match op(v) case None => Result(v, false) case Some(w) => Result(w, true)
  {
  }

  lemma ApartFromElem(t: Tree, i: nat)
    requires t.ArrayAt? && IsTree(t) && i < |t.elems|
    ensures IsTree(t.elems[i]) && forall j :: 0 <= j < |t.elems| && j != i ==> Nodes(t.elems[j]) !! Nodes(t.elems[i])
  {
    hide Nodes;
  }

  lemma FitsElemAround(t: Tree, i: nat, u: Tree, nodes: set<object>)
    requires t.ArrayAt? && IsTree(t) && i < |t.elems| && IsTree(u) && nodes == Nodes(t)
    requires forall x :: x in Nodes(u) ==> x in Nodes(t.elems[i]) || x !in nodes
    ensures FitsElem(t, i, u)
  {
    ApartFromElem(t, i);
    forall j | 0 <= j < |t.elems| && j != i ensures Nodes(t.elems[j]) !! Nodes(u) {
      assert Nodes(t.elems[j]) !! Nodes(t.elems[i]) && Nodes(t.elems[j]) <= nodes;
    }
    ApartElems(t);
    hide IsTree, Nodes;
  }

  /** applyAtPath: descend by the first segment. */
  method ApplyAtPath(s: Slot, segs: seq<Segment>, op: Op, ghost t: Tree, ghost nodes: set<object>)
    returns (ok: bool, ghost u: Tree)
    requires SlotOf(t) == s && IsTree(t) && Holds(t) && nodes == Nodes(t)
    modifies nodes
    ensures SlotOf(u) == s && IsTree(u) && Holds(u) && forall x :: x in Nodes(u) ==> x in nodes || fresh(x)
    ensures Result(Value(u), ok) == if segs == [] then Result(Value(t), true) else Into(Value(t), StepsOf(segs), op)
    decreases |segs|, 0, 0
  {
    hide Nodes, Holds, Value, Into, StepsOf, IsTree;
    if segs == [] {
      return true, t;
    }
    var seg := segs[0];
    NotAnArray(t);
    IntoSegments(Value(t), segs, op);
    if !s.Object? {
      return true, t;
    }
    ObjectHolds(t);
    ObjectValue(t);
    if seg.key !in s.o.fields {
      return true, t;
    }
    ok, u := FieldInPlace(s.o, seg.key, seg.each, segs[1..], op, t, nodes);
  }

  lemma ObjectValue(t: Tree)
    requires t.ObjectAt?
    ensures Value(t).Obj? && Value(t).fields.Keys == t.fields.Keys && forall k :: k in t.fields ==>
      Value(t).fields[k] == Value(t.fields[k])
  {
  }

  lemma IntoSegments(v: Json, segs: seq<Segment>, op: Op)
    requires segs != []
    ensures var k := segs[0].key;
      Into(v, StepsOf(segs), op) ==
      if v.Obj? && k in v.fields then
        var c := Below(v.fields[k], segs[0].each, segs[1..], op); Result(Obj(v.fields[k := c.left]), c.ok)
      else Result(v, true)
  {
    var below := (if segs[0].each then [Each] else []) + StepsOf(segs[1..]);
    assert StepsOf(segs) == [Key(segs[0].key)] + below;
    assert StepsOf(segs)[1..] == below;
  }
}
