/** Protect and Unprotect of gdpr.go. */
module Gdpr {
  // The walk over printed paths is a recursion over the schema, what it does not address it does not change, and
  // decrypting what was encrypted gives the data back.

  import opened Wrappers
  import opened KeyOrder
  import opened FieldPaths
  import opened SensitivePaths
  import opened DataTree
  import opened NestedPaths

  // ---------- The operations ----------

  /** Encrypting includes the JSON encoding of the value, decrypting its decoding. */
  datatype Cipher = Cipher(encrypt: Json -> Option<string>, decrypt: string -> Option<Json>)

  ghost predicate Inverts(c: Cipher) { forall v :: c.encrypt(v).Some? ==> c.decrypt(c.encrypt(v).value) == Some(v) }

  function Encrypted(c: Cipher, v: Json): Option<Json> {
    match c.encrypt(v) case None => None case Some(s) => Some(Str(s))
  }

  /** Anything but a string was never protected, and is left alone. */
  function Decrypted(c: Cipher, v: Json): Option<Json> { if v.Str? then c.decrypt(v.s) else Some(v) }

  function Encrypting(c: Cipher): Op { v => Encrypted(c, v) }

  function Decrypting(c: Cipher): Op { v => Decrypted(c, v) }

  // ---------- The code ----------

  /** SensitivePaths: what was collected, sorted. */
  method SortedPaths(s: Schema) returns (out: seq<string>)
    ensures multiset(out) == multiset(Collect(s, "")) && Ordered(out)
  {
    var all := Collect(s, "");
    out := [];
    for i := 0 to |all|
      invariant multiset(out) == multiset(all[..i]) && Ordered(out)
    {
      assert all[..i + 1] == all[..i] + [all[i]];
      out := Insert(out, all[i]);
    }
    assert all[..|all|] == all;
  }

  predicate Ordered(xs: seq<string>) { forall i, j :: 0 <= i < j < |xs| ==> Leq(xs[i], xs[j]) }

  method Insert(xs: seq<string>, x: string) returns (r: seq<string>)
    requires Ordered(xs)
    ensures multiset(r) == multiset(xs) + multiset{x} && Ordered(r)
  {
    hide Leq;
    var k := 0;
    while k < |xs| && Leq(xs[k], x)
      invariant k <= |xs| && forall i :: 0 <= i < k ==> Leq(xs[i], x)
    {
      k := k + 1;
    }
    r := xs[..k] + [x] + xs[k..];
    assert xs == xs[..k] + xs[k..];
    if k < |xs| {
      LeqTotal(xs[k], x);
      forall j | k <= j < |xs| ensures Leq(x, xs[j]) {
        if j > k { LeqTransitive(x, xs[k], xs[j]); }
      }
    }
    InsertOrdered(xs, x, k);
  }

  lemma InsertOrdered(xs: seq<string>, x: string, k: nat)
    requires Ordered(xs) && k <= |xs| && (forall i :: 0 <= i < k ==> Leq(xs[i], x)) && forall j :: k <= j < |xs| ==>
      Leq(x, xs[j])
    ensures Ordered(xs[..k] + [x] + xs[k..])
  {
    hide Leq;
    var r := xs[..k] + [x] + xs[k..];
    forall i, j | 0 <= i < j < |r| ensures Leq(r[i], r[j]) {
      var a := if i < k then i else i - 1;
      var b := if j < k then j else j - 1;
      assert i != k ==> r[i] == xs[a];
      assert j != k ==> r[j] == xs[b];
    }
  }

  /** The root mark has the empty text, and addresses nothing. */
  function BelowRoot(texts: seq<string>): seq<string> {
    if texts == [] then [] else (if texts[0] == "" then [] else [texts[0]]) + BelowRoot(texts[1..])
  }

  /** What printed paths address. */
  ghost predicate Addresses(texts: seq<string>, ps: seq<Path>) {
    |ps| == |texts| && forall i :: 0 <= i < |texts| ==> AddressesOne(texts[i], ps[i])
  }

  lemma {:induction false} AddressesExist(texts: seq<string>) returns (ps: seq<Path>)
    ensures Addresses(BelowRoot(texts), ps)
  {
    if texts == [] {
      ps := [];
    } else {
      var rest := AddressesExist(texts[1..]);
      if texts[0] == "" {
        ps := rest;
        assert BelowRoot(texts) == BelowRoot(texts[1..]);
      } else {
        var parts := SplitExists(texts[0]);
        ps := [StepsOf(SegmentsOf(parts))] + rest;
        assert AddressesOne(texts[0], ps[0]);
      }
    }
  }

  lemma AddressesTail(texts: seq<string>, ps: seq<Path>)
    requires texts != [] && texts[0] != "" && Addresses(BelowRoot(texts), ps)
    ensures ps != [] && AddressesOne(texts[0], ps[0]) && Addresses(BelowRoot(texts[1..]), ps[1..])
  {
    hide AddressesOne;
    assert BelowRoot(texts) == [texts[0]] + BelowRoot(texts[1..]);
    assert AddressesOne(BelowRoot(texts)[0], ps[0]);
    forall j | 0 <= j < |ps[1..]| ensures AddressesOne(BelowRoot(texts[1..])[j], ps[1..][j]) {
      assert AddressesOne(BelowRoot(texts)[j + 1], ps[j + 1]);
    }
  }

  /** walk: every path in order, in place; the first error ends it. */
  method Walk(data: Slot, texts: seq<string>, op: Op, ghost ps: seq<Path>, ghost t: Tree, ghost nodes: set<object>)
    returns (ok: bool, ghost u: Tree)
    requires Addresses(BelowRoot(texts), ps)
    requires SlotOf(t) == data && IsTree(t) && Holds(t) && nodes == Nodes(t)
    modifies nodes
    ensures SlotOf(u) == data && IsTree(u) && Holds(u) && forall x :: x in Nodes(u) ==> x in nodes || fresh(x)
    ensures Result(Value(u), ok) == InOrder(Value(t), ps, op)
  {
    hide Into, Addresses, AddressesOne, BelowRoot, StepsOf, SegmentsOf, IsSplit, Nodes, Holds, IsTree, Value, InOrder;
    ghost var left := ps;
    u := t;
    ghost var now := nodes;
    assert texts[0..] == texts;
    for i := 0 to |texts|
      invariant Addresses(BelowRoot(texts[i..]), left)
      invariant InOrder(Value(t), ps, op) == InOrder(Value(u), left, op)
      invariant SlotOf(u) == data && IsTree(u) && Holds(u) && now == Nodes(u) && forall x :: x in now ==>
        x in nodes || fresh(x)
    {
      assert texts[i..][1..] == texts[i + 1..] && texts[i..][0] == texts[i];
      var segs := ParsePath(texts[i]);
      ghost var before := Value(u);
      ok, u := ApplyAtPath(data, segs, op, u, now);
      now := Nodes(u);
      if texts[i] != "" {
        AddressesTail(texts[i..], left);
        ParsedSteps(texts[i], left[0], segs);
        OneInOrder(before, left, op);
        left := left[1..];
      } else {
        SkipsRoot(texts[i..]);
      }
      if !ok {
        return;
      }
    }
    assert texts[|texts|..] == [];
    AllAddressed(left);
    NoneInOrder(Value(u), op);
    ok := true;
  }

  lemma OneInOrder(v: Json, ps: seq<Path>, op: Op)
    requires ps != []
    ensures InOrder(v, ps, op) ==
      if Into(v, ps[0], op).ok then InOrder(Into(v, ps[0], op).left, ps[1..], op) else Into(v, ps[0], op)
  {
    hide Into;
  }

  lemma NoneInOrder(v: Json, op: Op)
    ensures InOrder(v, [], op) == Result(v, true)
  {
  }

  lemma SkipsRoot(texts: seq<string>)
    requires texts != [] && texts[0] == ""
    ensures BelowRoot(texts) == BelowRoot(texts[1..])
  {
  }

  lemma AllAddressed(ps: seq<Path>)
    requires Addresses(BelowRoot([]), ps)
    ensures ps == []
  {
  }

  lemma ParsedSteps(text: string, p: Path, segs: seq<Segment>)
    requires AddressesOne(text, p) && exists parts :: IsSplit(text, parts) && segs == SegmentsOf(parts)
    ensures segs != [] && StepsOf(segs) == p
  {
    var a :| IsSplit(text, a) && p == StepsOf(SegmentsOf(a));
    var b :| IsSplit(text, b) && segs == SegmentsOf(b);
    JoinIsInjective(a, b);
  }

  // ---------- The recursion over the schema ----------

  function WalkSchema(s: Schema, v: Json, op: Op): Option<Json>
    decreases s, 1, 0
  {
    if s.marked then op(v)
    else
      match WalkProperties(s.properties, v, op)
      case None => None
      case Some(w) =>
        if s.items.Some? && w.Arr? then
          match WalkItems(s.items.value, w.elems, op) case None => None case Some(es) => Some(Arr(es))
        else Some(w)
  }

  function WalkProperty(p: Property, v: Json, op: Op): Option<Json>
    decreases p, 0, 0
  {
    if v.Obj? && p.name in v.fields then
      match WalkSchema(p.schema, v.fields[p.name], op) case None => None
        case Some(c) => Some(Obj(v.fields[p.name := c]))
    else Some(v)
  }

  function WalkProperties(props: seq<Property>, v: Json, op: Op): Option<Json>
    decreases props, 0, 0
  {
    if props == [] then Some(v)
    else match WalkProperty(props[0], v, op) case None => None case Some(w) => WalkProperties(props[1..], w, op)
  }

  function WalkItems(s: Schema, elems: seq<Json>, op: Op): Option<seq<Json>>
    decreases s, 2, |elems|
  {
    if elems == [] then Some([])
    else
      match WalkSchema(s, elems[0], op)
      case None => None
      case Some(e) => match WalkItems(s, elems[1..], op) case None => None case Some(es) => Some([e] + es)
  }

  // ---------- Schemas whose marks are addressed ----------

  predicate Unmarked(s: Schema) { Marks(s) == [] }

  /** No two properties share a name, and no mark lies inside a marked value. */
  predicate PlainSchema(s: Schema)
    decreases s, 1
  {
    && (s.marked ==> PropertyMarks(s.properties) == [] && (s.items.Some? ==> Unmarked(s.items.value)))
    && PlainProperties(s.properties)
    && (s.items.Some? ==> PlainSchema(s.items.value))
  }

  predicate PlainProperties(props: seq<Property>)
    decreases props, 0
  {
    props == [] || (
      && PlainSchema(props[0].schema)
      && (forall i :: 0 < i < |props| ==> props[i].name != props[0].name)
      && PlainProperties(props[1..]))
  }

  /** Every mark is addressed by what it is printed as. */
  predicate MarksSurvive(s: Schema) { forall i :: 0 <= i < |Marks(s)| ==> Survives(Marks(s)[i]) }

  predicate PlainRoot(s: Schema) { PlainSchema(s) && MarksSurvive(s) }

  // ---------- The marks of such a schema print, parse and diverge ----------

  lemma PrefixedDiverge(step: Step, ps: seq<Path>)
    requires Diverging(ps)
    ensures Diverging(Prefixed(step, ps))
  {
    forall i, j | 0 <= i < j < |ps| ensures Diverge([step] + ps[i], [step] + ps[j]) {
      assert Diverge(ps[i], ps[j]);
      assert ([step] + ps[i])[1..] == ps[i] && ([step] + ps[j])[1..] == ps[j];
    }
  }

  lemma ConcatDiverge(a: seq<Path>, b: seq<Path>)
    requires Diverging(a) && Diverging(b)
    requires forall i, j :: 0 <= i < |a| && 0 <= j < |b| ==> Diverge(a[i], b[j])
    ensures Diverging(a + b)
  {
    hide Diverge;
    forall i, j | 0 <= i < j < |a + b| ensures Diverge((a + b)[i], (a + b)[j]) {
      if j < |a| {
        assert Diverge(a[i], a[j]);
      } else if i < |a| {
        assert Diverge(a[i], b[j - |a|]);
      } else {
        assert Diverge(b[i - |a|], b[j - |a|]);
      }
    }
  }

  /** Every mark of the properties starts with one of their names. */
  lemma {:induction false} PropertyMarkStarts(props: seq<Property>, i: nat)
    requires i < |PropertyMarks(props)|
    ensures PropertyMarks(props)[i] != []
    ensures exists j :: 0 <= j < |props| && PropertyMarks(props)[i][0] == Key(props[j].name)
    decreases |props|
  {
    hide Marks;
    var first := Marks(props[0].schema);
    if i >= |first| {
      PropertyMarkStarts(props[1..], i - |first|);
      var j :| 0 <= j < |props[1..]| && PropertyMarks(props[1..])[i - |first|][0] == Key(props[1..][j].name);
      assert props[j + 1] == props[1..][j];
    }
  }

  lemma {:induction false} MarksDiverge(s: Schema)
    requires PlainSchema(s)
    ensures Diverging(Marks(s))
    decreases s, 1
  {
    var props := PropertyMarks(s.properties);
    var items := if s.items.Some? then Prefixed(Each, Marks(s.items.value)) else [];
    PropertyMarksDiverge(s.properties);
    if s.items.Some? {
      MarksDiverge(s.items.value);
      PrefixedDiverge(Each, Marks(s.items.value));
    }
    hide Marks, PropertyMarks, Diverging, PlainSchema;
    if s.marked {
      OnlyTheMark(s);
    } else {
      forall i, j | 0 <= i < |props| && 0 <= j < |items| ensures Diverge(props[i], items[j]) {
        PropertyMarkStarts(s.properties, i);
      }
      ConcatDiverge(props, items);
      MarksOfUnmarked(s);
    }
  }

  lemma OnlyTheMark(s: Schema)
    requires PlainSchema(s) && s.marked
    ensures Diverging(Marks(s))
  {
    assert Marks(s) == [[]];
  }

  lemma MarksOfUnmarked(s: Schema)
    requires !s.marked
    ensures Marks(s) == PropertyMarks(s.properties) + if s.items.Some? then Prefixed(Each, Marks(s.items.value)) else []
  {
    hide PropertyMarks, Prefixed;
  }

  lemma {:induction false} PropertyMarksDiverge(props: seq<Property>)
    requires PlainProperties(props)
    ensures Diverging(PropertyMarks(props))
    decreases props, 0
  {
    if props != [] {
      var first, rest := Prefixed(Key(props[0].name), Marks(props[0].schema)), PropertyMarks(props[1..]);
      MarksDiverge(props[0].schema);
      PrefixedDiverge(Key(props[0].name), Marks(props[0].schema));
      PropertyMarksDiverge(props[1..]);
      forall i, j | 0 <= i < |first| && 0 <= j < |rest| ensures Diverge(first[i], rest[j]) {
        PropertyMarkStarts(props[1..], j);
        var k :| 0 <= k < |props[1..]| && rest[j][0] == Key(props[1..][k].name);
        assert props[1..][k] == props[k + 1];
      }
      ConcatDiverge(first, rest);
    }
  }

  // ---------- The walk over the paths is the recursion ----------

  lemma {:induction false} EachConcat(v: Json, a: seq<Path>, b: seq<Path>, op: Op)
    ensures ApplyEach(v, a + b, op) == match ApplyEach(v, a, op) case None => None case Some(w) => ApplyEach(w, b, op)
    decreases |a|
  {
    hide ApplyAt;
    if a == [] {
      assert a + b == b;
    } else {
      assert (a + b)[1..] == a[1..] + b;
      var w := ApplyAt(v, a[0], op);
      if w.Some? {
        EachConcat(w.value, a[1..], b, op);
      }
    }
  }

  lemma {:induction false} EachUnderKey(v: Json, k: string, ps: seq<Path>, op: Op)
    ensures ApplyEach(v, Prefixed(Key(k), ps), op) ==
      if v.Obj? && k in v.fields then
        match ApplyEach(v.fields[k], ps, op) case None => None case Some(c) => Some(Obj(v.fields[k := c]))
      else Some(v)
    decreases |ps|
  {
    if ps == [] {
      if v.Obj? && k in v.fields {
        assert v.fields[k := v.fields[k]] == v.fields;
      }
    } else {
      var p := ps[0];
      assert Prefixed(Key(k), ps) == [[Key(k)] + p] + Prefixed(Key(k), ps[1..]);
      EachOne(v, [Key(k)] + p, Prefixed(Key(k), ps[1..]), op);
      assert ([Key(k)] + p)[1..] == p;
      var w := ApplyAt(v, [Key(k)] + p, op);
      if w.Some? {
        EachUnderKey(w.value, k, ps[1..], op);
        if v.Obj? && k in v.fields {
          var c := ApplyAt(v.fields[k], p, op).value;
          var d := ApplyEach(c, ps[1..], op);
          if d.Some? {
            assert v.fields[k := c][k := d.value] == v.fields[k := d.value];
          }
        }
      }
    }
  }

  /** All paths on one element after the other. */
  function ElemByElem(elems: seq<Json>, ps: seq<Path>, op: Op): Option<seq<Json>> {
    if elems == [] then Some([])
    else
      match ApplyEach(elems[0], ps, op)
      case None => None
      case Some(e) => match ElemByElem(elems[1..], ps, op) case None => None case Some(es) => Some([e] + es)
  }

  lemma {:induction false} ElemByElemIs(elems: seq<Json>, ps: seq<Path>, op: Op)
    ensures ElemByElem(elems, ps, op) == None <==> exists i :: 0 <= i < |elems| && ApplyEach(elems[i], ps, op) == None
    ensures ElemByElem(elems, ps, op).Some? ==> |ElemByElem(elems, ps, op).value| == |elems|
    ensures ElemByElem(elems, ps, op).Some? ==>
      forall i :: 0 <= i < |elems| ==> ApplyEach(elems[i], ps, op) == Some(ElemByElem(elems, ps, op).value[i])
    decreases |elems|
  {
    hide ApplyEach;
    if elems != [] {
      ElemByElemIs(elems[1..], ps, op);
      if ElemByElem(elems, ps, op) == None {
        if ApplyEach(elems[0], ps, op).Some? {
          var i :| 0 <= i < |elems[1..]| && ApplyEach(elems[1..][i], ps, op) == None;
          assert elems[i + 1] == elems[1..][i];
        }
      } else {
        var r := ElemByElem(elems, ps, op).value;
        forall i | 0 <= i < |elems| ensures ApplyEach(elems[i], ps, op) == Some(r[i]) {
          if i > 0 { assert elems[i] == elems[1..][i - 1]; }
        }
      }
    }
  }

  /** Path by path or element by element: the same. */
  lemma ElemStep(elems: seq<Json>, p: Path, ps: seq<Path>, op: Op)
    ensures ElemByElem(elems, [p] + ps, op) ==
      match MapAll(elems, p, op) case None => None case Some(es) => ElemByElem(es, ps, op)
  {
    hide ApplyAt, ApplyEach, MapAll, ElemByElem;
    forall i | 0 <= i < |elems| ensures ApplyEach(elems[i], [p] + ps, op) ==
      match ApplyAt(elems[i], p, op) case None => None case Some(w) => ApplyEach(w, ps, op)
    {
      EachOne(elems[i], p, ps, op);
    }
    MapAllIs(elems, p, op);
    ElemByElemIs(elems, [p] + ps, op);
    var a, b := MapAll(elems, p, op), ElemByElem(elems, [p] + ps, op);
    if a.Some? {
      ElemByElemIs(a.value, ps, op);
      var c := ElemByElem(a.value, ps, op);
      if b.Some? && c.Some? {
        assert b.value == c.value;
      }
    }
  }

  lemma {:induction false} NoPaths(elems: seq<Json>, op: Op)
    ensures ElemByElem(elems, [], op) == Some(elems)
    decreases |elems|
  {
    if elems != [] {
      NoPaths(elems[1..], op);
      assert elems == [elems[0]] + elems[1..];
    }
  }

  lemma UnderEach(v: Json, p: Path, op: Op)
    ensures ApplyAt(v, [Each] + p, op) ==
      if v.Arr? then match MapAll(v.elems, p, op) case None => None case Some(es) => Some(Arr(es)) else Some(v)
  {
    assert ([Each] + p)[1..] == p;
    hide MapAll;
  }

  function Elements(v: Json, ps: seq<Path>, op: Op): Option<Json> {
    if v.Arr? then match ElemByElem(v.elems, ps, op) case None => None case Some(es) => Some(Arr(es)) else Some(v)
  }

  lemma PrefixedCons(step: Step, ps: seq<Path>)
    requires ps != []
    ensures Prefixed(step, ps) == [[step] + ps[0]] + Prefixed(step, ps[1..])
  {
  }

  lemma ElementsStep(v: Json, p: Path, ps: seq<Path>, op: Op)
    ensures Elements(v, [p] + ps, op) ==
      match ApplyAt(v, [Each] + p, op) case None => None case Some(w) => Elements(w, ps, op)
  {
    UnderEach(v, p, op);
    if v.Arr? { ElemStep(v.elems, p, ps, op); }
    hide MapAll, ElemByElem, ApplyAt;
  }

  lemma {:induction false} EachUnderElements(v: Json, ps: seq<Path>, op: Op)
    ensures ApplyEach(v, Prefixed(Each, ps), op) == Elements(v, ps, op)
    decreases |ps|
  {
    if ps == [] {
      if v.Arr? { NoPaths(v.elems, op); }
    } else {
      hide *;
      var p := ps[0];
      PrefixedCons(Each, ps);
      EachOne(v, [Each] + p, Prefixed(Each, ps[1..]), op);
      ElementsStep(v, p, ps[1..], op);
      assert ps == [p] + ps[1..];
      var w := ApplyAt(v, [Each] + p, op);
      if w.Some? {
        EachUnderElements(w.value, ps[1..], op);
      }
    }
  }

  /** One after the other over the marks in collection order, or by recursion over the schema. */
  lemma {:induction false} MarksWalkSchema(s: Schema, v: Json, op: Op)
    requires PlainSchema(s)
    ensures ApplyEach(v, Marks(s), op) == WalkSchema(s, v, op)
    decreases s, 2, 0
  {
    if s.marked {
      assert Marks(s) == [[]];
    } else {
      MarksOfUnmarked(s);
      var items := if s.items.Some? then Prefixed(Each, Marks(s.items.value)) else [];
      EachConcat(v, PropertyMarks(s.properties), items, op);
      PropertiesWalk(s.properties, v, op);
      var w := WalkProperties(s.properties, v, op);
      if w.Some? && s.items.Some? {
        EachUnderElements(w.value, Marks(s.items.value), op);
        if w.value.Arr? {
          ItemsWalk(s.items.value, w.value.elems, op);
        }
      }
      hide Marks, PropertyMarks, ElemByElem, WalkItems, WalkProperties;
    }
  }

  lemma {:induction false} PropertiesWalk(props: seq<Property>, v: Json, op: Op)
    requires PlainProperties(props)
    ensures ApplyEach(v, PropertyMarks(props), op) == WalkProperties(props, v, op)
    decreases props, 0, 0
  {
    if props != [] {
      var p := props[0];
      EachConcat(v, Prefixed(Key(p.name), Marks(p.schema)), PropertyMarks(props[1..]), op);
      EachUnderKey(v, p.name, Marks(p.schema), op);
      if v.Obj? && p.name in v.fields {
        MarksWalkSchema(p.schema, v.fields[p.name], op);
      }
      var w := WalkProperty(p, v, op);
      if w.Some? {
        PropertiesWalk(props[1..], w.value, op);
      }
      hide Marks, WalkSchema;
    }
  }

  lemma {:induction false} ItemsWalk(s: Schema, elems: seq<Json>, op: Op)
    requires PlainSchema(s)
    ensures ElemByElem(elems, Marks(s), op) == WalkItems(s, elems, op)
    decreases s, 3, |elems|
  {
    hide Marks, WalkSchema, ApplyEach, PlainSchema;
    if elems != [] {
      MarksWalkSchema(s, elems[0], op);
      ItemsWalk(s, elems[1..], op);
    }
  }

  // ---------- Protect and Unprotect ----------

  /** Protect: on every exit the data is what the marked paths make of it up to the first error. */
  method Protect(data: Slot, s: Schema, c: Cipher, ghost t: Tree, ghost nodes: set<object>)
    returns (ok: bool, ghost texts: seq<string>, ghost ps: seq<Path>, ghost u: Tree)
    requires SlotOf(t) == data && IsTree(t) && Holds(t) && nodes == Nodes(t)
    modifies nodes
    ensures SlotOf(u) == data && IsTree(u) && Holds(u) && forall x :: x in Nodes(u) ==> x in nodes || fresh(x)
    ensures multiset(texts) == multiset(Collect(s, "")) && Ordered(texts) && Addresses(BelowRoot(texts), ps)
    ensures Result(Value(u), ok) == InOrder(Value(t), ps, Encrypting(c))
    ensures PlainRoot(s) ==> WalkSchema(s, Value(t), Encrypting(c)) == if ok then Some(Value(u)) else None
  {
    hide *;
    var paths := SortedPaths(s);
    texts := paths;
    ps := AddressesExist(paths);
    ok, u := Walk(data, paths, Encrypting(c), ps, t, nodes);
    if PlainRoot(s) {
      PathsWalkSchema(s, paths, ps, Value(t), Encrypting(c));
      InOrderIs(Value(t), ps, Encrypting(c));
    }
  }

  /** Unprotect. */
  method Unprotect(data: Slot, s: Schema, c: Cipher, ghost t: Tree, ghost nodes: set<object>)
    returns (ok: bool, ghost texts: seq<string>, ghost ps: seq<Path>, ghost u: Tree)
    requires SlotOf(t) == data && IsTree(t) && Holds(t) && nodes == Nodes(t)
    modifies nodes
    ensures SlotOf(u) == data && IsTree(u) && Holds(u) && forall x :: x in Nodes(u) ==> x in nodes || fresh(x)
    ensures multiset(texts) == multiset(Collect(s, "")) && Ordered(texts) && Addresses(BelowRoot(texts), ps)
    ensures Result(Value(u), ok) == InOrder(Value(t), ps, Decrypting(c))
    ensures PlainRoot(s) ==> WalkSchema(s, Value(t), Decrypting(c)) == if ok then Some(Value(u)) else None
  {
    hide *;
    var paths := SortedPaths(s);
    texts := paths;
    ps := AddressesExist(paths);
    ok, u := Walk(data, paths, Decrypting(c), ps, t, nodes);
    if PlainRoot(s) {
      PathsWalkSchema(s, paths, ps, Value(t), Decrypting(c));
      InOrderIs(Value(t), ps, Decrypting(c));
    }
  }

  /** Every mark that survives is addressed by its text, and by no other. */
  lemma RootMarkAddresses(s: Schema, i: nat)
    requires MarksSurvive(s) && i < |Marks(s)|
    ensures Print("", Marks(s)[i]) != ""
    ensures forall p :: AddressesOne(Print("", Marks(s)[i]), p) ==> p == Marks(s)[i]
  {
    hide AddressesOne;
    AddressesItselfExactlyWhen(Marks(s)[i]);
    TextIsNotEmpty(Print("", Marks(s)[i]), Marks(s)[i]);
  }

  lemma TextIsNotEmpty(text: string, p: Path)
    requires AddressesOne(text, p)
    ensures text != ""
  {
  }

  /** The first text was printed for one of the marks, and addresses that one. */
  lemma FirstMark(s: Schema, texts: seq<string>, p: Path, marks: seq<Path>) returns (i: nat)
    requires MarksSurvive(s) && (forall m :: m in marks ==> m in Marks(s))
      && multiset(texts) == multiset(PrintAll("", marks))
    requires texts != [] && (texts[0] != "" ==> AddressesOne(texts[0], p))
    ensures i < |marks| && texts[0] == Print("", marks[i]) && texts[0] != "" && p == marks[i]
  {
    hide Print, MarksSurvive, Marks, AddressesOne;
    assert texts[0] in multiset(texts);
    assert texts[0] in PrintAll("", marks);
    i :| 0 <= i < |marks| && PrintAll("", marks)[i] == texts[0];
    assert marks[i] in Marks(s);
    var k :| 0 <= k < |Marks(s)| && Marks(s)[k] == marks[i];
    RootMarkAddresses(s, k);
  }

  lemma PutBack(p: Path, rest: seq<Path>, before: seq<Path>, after: seq<Path>)
    requires multiset(rest) == multiset(before + after)
    ensures multiset([p] + rest) == multiset(before + [p] + after)
  {
    assert multiset(before + [p] + after) == multiset(before) + multiset{p} + multiset(after);
    assert multiset(before + after) == multiset(before) + multiset(after);
    assert multiset([p] + rest) == multiset{p} + multiset(rest);
  }

  /** The sorted texts address the marks, in some order. */
  lemma {:induction false} TextsAddressMarks(s: Schema, texts: seq<string>, ps: seq<Path>, marks: seq<Path>)
    requires MarksSurvive(s) && (forall m :: m in marks ==> m in Marks(s))
      && multiset(texts) == multiset(PrintAll("", marks))
    requires Addresses(BelowRoot(texts), ps)
    ensures multiset(ps) == multiset(marks)
    decreases |texts|
  {
    hide MarksSurvive, Marks, AddressesOne, Addresses, BelowRoot, PrintAll;
    if texts == [] {
      NoTexts(ps, marks);
    } else {
      if texts[0] != "" {
        AddressesTail(texts, ps);
      }
      var i := FirstMark(s, texts, if ps == [] then [] else ps[0], marks);
      var before, after := marks[..i], marks[i + 1..];
      RemovePrinted(texts, marks, i);
      forall m | m in before + after ensures m in Marks(s) { assert m in marks; }
      TextsAddressMarks(s, texts[1..], ps[1..], before + after);
      PutBack(ps[0], ps[1..], before, after);
      assert ps == [ps[0]] + ps[1..] && marks == before + [marks[i]] + after;
    }
  }

  lemma NoTexts(ps: seq<Path>, marks: seq<Path>)
    requires multiset([]) == multiset(PrintAll("", marks)) && Addresses(BelowRoot([]), ps)
    ensures ps == [] && marks == []
  {
    assert |multiset(PrintAll("", marks))| == 0;
  }

  lemma RemovePrinted(texts: seq<string>, marks: seq<Path>, i: nat)
    requires texts != [] && i < |marks| && texts[0] == Print("", marks[i])
      && multiset(texts) == multiset(PrintAll("", marks))
    ensures multiset(texts[1..]) == multiset(PrintAll("", marks[..i] + marks[i + 1..]))
  {
    hide Print;
    var a, b := marks[..i], marks[i + 1..];
    assert marks == a + [marks[i]] + b;
    PrintConcat("", a + [marks[i]], b);
    PrintConcat("", a, [marks[i]]);
    PrintConcat("", a, b);
    assert PrintAll("", [marks[i]]) == [texts[0]];
    assert texts == [texts[0]] + texts[1..];
    assert multiset(texts[1..]) == multiset(texts) - multiset{texts[0]};
  }

  /** For plain schemas the walk over the sorted, printed and parsed paths is the recursion over the schema. */
  lemma PathsWalkSchema(s: Schema, texts: seq<string>, ps: seq<Path>, v: Json, op: Op)
    requires PlainRoot(s) && multiset(texts) == multiset(Collect(s, "")) && Addresses(BelowRoot(texts), ps)
    ensures ApplyEach(v, ps, op) == WalkSchema(s, v, op)
    ensures Diverging(ps)
  {
    CollectPrints(s, "");
    TextsAddressMarks(s, texts, ps, Marks(s));
    MarksDiverge(s);
    AnyOrder(v, Marks(s), ps, op);
    MarksWalkSchema(s, v, op);
    PermutedDiverge(Marks(s), ps);
  }

  /** Diverging is symmetric, so it survives any order. */
  lemma PermutedDiverge(ps: seq<Path>, qs: seq<Path>)
    requires Diverging(ps) && multiset(ps) == multiset(qs)
    ensures Diverging(qs)
  {
    hide Diverge;
    forall i, j | 0 <= i < j < |qs| ensures Diverge(qs[i], qs[j]) {
      PairDiverges(ps, qs, i, j);
    }
  }

  lemma {:induction false} PairDiverges(ps: seq<Path>, qs: seq<Path>, i: nat, j: nat)
    requires Diverging(ps) && multiset(ps) == multiset(qs) && i < j < |qs|
    ensures Diverge(qs[i], qs[j])
    decreases |ps|
  {
    hide Diverge, Diverging;
    var p, rest := ps[0], ps[1..];
    assert ps == [p] + rest;
    assert p in multiset(ps);
    var k := IndexOf(qs, p);
    var before, after := qs[..k], qs[k + 1..];
    assert qs == before + [p] + after;
    Remaining(p, rest, before, after);
    OthersDiverge(ps, before + after);
    var others := before + after;
    if k == i {
      assert others[j - 1] == qs[j];
    } else if k == j {
      assert others[i] == qs[i];
      DivergeIsSymmetric(p, qs[i]);
    } else {
      TailDiverges(ps);
      var a, b := if i < k then i else i - 1, if j < k then j else j - 1;
      assert others[a] == qs[i] && others[b] == qs[j];
      PairDiverges(rest, others, a, b);
    }
  }

  lemma DecryptingUndoes(c: Cipher)
    requires Inverts(c)
    ensures Undoes(Decrypting(c), Encrypting(c))
  {
    forall v | Encrypting(c)(v).Some? ensures Decrypting(c)(Encrypting(c)(v).value) == Some(v) {
      assert Encrypted(c, v).Some?;
    }
  }

  /** Unprotect after Protect gives the data back, for paths none of which lies inside another. */
  lemma UnprotectUndoesProtect(c: Cipher, v: Json, ps: seq<Path>)
    requires Inverts(c) && Diverging(ps) && ApplyEach(v, ps, Encrypting(c)).Some?
    ensures ApplyEach(ApplyEach(v, ps, Encrypting(c)).value, ps, Decrypting(c)) == Some(v)
  {
    DecryptingUndoes(c);
    CancelEach(v, ps, Encrypting(c), Decrypting(c));
  }

  /** And so for every plain schema, by recursion over it. */
  lemma SchemaRoundTrip(c: Cipher, s: Schema, v: Json)
    requires Inverts(c) && PlainRoot(s) && WalkSchema(s, v, Encrypting(c)).Some?
    ensures WalkSchema(s, WalkSchema(s, v, Encrypting(c)).value, Decrypting(c)) == Some(v)
  {
    MarksDiverge(s);
    MarksWalkSchema(s, v, Encrypting(c));
    UnprotectUndoesProtect(c, v, Marks(s));
    MarksWalkSchema(s, WalkSchema(s, v, Encrypting(c)).value, Decrypting(c));
  }

  /** Nothing off the paths changes, whether or not there is an error. */
  lemma {:induction false} OnlyMarkedChanges(v: Json, ps: seq<Path>, op: Op, at: seq<Place>)
    requires forall i :: 0 <= i < |ps| ==> Off(ps[i], at)
    ensures At(InOrder(v, ps, op).left, at) == At(v, at)
    decreases |ps|
  {
    hide Into, Off, At;
    if ps != [] {
      OffIsUnchanged(v, ps[0], op, at);
      OnlyMarkedChanges(Into(v, ps[0], op).left, ps[1..], op, at);
    }
  }

  /** A marked value is encrypted, or, only after an error, still as it was: never anything else. */
  lemma {:induction false} MarkedIsOldOrNew(v: Json, ps: seq<Path>, i: nat, op: Op, at: seq<Place>)
    requires Diverging(ps) && i < |ps| && On(ps[i], at)
    ensures IsOldOrNew(At(v, at), At(InOrder(v, ps, op).left, at), InOrder(v, ps, op).ok, op)
    decreases |ps|
  {
    hide Into, Off, On, At, Diverge;
    var first := Into(v, ps[0], op);
    if i == 0 {
      OldOrNew(v, ps[0], op, at);
      forall j | 0 <= j < |ps[1..]| ensures Off(ps[1..][j], at) {
        DivergeIsSymmetric(ps[0], ps[j + 1]);
        OnIsOff(ps[j + 1], ps[0], at);
      }
      OnlyMarkedChanges(first.left, ps[1..], op, at);
    } else {
      OnIsOff(ps[0], ps[i], at);
      OffIsUnchanged(v, ps[0], op, at);
      TailDiverges(ps);
      if first.ok {
        MarkedIsOldOrNew(first.left, ps[1..], i - 1, op, at);
      }
    }
  }

  // ---------- Where the round trip ends ----------

  /** The paths of sorted texts, whatever the schema: an outer one comes before those inside it. */
  lemma SortedIsOuterFirst(texts: seq<string>, ps: seq<Path>)
    requires Ordered(texts) && Addresses(texts, ps)
    ensures OuterFirst(ps)
  {
    hide AddressesOne, Diverge, Leq;
    forall i, j | 0 <= i < j < |ps| ensures Diverge(ps[i], ps[j]) || ps[i] <= ps[j] {
      AddressedText(texts[i], ps[i]);
      AddressedText(texts[j], ps[j]);
      if ps[j] < ps[i] {
        PrefixPrints(ps[j], ps[i]);
        PrefixIsLess(texts[j], texts[i]);
        assert false;
      } else {
        PrefixOrDiverge(ps[i], ps[j]);
      }
    }
  }

  lemma {:induction false} PrefixOrDiverge(p: Path, q: Path)
    ensures p == q || p < q || q < p || Diverge(p, q)
    decreases |p|
  {
    if p != [] && q != [] && p[0] == q[0] {
      PrefixOrDiverge(p[1..], q[1..]);
      assert p == [p[0]] + p[1..] && q == [q[0]] + q[1..];
    }
  }

  lemma {:induction false} PrefixIsLess(a: string, b: string)
    requires a < b
    ensures !Leq(b, a)
    decreases |a|
  {
    if a != "" {
      PrefixIsLess(a[1..], b[1..]);
    }
  }

  lemma {:induction false} BelowRootKeeps(texts: seq<string>)
    requires Ordered(texts)
    ensures Ordered(BelowRoot(texts))
    ensures forall i :: 0 <= i < |BelowRoot(texts)| ==> BelowRoot(texts)[i] in texts
    decreases |texts|
  {
    hide Leq, Ordered;
    if texts == [] {
      NoTextsAbove();
    } else {
      TailKeeps(texts);
      BelowRootKeeps(texts[1..]);
      var rest := BelowRoot(texts[1..]);
      if texts[0] != "" {
        forall i | 0 <= i < |rest| ensures Leq(texts[0], rest[i]) { assert rest[i] in texts[1..]; }
        ConsKeeps(texts[0], rest);
      }
      assert [] + rest == rest;
    }
  }

  lemma NoTextsAbove()
    ensures Ordered([])
  {
  }

  lemma TailKeeps(texts: seq<string>)
    requires texts != [] && Ordered(texts)
    ensures Ordered(texts[1..]) && forall x :: x in texts[1..] ==> Leq(texts[0], x)
  {
    hide Leq;
    var rest := texts[1..];
    forall i, j | 0 <= i < j < |rest| ensures Leq(rest[i], rest[j]) {
      assert rest[i] == texts[i + 1] && rest[j] == texts[j + 1];
    }
    forall x | x in rest ensures Leq(texts[0], x) {
      var i :| 0 <= i < |rest| && rest[i] == x;
      assert texts[i + 1] == x;
    }
  }

  lemma ConsKeeps(x: string, rest: seq<string>)
    requires Ordered(rest) && forall i :: 0 <= i < |rest| ==> Leq(x, rest[i])
    ensures Ordered([x] + rest)
  {
    hide Leq;
    var all := [x] + rest;
    forall i, j | 0 <= i < j < |all| ensures Leq(all[i], all[j]) {
      assert all[j] == rest[j - 1];
      if i > 0 { assert all[i] == rest[i - 1]; }
    }
  }

  /** The paths a walk over the schema applies. */
  ghost predicate IsWalked(s: Schema, ps: seq<Path>) {
    exists texts :: multiset(texts) == multiset(Collect(s, "")) && Ordered(texts) && Addresses(BelowRoot(texts), ps)
  }

  lemma WalkedIsOuterFirst(s: Schema, ps: seq<Path>)
    requires IsWalked(s, ps)
    ensures OuterFirst(ps)
  {
    var texts :| multiset(texts) == multiset(Collect(s, "")) && Ordered(texts) && Addresses(BelowRoot(texts), ps);
    BelowRootKeeps(texts);
    SortedIsOuterFirst(BelowRoot(texts), ps);
  }

  lemma CipherSeals(c: Cipher)
    ensures Seals(Encrypting(c)) && OnlyStrings(Decrypting(c))
  {
    forall v | Encrypting(c)(v).Some? ensures Encrypting(c)(v).value.Str? { assert Encrypted(c, v).value.Str?; }
  }

  /** Marks inside marks, as many and as deep as there are: Protect encrypts the outermost ones, and Unprotect,
      after it has undone that, decrypts the clear values at the inner ones. */
  lemma NestedMarksRoundTrip(c: Cipher, s: Schema, v: Json, ps: seq<Path>)
    requires Inverts(c) && IsWalked(s, ps)
    ensures ApplyEach(v, ps, Encrypting(c)) == ApplyEach(v, Outer(ps), Encrypting(c))
    ensures ApplyEach(v, ps, Encrypting(c)).Some? ==>
      ApplyEach(ApplyEach(v, ps, Encrypting(c)).value, ps, Decrypting(c)) == ApplyEach(v, Inner(ps), Decrypting(c))
  {
    WalkedIsOuterFirst(s, ps);
    CipherSeals(c);
    DecryptingUndoes(c);
    SealingIsOuter(v, ps, Encrypting(c));
    hide *;
    if ApplyEach(v, ps, Encrypting(c)).Some? {
      UndoingIsInner(v, ps, Encrypting(c), Decrypting(c));
    }
  }

  /** So the data comes back exactly when no string stands at an inner position of the clear data, except one that
      comes back from being decrypted as often as the schema lists its mark. */
  lemma NestedMarksComeBackExactlyWhen(c: Cipher, s: Schema, v: Json, ps: seq<Path>)
    requires Inverts(c) && IsWalked(s, ps) && ApplyEach(v, ps, Encrypting(c)).Some?
    ensures ApplyEach(ApplyEach(v, ps, Encrypting(c)).value, ps, Decrypting(c)) == Some(v) <==>
      forall p :: p in Inner(ps) ==> IsSafe(c, v, p, Times(ps, p))
  {
    WalkedIsOuterFirst(s, ps);
    NestedMarksRoundTrip(c, s, v, ps);
    CipherSeals(c);
    InnerOrdered(ps);
    AllLeaveAloneExactlyWhen(v, Inner(ps), Decrypting(c));
    hide *;
    forall p | p in Inner(ps)
      ensures Clear(v, p, Repeat(Decrypting(c), Times(Inner(ps), p))) <==> IsSafe(c, v, p, Times(ps, p))
    {
      InnerCounts(ps, p);
      SafeIsClear(c, v, p, Times(ps, p));
    }
  }

  /** Every string the path addresses comes back from being decrypted n times. */
  ghost predicate IsSafe(c: Cipher, v: Json, p: Path, n: nat) {
    forall at :: On(p, at) && At(v, at).Some? && At(v, at).value.Str? ==>
      Repeated(Decrypting(c), n, At(v, at).value) == At(v, at)
  }

  lemma SafeIsClear(c: Cipher, v: Json, p: Path, n: nat)
    ensures Clear(v, p, Repeat(Decrypting(c), n)) <==> IsSafe(c, v, p, n)
  {
    var op := Repeat(Decrypting(c), n);
    ClearIs(v, p, op);
    forall at
      ensures IsClearAt(v, at, op) <==>
        (At(v, at).Some? && At(v, at).value.Str? ==> Repeated(Decrypting(c), n, At(v, at).value) == At(v, at))
    {
    }
    hide Repeated, Clear, At, On;
  }

  /** A clear string inside a marked object: Unprotect fails on what Protect made. */
  lemma NestedMarksLoseData(c: Cipher, clear: string)
    requires Inverts(c) && c.decrypt(clear) == None
    requires c.encrypt(Obj(map["b" := Str(clear)])).Some?
    ensures var v := Obj(map["a" := Obj(map["b" := Str(clear)])]);
      var ps := [[Key("a")], [Key("a"), Key("b")]];
      && ApplyEach(v, ps, Encrypting(c)).Some?
      && ApplyEach(ApplyEach(v, ps, Encrypting(c)).value, ps, Decrypting(c)) == None
  {
    var inner := Obj(map["b" := Str(clear)]);
    var v := Obj(map["a" := inner]);
    var p, q := [Key("a")], [Key("a"), Key("b")];
    var ps := [p, q];
    assert p < q && p[1..] == [] && q[1..] == [Key("b")] && q[1..][1..] == [] && ps[1..] == [q];
    assert ApplyAt(inner, [], Encrypting(c)) == Encrypted(c, inner);
    assert ApplyAt(Str(clear), [], Decrypting(c)) == None;
    assert ApplyAt(inner, q[1..], Decrypting(c)) == None;
    assert ApplyAt(v, q, Decrypting(c)) == None;
    TwoPaths(p, q);
    CipherSeals(c);
    DecryptingUndoes(c);
    SealingIsOuter(v, ps, Encrypting(c));
    EachOne(v, p, [], Encrypting(c));
    EachOne(v, q, [], Decrypting(c));
    assert [p] + [] == [p] && [q] + [] == [q];
    hide ApplyAt, Outer, Inner;
    UndoingIsInner(v, ps, Encrypting(c), Decrypting(c));
  }

  lemma TwoPaths(p: Path, q: Path)
    requires p < q
    ensures OuterFirst([p, q]) && Outer([p, q]) == [p] && Inner([p, q]) == [q]
  {
    OneInside(p, q);
    OuterCons([p, q]);
    assert [p, q][1..] == [q] && [p] + [] == [p] && [] + [q] == [q];
    hide Outer, Inner, Apart, Within, Diverge;
  }

  lemma OneInside(p: Path, q: Path)
    requires p < q
    ensures Apart([q], p) == [] && Within([q], p) == [q] && Outer([]) == [] && Inner([]) == []
  {
    FiltersCons([q], p);
    assert [q][1..] == [] && [q] + [] == [q];
  }

  /** A mark in an array of arrays is printed with two brackets and parsed as a field of another name. */
  lemma NestedArraysAreNotAddressed(k: string, parts: seq<string>)
    requires !HasDot(k) && IsSplit(Print("", [Key(k), Each, Each]), parts)
    ensures StepsOf(SegmentsOf(parts)) == [Key(k + "[]"), Each]
  {
    var p := [Key(k), Each, Each];
    assert p[1..] == [Each, Each] && p[1..][1..] == [Each] && [Each][1..] == [];
    var text := k + "[]" + "[]";
    assert Print(k + "[]", [Each]) == text;
    assert Print(k, [Each, Each]) == text;
    assert Print("", p) == text;
    assert !HasDot(text);
    JoinIsInjective(parts, [text]);
    assert text[|text| - 2..] == "[]" && text[..|text| - 2] == k + "[]";
    StepsOfCons(text, []);
    assert [text] + [] == [text];
  }
}
