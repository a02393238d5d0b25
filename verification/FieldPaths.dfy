/**
  The data tree and what a path addresses in it: operations at diverging paths commute, an operation and its
  inverse at the same paths cancel, and nothing off the paths changes.
 */
module FieldPaths {
  import opened Wrappers

  datatype Json = Null | Bool(b: bool) | Number(text: string) | Str(s: string) | Arr(elems: seq<Json>)
      | Obj(fields: map<string, Json>)

  /** One step down: into a field, or into every element of an array. */
  datatype Step = Key(name: string) | Each

  type Path = seq<Step>

  /** What is done to a value: None is an error, and leaving it alone is Some of itself. */
  type Op = Json -> Option<Json>

  /** op on every element, in order; the first error ends it. */
  function MapAll(elems: seq<Json>, p: Path, op: Op): Option<seq<Json>>
    decreases |p|, |elems| + 1
  {
    if elems == [] then Some([])
    else
      match ApplyAt(elems[0], p, op)
      case None => None
      case Some(e) => match MapAll(elems[1..], p, op) case None => None case Some(es) => Some([e] + es)
  }

  /** op on everything the path addresses in v; what the path does not find is left alone. */
  function ApplyAt(v: Json, p: Path, op: Op): Option<Json>
    decreases |p|, 0
  {
    if p == [] then op(v)
    else
      match p[0]
      case Key(k) =>
        if v.Obj? && k in v.fields then
          match ApplyAt(v.fields[k], p[1..], op) case None => None case Some(c) => Some(Obj(v.fields[k := c]))
        else Some(v)
      case Each =>
        if v.Arr? then match MapAll(v.elems, p[1..], op) case None => None case Some(es) => Some(Arr(es)) else Some(v)
  }

  lemma {:induction false} MapAllIs(elems: seq<Json>, p: Path, op: Op)
    ensures MapAll(elems, p, op) == None <==> exists i :: 0 <= i < |elems| && ApplyAt(elems[i], p, op) == None
    ensures MapAll(elems, p, op).Some? ==> |MapAll(elems, p, op).value| == |elems|
    ensures MapAll(elems, p, op).Some? ==>
      forall i :: 0 <= i < |elems| ==> ApplyAt(elems[i], p, op) == Some(MapAll(elems, p, op).value[i])
    decreases |elems|
  {
    hide ApplyAt;
    if elems != [] {
      MapAllIs(elems[1..], p, op);
      if MapAll(elems, p, op) == None {
        if ApplyAt(elems[0], p, op).Some? {
          var i :| 0 <= i < |elems[1..]| && ApplyAt(elems[1..][i], p, op) == None;
          assert elems[i + 1] == elems[1..][i];
        }
      } else {
        var r := MapAll(elems, p, op).value;
        forall i | 0 <= i < |elems| ensures ApplyAt(elems[i], p, op) == Some(r[i]) {
          if i > 0 { assert elems[i] == elems[1..][i - 1]; }
        }
      }
    }
  }

  /** Neither path is a prefix of the other. */
  predicate Diverge(p: Path, q: Path) { p != [] && q != [] && (p[0] != q[0] || Diverge(p[1..], q[1..])) }

  lemma {:induction false} DivergeIsSymmetric(p: Path, q: Path)
    ensures Diverge(p, q) == Diverge(q, p)
  {
    if p != [] && q != [] { DivergeIsSymmetric(p[1..], q[1..]); }
  }

  function Then(v: Option<Json>, p: Path, op: Op): Option<Json> {
    match v case None => None case Some(w) => ApplyAt(w, p, op)
  }

  // ---------- Diverging paths commute ----------

  /** Two paths into the same array: element by element. */
  lemma MapAllCommutes(elems: seq<Json>, p: Path, f: Op, q: Path, g: Op)
    requires forall i :: 0 <= i < |elems| ==> Then(ApplyAt(elems[i], p, f), q, g) == Then(ApplyAt(elems[i], q, g), p, f)
    ensures (match MapAll(elems, p, f) case None => None case Some(es) => MapAll(es, q, g))
         == (match MapAll(elems, q, g) case None => None case Some(es) => MapAll(es, p, f))
  {
    hide ApplyAt, MapAll;
    MapAllIs(elems, p, f);
    MapAllIs(elems, q, g);
    var a, b := MapAll(elems, p, f), MapAll(elems, q, g);
    if a.Some? { MapAllIs(a.value, q, g); }
    if b.Some? { MapAllIs(b.value, p, f); }
    if a.Some? && b.Some? {
      forall i | 0 <= i < |elems| ensures ApplyAt(a.value[i], q, g) == ApplyAt(b.value[i], p, f) {
        assert Then(ApplyAt(elems[i], p, f), q, g) == Then(ApplyAt(elems[i], q, g), p, f);
      }
      var c, d := MapAll(a.value, q, g), MapAll(b.value, p, f);
      if c.Some? && d.Some? {
        assert c.value == d.value;
      }
    } else if a.Some? {
      var i :| 0 <= i < |elems| && ApplyAt(elems[i], q, g) == None;
      assert Then(ApplyAt(elems[i], p, f), q, g) == None;
    } else if b.Some? {
      var i :| 0 <= i < |elems| && ApplyAt(elems[i], p, f) == None;
      assert Then(ApplyAt(elems[i], q, g), p, f) == None;
    }
  }

  lemma KeyTwice(m: map<string, Json>, k: string, p: Path, f: Op, q: Path, g: Op)
    requires k in m
    ensures Then(ApplyAt(Obj(m), [Key(k)] + p, f), [Key(k)] + q, g) ==
      match Then(ApplyAt(m[k], p, f), q, g) case None => None case Some(c) => Some(Obj(m[k := c]))
  {
    assert ([Key(k)] + p)[1..] == p && ([Key(k)] + q)[1..] == q;
    var x := ApplyAt(m[k], p, f);
    if x.Some? {
      var y := ApplyAt(x.value, q, g);
      if y.Some? {
        assert m[k := x.value][k := y.value] == m[k := y.value];
      }
    }
  }

  lemma {:induction false} Commute(v: Json, p: Path, f: Op, q: Path, g: Op)
    requires Diverge(p, q)
    ensures Then(ApplyAt(v, p, f), q, g) == Then(ApplyAt(v, q, g), p, f)
    decreases |p|
  {
    if p[0] == q[0] {
      match p[0]
      case Key(k) =>
        if v.Obj? && k in v.fields {
          Commute(v.fields[k], p[1..], f, q[1..], g);
          assert p == [Key(k)] + p[1..] && q == [Key(k)] + q[1..];
          KeyTwice(v.fields, k, p[1..], f, q[1..], g);
          KeyTwice(v.fields, k, q[1..], g, p[1..], f);
        }
      case Each =>
        if v.Arr? {
          forall i | 0 <= i < |v.elems|
            ensures Then(ApplyAt(v.elems[i], p[1..], f), q[1..], g) == Then(ApplyAt(v.elems[i], q[1..], g), p[1..], f)
          {
            Commute(v.elems[i], p[1..], f, q[1..], g);
          }
          MapAllCommutes(v.elems, p[1..], f, q[1..], g);
        }
    } else if p[0].Key? && q[0].Key? {
      KeysCommute(v, p, f, q, g);
    }
  }

  lemma KeysCommute(v: Json, p: Path, f: Op, q: Path, g: Op)
    requires p != [] && q != [] && p[0].Key? && q[0].Key? && p[0] != q[0]
    ensures Then(ApplyAt(v, p, f), q, g) == Then(ApplyAt(v, q, g), p, f)
  {
    var a, b := p[0].name, q[0].name;
    if v.Obj? && a in v.fields && b in v.fields {
      var x, y := ApplyAt(v.fields[a], p[1..], f), ApplyAt(v.fields[b], q[1..], g);
      if x.Some? && y.Some? {
        assert v.fields[a := x.value][b := y.value] == v.fields[b := y.value][a := x.value];
      }
    }
  }

  // ---------- An operation and its inverse cancel ----------

  /** g undoes f. */
  ghost predicate Undoes(g: Op, f: Op) { forall v :: f(v).Some? ==> g(f(v).value) == Some(v) }

  lemma {:induction false} CancelAt(v: Json, p: Path, f: Op, g: Op)
    requires Undoes(g, f) && ApplyAt(v, p, f).Some?
    ensures ApplyAt(ApplyAt(v, p, f).value, p, g) == Some(v)
    decreases |p|, 0
  {
    if p != [] {
      match p[0]
      case Key(k) =>
        if v.Obj? && k in v.fields {
          CancelAt(v.fields[k], p[1..], f, g);
          var c := ApplyAt(v.fields[k], p[1..], f).value;
          assert v.fields[k := c][k := v.fields[k]] == v.fields;
        }
      case Each =>
        if v.Arr? {
          CancelAll(v.elems, p[1..], f, g);
        }
    }
  }

  lemma CancelAll(elems: seq<Json>, p: Path, f: Op, g: Op)
    requires Undoes(g, f) && MapAll(elems, p, f).Some?
    ensures MapAll(MapAll(elems, p, f).value, p, g) == Some(elems)
    decreases |p|, 1
  {
    MapAllIs(elems, p, f);
    var es := MapAll(elems, p, f).value;
    MapAllIs(es, p, g);
    forall i | 0 <= i < |elems| ensures ApplyAt(es[i], p, g) == Some(elems[i]) {
      CancelAt(elems[i], p, f, g);
    }
    hide ApplyAt, MapAll;
    assert MapAll(es, p, g).value == elems;
  }

  // ---------- In place ----------

  /** What is there afterwards, and whether there was no error. */
  datatype Result<T> = Result(left: T, ok: bool)

  /** op in place on every element, in order; the first error ends it and leaves the rest as it was. */
  function IntoAll(elems: seq<Json>, p: Path, op: Op): Result<seq<Json>>
    decreases |p|, |elems| + 1
  {
    if elems == [] then Result([], true)
    else
      var first := Into(elems[0], p, op);
      if !first.ok then Result([first.left] + elems[1..], false)
      else var rest := IntoAll(elems[1..], p, op); Result([first.left] + rest.left, rest.ok)
  }

  /** op in place on everything the path addresses in v. */
  function Into(v: Json, p: Path, op: Op): Result<Json>
    decreases |p|, 0
  {
    if p == [] then match op(v) case None => Result(v, false) case Some(w) => Result(w, true)
    else
      match p[0]
      case Key(k) =>
        if v.Obj? && k in v.fields then
          var c := Into(v.fields[k], p[1..], op); Result(Obj(v.fields[k := c.left]), c.ok)
        else Result(v, true)
      case Each =>
        if v.Arr? then var es := IntoAll(v.elems, p[1..], op); Result(Arr(es.left), es.ok) else Result(v, true)
  }

  /** Without an error the value is the transformed one, and there is an error exactly when that has one. */
  lemma {:induction false} IntoIs(v: Json, p: Path, op: Op)
    ensures ApplyAt(v, p, op) == if Into(v, p, op).ok then Some(Into(v, p, op).left) else None
    decreases |p|, 0
  {
    if p != [] {
      match p[0]
      case Key(k) =>
        if v.Obj? && k in v.fields { IntoIs(v.fields[k], p[1..], op); }
      case Each =>
        if v.Arr? { IntoAllIs(v.elems, p[1..], op); }
    }
  }

  lemma {:induction false} IntoAllIs(elems: seq<Json>, p: Path, op: Op)
    ensures MapAll(elems, p, op) == if IntoAll(elems, p, op).ok then Some(IntoAll(elems, p, op).left) else None
    decreases |p|, |elems| + 1
  {
    if elems != [] {
      IntoIs(elems[0], p, op);
      IntoAllIs(elems[1..], p, op);
    }
  }

  // ---------- Off the path ----------

  /** A position in one tree. */
  datatype Place = Field(name: string) | Elem(index: nat)

  /** The value at a position, if there is one. */
  function At(v: Json, at: seq<Place>): Option<Json> {
    if at == [] then Some(v)
    else
      match at[0]
      case Field(k) => if v.Obj? && k in v.fields then At(v.fields[k], at[1..]) else None
      case Elem(i) => if v.Arr? && i < |v.elems| then At(v.elems[i], at[1..]) else None
  }

  /** The position leaves the path before either ends. */
  predicate Off(p: Path, at: seq<Place>) {
    p != [] && at != [] &&
    match p[0]
    case Key(k) => at[0] != Field(k) || Off(p[1..], at[1..])
    case Each => at[0].Field? || Off(p[1..], at[1..])
  }

  lemma {:induction false} IntoAllAt(elems: seq<Json>, p: Path, op: Op, i: nat)
    ensures |IntoAll(elems, p, op).left| == |elems|
    ensures i < |elems| ==>
      || IntoAll(elems, p, op).left[i] == Into(elems[i], p, op).left
      || (!IntoAll(elems, p, op).ok && IntoAll(elems, p, op).left[i] == elems[i])
    decreases |elems|
  {
    hide Into;
    if elems != [] {
      IntoAllAt(elems[1..], p, op, if i == 0 then 0 else i - 1);
    }
  }

  /** Nothing off the path changes, whether or not there is an error. */
  lemma {:induction false} OffIsUnchanged(v: Json, p: Path, op: Op, at: seq<Place>)
    requires Off(p, at)
    ensures At(Into(v, p, op).left, at) == At(v, at)
    decreases |p|
  {
    match p[0]
    case Key(k) =>
      if v.Obj? && k in v.fields && at[0] == Field(k) {
        OffIsUnchanged(v.fields[k], p[1..], op, at[1..]);
      }
    case Each =>
      if v.Arr? && at[0].Elem? {
        IntoAllAt(v.elems, p[1..], op, at[0].index);
        if at[0].index < |v.elems| {
          OffIsUnchanged(v.elems[at[0].index], p[1..], op, at[1..]);
        }
      }
  }

  /** The position is one the path addresses. */
  predicate On(p: Path, at: seq<Place>) {
    if p == [] then at == []
    else at != [] && On(p[1..], at[1..]) && match p[0] case Key(k) => at[0] == Field(k) case Each => at[0].Elem?
  }

  lemma {:induction false} OnIsOff(p: Path, q: Path, at: seq<Place>)
    requires Diverge(p, q) && On(q, at)
    ensures Off(p, at)
    decreases |p|
  {
    if p[0] == q[0] {
      OnIsOff(p[1..], q[1..], at[1..]);
    }
  }

  /** An addressed position is done, or, only after an error, as it was. */
  lemma {:induction false} OldOrNew(v: Json, p: Path, op: Op, at: seq<Place>)
    requires On(p, at)
    ensures IsOldOrNew(At(v, at), At(Into(v, p, op).left, at), Into(v, p, op).ok, op)
    decreases |p|
  {
    if p != [] {
      match p[0]
      case Key(k) =>
        if v.Obj? && k in v.fields {
          OldOrNew(v.fields[k], p[1..], op, at[1..]);
        }
      case Each =>
        if v.Arr? {
          IntoAllAt(v.elems, p[1..], op, at[0].index);
          if at[0].index < |v.elems| {
            OldOrNew(v.elems[at[0].index], p[1..], op, at[1..]);
            if Into(v, p, op).ok {
              IntoAllOk(v.elems, p[1..], op, at[0].index);
            }
          }
        }
    }
  }

  /** An addressed value for which the operation is an error. */
  predicate FailsAt(v: Json, p: Path, op: Op, at: seq<Place>) {
    On(p, at) && At(v, at).Some? && op(At(v, at).value) == None
  }

  lemma FailsBelow(v: Json, p: Path, op: Op, place: Place, at: seq<Place>)
    requires p != [] && On([p[0]], [place]) && At(v, [place]).Some?
    ensures FailsAt(v, p, op, [place] + at) <==> FailsAt(At(v, [place]).value, p[1..], op, at)
  {
    assert ([place] + at)[1..] == at;
    assert At(v, [place] + at) == At(At(v, [place]).value, at);
  }

  /** There is an error exactly when there is one at some value the path addresses. */
  lemma {:induction false} FailsExactlyWhen(v: Json, p: Path, op: Op)
    ensures ApplyAt(v, p, op) == None <==> exists at :: FailsAt(v, p, op, at)
    decreases |p|
  {
    if p == [] {
      assert FailsAt(v, p, op, []) <==> op(v) == None;
    } else {
      match p[0]
      case Key(k) =>
        if v.Obj? && k in v.fields {
          FailsExactlyWhen(v.fields[k], p[1..], op);
          FailsThrough(v, p, op, Field(k));
        }
      case Each =>
        if v.Arr? { AnyFails(v, p, op); }
    }
  }

  /** Where the path goes through one place of the value, it fails there or nowhere. */
  lemma FailsThrough(v: Json, p: Path, op: Op, place: Place)
    requires p != [] && On([p[0]], [place]) && At(v, [place]).Some? && place.Field?
    ensures (exists at :: FailsAt(v, p, op, at)) <==> (exists at :: FailsAt(At(v, [place]).value, p[1..], op, at))
  {
    if at: seq<Place> :| FailsAt(v, p, op, at) {
      assert at == [place] + at[1..];
      FailsBelow(v, p, op, place, at[1..]);
    }
    if at: seq<Place> :| FailsAt(At(v, [place]).value, p[1..], op, at) {
      FailsBelow(v, p, op, place, at);
    }
  }

  lemma {:induction false} AnyFails(v: Json, p: Path, op: Op)
    requires p != [] && p[0].Each? && v.Arr?
    ensures MapAll(v.elems, p[1..], op) == None <==> exists at :: FailsAt(v, p, op, at)
    decreases |p|, 0
  {
    MapAllIs(v.elems, p[1..], op);
    hide ApplyAt, MapAll;
    if i: nat :| i < |v.elems| && ApplyAt(v.elems[i], p[1..], op) == None {
      FailsExactlyWhen(v.elems[i], p[1..], op);
      var at :| FailsAt(v.elems[i], p[1..], op, at);
      FailsBelow(v, p, op, Elem(i), at);
    }
    if at: seq<Place> :| FailsAt(v, p, op, at) {
      var i := at[0].index;
      assert at == [Elem(i)] + at[1..];
      FailsBelow(v, p, op, Elem(i), at[1..]);
      FailsExactlyWhen(v.elems[i], p[1..], op);
    }
  }

  predicate IsOldOrNew(was: Option<Json>, now: Option<Json>, ok: bool, op: Op) {
    (!ok && now == was) || ((now.Some? <==> was.Some?) && (was.Some? ==> now == op(was.value)))
  }

  lemma {:induction false} IntoAllOk(elems: seq<Json>, p: Path, op: Op, i: nat)
    requires IntoAll(elems, p, op).ok && i < |elems|
    ensures Into(elems[i], p, op).ok
    decreases |elems|
  {
    hide Into;
    if i > 0 {
      IntoAllOk(elems[1..], p, op, i - 1);
    }
  }

  // ---------- Many paths ----------

  /** One path after the other. */
  function ApplyEach(v: Json, ps: seq<Path>, op: Op): Option<Json>
    decreases |ps|
  {
    if ps == [] then Some(v)
    else match ApplyAt(v, ps[0], op) case None => None case Some(w) => ApplyEach(w, ps[1..], op)
  }

  /** One path after the other, in place; the first error ends it. */
  function InOrder(v: Json, ps: seq<Path>, op: Op): Result<Json>
    decreases |ps|
  {
    if ps == [] then Result(v, true)
    else var first := Into(v, ps[0], op); if !first.ok then first else InOrder(first.left, ps[1..], op)
  }

  lemma {:induction false} InOrderIs(v: Json, ps: seq<Path>, op: Op)
    ensures ApplyEach(v, ps, op) == if InOrder(v, ps, op).ok then Some(InOrder(v, ps, op).left) else None
    decreases |ps|
  {
    hide Into, ApplyAt;
    if ps != [] {
      IntoIs(v, ps[0], op);
      InOrderIs(Into(v, ps[0], op).left, ps[1..], op);
    }
  }

  predicate Diverging(ps: seq<Path>) { forall i, j :: 0 <= i < j < |ps| ==> Diverge(ps[i], ps[j]) }

  /** A path commutes with any number of paths it diverges from. */
  lemma {:induction false} CommuteEach(v: Json, p: Path, f: Op, ps: seq<Path>, g: Op)
    requires forall i :: 0 <= i < |ps| ==> Diverge(p, ps[i])
    ensures (match ApplyAt(v, p, f) case None => None case Some(w) => ApplyEach(w, ps, g)) ==
      Then(ApplyEach(v, ps, g), p, f)
    decreases |ps|
  {
    hide ApplyAt, Diverge;
    if ps != [] {
      Commute(v, p, f, ps[0], g);
      var a, b := ApplyAt(v, p, f), ApplyAt(v, ps[0], g);
      if b.Some? {
        CommuteEach(b.value, p, f, ps[1..], g);
      }
    }
  }

  /** Undoing at the same diverging paths, in the same order, gives the tree back. */
  lemma {:induction false} CancelEach(v: Json, ps: seq<Path>, f: Op, g: Op)
    requires Undoes(g, f) && Diverging(ps) && ApplyEach(v, ps, f).Some?
    ensures ApplyEach(ApplyEach(v, ps, f).value, ps, g) == Some(v)
    decreases |ps|
  {
    hide ApplyAt, Diverge, Undoes;
    if ps != [] {
      var p, rest := ps[0], ps[1..];
      var w := ApplyAt(v, p, f).value;
      CancelAt(v, p, f, g);
      forall i | 0 <= i < |rest| ensures Diverge(p, rest[i]) { assert rest[i] == ps[i + 1]; }
      CommuteEach(v, p, f, rest, f);
      CommuteEach(w, p, g, rest, f);
      TailDiverges(ps);
      CancelEach(v, rest, f, g);
    }
  }

  lemma TailDiverges(ps: seq<Path>)
    requires ps != [] && Diverging(ps)
    ensures Diverging(ps[1..])
  {
    hide Diverge;
    forall i, j | 0 <= i < j < |ps[1..]| ensures Diverge(ps[1..][i], ps[1..][j]) {
      assert ps[1..][i] == ps[i + 1] && ps[1..][j] == ps[j + 1];
    }
  }

  /** The order of diverging paths does not matter. */
  lemma {:induction false} AnyOrder(v: Json, ps: seq<Path>, qs: seq<Path>, op: Op)
    requires multiset(ps) == multiset(qs) && Diverging(ps)
    ensures ApplyEach(v, ps, op) == ApplyEach(v, qs, op)
    decreases |ps|
  {
    hide ApplyAt, Diverging, Diverge;
    if ps == [] {
      assert |multiset(qs)| == 0;
    } else {
      var p, rest := ps[0], ps[1..];
      assert ps == [p] + rest;
      assert p in multiset(ps);
      var i := IndexOf(qs, p);
      var before, after := qs[..i], qs[i + 1..];
      assert qs == before + [p] + after;
      Remaining(p, rest, before, after);
      OthersDiverge(ps, before + after);
      MoveFirst(v, before, p, after, op);
      EachOne(v, p, before + after, op);
      TailDiverges(ps);
      if ApplyAt(v, p, op).Some? {
        AnyOrder(ApplyAt(v, p, op).value, rest, before + after, op);
      }
    }
  }

  lemma IndexOf(qs: seq<Path>, p: Path) returns (i: nat)
    requires p in multiset(qs)
    ensures i < |qs| && qs[i] == p
  {
    i :| 0 <= i < |qs| && qs[i] == p;
  }

  lemma Remaining(p: Path, rest: seq<Path>, before: seq<Path>, after: seq<Path>)
    requires multiset([p] + rest) == multiset(before + [p] + after)
    ensures multiset(rest) == multiset(before + after)
  {
    assert multiset([p] + rest) == multiset{p} + multiset(rest);
    assert multiset(before + [p] + after) == multiset(before) + multiset{p} + multiset(after);
    assert multiset(before + after) == multiset(before) + multiset(after);
    assert multiset(rest) == multiset([p] + rest) - multiset{p};
    assert multiset(before + after) == multiset(before + [p] + after) - multiset{p};
  }

  lemma OthersDiverge(ps: seq<Path>, others: seq<Path>)
    requires ps != [] && Diverging(ps) && multiset(others) == multiset(ps[1..])
    ensures forall i :: 0 <= i < |others| ==> Diverge(ps[0], others[i])
  {
    hide Diverge;
    forall i | 0 <= i < |others| ensures Diverge(ps[0], others[i]) {
      assert others[i] in multiset(others);
      assert others[i] in ps[1..];
      var j :| 0 <= j < |ps[1..]| && ps[1..][j] == others[i];
      assert ps[j + 1] == others[i];
    }
  }

  lemma {:induction false} MoveFirst(v: Json, before: seq<Path>, p: Path, after: seq<Path>, op: Op)
    requires forall i :: 0 <= i < |before + after| ==> Diverge(p, (before + after)[i])
    ensures ApplyEach(v, before + [p] + after, op) == ApplyEach(v, [p] + (before + after), op)
    decreases |before|
  {
    hide ApplyAt, Diverge;
    if before == [] {
      assert before + [p] + after == [p] + (before + after);
    } else {
      var b, rest := before[0], before[1..];
      assert before + [p] + after == [b] + (rest + [p] + after);
      assert [p] + (before + after) == [p, b] + (rest + after);
      assert (before + after)[0] == b;
      Commute(v, p, op, b, op);
      var w := ApplyAt(v, b, op);
      forall i | 0 <= i < |rest + after|
        ensures Diverge(p, (rest + after)[i]) { assert (rest + after)[i] == (before + after)[i + 1]; }
      if w.Some? {
        MoveFirst(w.value, rest, p, after, op);
      }
      EachTwo(v, p, b, rest + after, op);
      EachOne(v, b, rest + [p] + after, op);
      if w.Some? {
        EachOne(w.value, p, rest + after, op);
      }
    }
  }

  lemma EachOne(v: Json, p: Path, ps: seq<Path>, op: Op)
    ensures ApplyEach(v, [p] + ps, op) == match ApplyAt(v, p, op) case None => None case Some(w) => ApplyEach(w, ps, op)
  {
    assert ([p] + ps)[1..] == ps;
  }

  lemma EachTwo(v: Json, p: Path, q: Path, ps: seq<Path>, op: Op)
    ensures ApplyEach(v, [p, q] + ps, op) ==
      match Then(ApplyAt(v, p, op), q, op) case None => None case Some(w) => ApplyEach(w, ps, op)
  {
    assert [p, q] + ps == [p] + ([q] + ps);
    EachOne(v, p, [q] + ps, op);
    if ApplyAt(v, p, op).Some? { EachOne(ApplyAt(v, p, op).value, q, ps, op); }
    hide ApplyAt, ApplyEach;
  }
}
