/**
  Paths some of which lie inside others. An operation that leaves nothing to descend into is done at the outermost
  paths only, and undoing it at all of them is, on top of that, one more operation at the inner ones. That changes
  nothing exactly when no string it would change stands at an inner position.
 */
module NestedPaths {
  import opened Wrappers
  import opened FieldPaths

  /** No path comes before one it lies inside. */
  predicate OuterFirst(ps: seq<Path>) { forall i, j :: 0 <= i < j < |ps| ==> Diverge(ps[i], ps[j]) || ps[i] <= ps[j] }

  predicate IsRelated(p: Path, ps: seq<Path>) { forall i :: 0 <= i < |ps| ==> Diverge(p, ps[i]) || p <= ps[i] }

  /** The paths of ps that do not lie inside p; p itself does not. */
  function Apart(ps: seq<Path>, p: Path): (r: seq<Path>)
    ensures |r| <= |ps| && forall i :: 0 <= i < |r| ==> r[i] in ps && !(p < r[i])
  {
    if ps == [] then [] else (if p < ps[0] then [] else [ps[0]]) + Apart(ps[1..], p)
  }

  function Within(ps: seq<Path>, p: Path): (r: seq<Path>)
    ensures |r| <= |ps| && forall i :: 0 <= i < |r| ==> r[i] in ps && p < r[i]
  {
    if ps == [] then [] else (if p < ps[0] then [ps[0]] else []) + Within(ps[1..], p)
  }

  /** The paths that lie inside no other. */
  function Outer(ps: seq<Path>): seq<Path>
    decreases |ps|
  {
    if ps == [] then [] else [ps[0]] + Outer(Apart(ps[1..], ps[0]))
  }

  /** The paths that lie inside another, those of one outermost path together. */
  function Inner(ps: seq<Path>): seq<Path>
    decreases |ps|
  {
    if ps == [] then [] else Inner(Apart(ps[1..], ps[0])) + Within(ps[1..], ps[0])
  }

  lemma FiltersCons(ps: seq<Path>, p: Path)
    requires ps != []
    ensures Apart(ps, p) == if p < ps[0] then Apart(ps[1..], p) else [ps[0]] + Apart(ps[1..], p)
    ensures Within(ps, p) == if p < ps[0] then [ps[0]] + Within(ps[1..], p) else Within(ps[1..], p)
  {
  }

  lemma HeadIsRelated(ps: seq<Path>)
    requires ps != [] && OuterFirst(ps)
    ensures IsRelated(ps[0], ps[1..]) && OuterFirst(ps[1..])
  {
    hide Diverge;
    forall i | 0 <= i < |ps[1..]| ensures Diverge(ps[0], ps[1..][i]) || ps[0] <= ps[1..][i] {
      assert ps[1..][i] == ps[i + 1];
    }
  }

  // ---------- Sub-lists ----------

  lemma {:induction false} ApartOrdered(ps: seq<Path>, p: Path)
    requires OuterFirst(ps)
    ensures OuterFirst(Apart(ps, p))
    decreases |ps|
  {
    hide Diverge;
    if ps != [] {
      HeadIsRelated(ps);
      ApartOrdered(ps[1..], p);
      var rest := Apart(ps[1..], p);
      forall i | 0 <= i < |rest| ensures Diverge(ps[0], rest[i]) || ps[0] <= rest[i] {
        assert rest[i] in ps[1..];
      }
    }
  }

  lemma {:induction false} WithinOrdered(ps: seq<Path>, p: Path)
    requires OuterFirst(ps)
    ensures OuterFirst(Within(ps, p))
    decreases |ps|
  {
    hide Diverge;
    if ps != [] {
      HeadIsRelated(ps);
      WithinOrdered(ps[1..], p);
      var rest := Within(ps[1..], p);
      forall i | 0 <= i < |rest| ensures Diverge(ps[0], rest[i]) || ps[0] <= rest[i] {
        assert rest[i] in ps[1..];
      }
    }
  }

  predicate AllBeside(p: Path, ps: seq<Path>) { forall i :: 0 <= i < |ps| ==> Diverge(p, ps[i]) || ps[i] == p }

  lemma ApartIsBeside(ps: seq<Path>, p: Path)
    requires IsRelated(p, ps)
    ensures AllBeside(p, Apart(ps, p))
  {
    hide Diverge;
    var r := Apart(ps, p);
    forall i | 0 <= i < |r| ensures Diverge(p, r[i]) || r[i] == p {
      assert r[i] in ps && !(p < r[i]);
    }
  }

  /** What lies inside p diverges from whatever p diverges from. */
  lemma {:induction false} InsideDiverges(p: Path, q: Path, r: Path)
    requires Diverge(p, q) && p <= r
    ensures Diverge(r, q) && Diverge(q, r)
    decreases |p|
  {
    if p[0] == q[0] {
      InsideDiverges(p[1..], q[1..], r[1..]);
    }
  }

  // ---------- Nothing inside ----------

  /** Where the path leads there is no object and no array. */
  predicate Sealed(v: Json, p: Path)
    decreases |p|
  {
    if p == [] then !v.Obj? && !v.Arr?
    else
      match p[0]
      case Key(k) => v.Obj? && k in v.fields ==> Sealed(v.fields[k], p[1..])
      case Each => v.Arr? ==> forall i :: 0 <= i < |v.elems| ==> Sealed(v.elems[i], p[1..])
  }

  ghost predicate Seals(f: Op) { forall v :: f(v).Some? ==> !f(v).value.Obj? && !f(v).value.Arr? }

  lemma {:induction false} AppliedIsSealed(v: Json, p: Path, f: Op)
    requires Seals(f) && ApplyAt(v, p, f).Some?
    ensures Sealed(ApplyAt(v, p, f).value, p)
    decreases |p|
  {
    if p != [] {
      match p[0]
      case Key(k) =>
        if v.Obj? && k in v.fields { AppliedIsSealed(v.fields[k], p[1..], f); }
      case Each =>
        if v.Arr? {
          MapAllIs(v.elems, p[1..], f);
          var es := MapAll(v.elems, p[1..], f).value;
          forall i | 0 <= i < |es| ensures Sealed(es[i], p[1..]) {
            AppliedIsSealed(v.elems[i], p[1..], f);
          }
        }
    }
  }

  lemma {:induction false} SealedIsLeft(v: Json, p: Path, q: Path, g: Op)
    requires Sealed(v, p) && p < q
    ensures ApplyAt(v, q, g) == Some(v)
    decreases |p|
  {
    if p != [] {
      match p[0]
      case Key(k) =>
        if v.Obj? && k in v.fields {
          SealedIsLeft(v.fields[k], p[1..], q[1..], g);
          assert v.fields[k := v.fields[k]] == v.fields;
        }
      case Each =>
        if v.Arr? {
          forall i | 0 <= i < |v.elems| ensures ApplyAt(v.elems[i], q[1..], g) == Some(v.elems[i]) {
            SealedIsLeft(v.elems[i], p[1..], q[1..], g);
          }
          AllLeft(v.elems, q[1..], g);
        }
    }
  }

  lemma AllLeft(elems: seq<Json>, p: Path, g: Op)
    requires forall i :: 0 <= i < |elems| ==> ApplyAt(elems[i], p, g) == Some(elems[i])
    ensures MapAll(elems, p, g) == Some(elems)
  {
    MapAllIs(elems, p, g);
    hide ApplyAt, MapAll;
    assert MapAll(elems, p, g).value == elems;
  }

  lemma {:induction false} SealedStays(v: Json, p: Path, q: Path, g: Op)
    requires Sealed(v, p) && Diverge(p, q) && ApplyAt(v, q, g).Some?
    ensures Sealed(ApplyAt(v, q, g).value, p)
    decreases |p|
  {
    match q[0]
    case Key(k) =>
      if v.Obj? && k in v.fields && p[0] == q[0] {
        SealedStays(v.fields[k], p[1..], q[1..], g);
      }
    case Each =>
      if v.Arr? && p[0] == q[0] {
        MapAllIs(v.elems, q[1..], g);
        var es := MapAll(v.elems, q[1..], g).value;
        forall i | 0 <= i < |es| ensures Sealed(es[i], p[1..]) {
          SealedStays(v.elems[i], p[1..], q[1..], g);
        }
      }
  }

  /** Of the paths after p those inside it do nothing once p is sealed. */
  lemma {:induction false} SealedEach(v: Json, p: Path, ps: seq<Path>, g: Op)
    requires Sealed(v, p) && IsRelated(p, ps) && Seals(g)
    ensures ApplyEach(v, ps, g) == ApplyEach(v, Apart(ps, p), g)
    decreases |ps|
  {
    hide ApplyAt, Sealed, Diverge, Apart, Seals;
    if ps != [] {
      var q, rest := ps[0], ps[1..];
      assert IsRelated(p, rest);
      FiltersCons(ps, p);
      if p < q {
        SealedIsLeft(v, p, q, g);
        SealedEach(v, p, rest, g);
      } else {
        EachOne(v, q, Apart(rest, p), g);
        if ApplyAt(v, q, g).Some? {
          if q == p {
            AppliedIsSealed(v, p, g);
          } else {
            SealedStays(v, p, q, g);
          }
          SealedEach(ApplyAt(v, q, g).value, p, rest, g);
        }
      }
    }
  }

  /** What seals is done at the outermost paths. */
  lemma {:induction false} SealingIsOuter(v: Json, ps: seq<Path>, f: Op)
    requires OuterFirst(ps) && Seals(f)
    ensures ApplyEach(v, ps, f) == ApplyEach(v, Outer(ps), f)
    decreases |ps|
  {
    hide ApplyAt, Sealed, Diverge, Seals, OuterFirst;
    if ps != [] {
      var p, rest := ps[0], ps[1..];
      HeadIsRelated(ps);
      ApartOrdered(rest, p);
      EachOne(v, p, Outer(Apart(rest, p)), f);
      if ApplyAt(v, p, f).Some? {
        var w := ApplyAt(v, p, f).value;
        AppliedIsSealed(v, p, f);
        SealedEach(w, p, rest, f);
        SealingIsOuter(w, Apart(rest, p), f);
      }
    }
  }

  // ---------- Undoing ----------

  /** The paths inside p commute with the others, so they may come last. */
  lemma {:induction false} InsideLast(v: Json, p: Path, ps: seq<Path>, g: Op)
    requires IsRelated(p, ps) && OuterFirst(ps)
    ensures ApplyEach(v, ps, g) == Together(v, Apart(ps, p), Within(ps, p), g)
    decreases |ps|
  {
    hide ApplyAt, ApplyEach, Diverge, OuterFirst, Apart, Within, Together;
    if ps == [] {
      NoneInside(v, g);
    } else {
      var q, rest := ps[0], ps[1..];
      assert IsRelated(p, rest);
      FiltersCons(ps, p);
      HeadIsRelated(ps);
      var apart, within := Apart(rest, p), Within(rest, p);
      assert ps == [q] + rest;
      EachOne(v, q, rest, g);
      if p < q {
        forall i | 0 <= i < |apart| ensures Diverge(q, apart[i]) {
          InsideComesLater(p, q, rest, i);
        }
        InsideAfter(v, q, apart, within, g);
      } else {
        TogetherCons(v, q, apart, within, g);
      }
      if ApplyAt(v, q, g).Some? {
        InsideLast(ApplyAt(v, q, g).value, p, rest, g);
      }
    }
  }

  lemma NoneInside(v: Json, g: Op)
    ensures ApplyEach(v, [], g) == Together(v, [], [], g)
  {
  }

  lemma TogetherCons(v: Json, q: Path, a: seq<Path>, b: seq<Path>, g: Op)
    ensures Together(v, [q] + a, b, g) ==
      match ApplyAt(v, q, g) case None => None case Some(w) => Together(w, a, b, g)
  {
    EachOne(v, q, a, g);
    hide ApplyEach, ApplyAt;
  }

  /** A path beside all of a may come after them. */
  lemma InsideAfter(v: Json, q: Path, a: seq<Path>, b: seq<Path>, g: Op)
    requires forall i :: 0 <= i < |a| ==> Diverge(q, a[i])
    ensures Together(v, a, [q] + b, g) ==
      match ApplyAt(v, q, g) case None => None case Some(w) => Together(w, a, b, g)
  {
    CommuteEach(v, q, g, a, g);
    TogetherSnoc(v, a, q, b, g);
    hide ApplyEach, ApplyAt;
  }

  /** After a path inside p there is no p, so what is not inside p diverges from it. */
  lemma InsideComesLater(p: Path, q: Path, rest: seq<Path>, i: nat)
    requires p < q && IsRelated(p, rest) && IsRelated(q, rest) && i < |Apart(rest, p)|
    ensures Diverge(q, Apart(rest, p)[i])
  {
    hide Diverge;
    var r := Apart(rest, p)[i];
    assert r in rest;
    if Diverge(p, r) {
      InsideDiverges(p, r, q);
    } else {
      assert p <= r && !(p < r);
      assert p == r && !(q <= p);
    }
  }

  function Together(v: Json, a: seq<Path>, b: seq<Path>, g: Op): Option<Json> {
    match ApplyEach(v, a, g) case None => None case Some(w) => ApplyEach(w, b, g)
  }

  lemma TogetherSnoc(v: Json, a: seq<Path>, q: Path, b: seq<Path>, g: Op)
    ensures Together(v, a, [q] + b, g) ==
      match Then(ApplyEach(v, a, g), q, g) case None => None case Some(w) => ApplyEach(w, b, g)
  {
    var w := ApplyEach(v, a, g);
    if w.Some? {
      EachOne(w.value, q, b, g);
    }
    hide ApplyEach, ApplyAt;
  }

  lemma OuterIsBeside(p: Path, ps: seq<Path>)
    requires AllBeside(p, ps)
    ensures AllBeside(p, Outer(ps))
    decreases |ps|
  {
    hide Diverge;
    if ps != [] {
      var r := Apart(ps[1..], ps[0]);
      forall i | 0 <= i < |r| ensures Diverge(p, r[i]) || r[i] == p { assert r[i] in ps[1..]; }
      OuterIsBeside(p, r);
    }
  }

  /** One operation at p commutes with the same one at p and beside it. */
  lemma {:induction false} CommuteBeside(v: Json, p: Path, ps: seq<Path>, f: Op)
    requires AllBeside(p, ps)
    ensures (match ApplyAt(v, p, f) case None => None case Some(w) => ApplyEach(w, ps, f)) ==
      Then(ApplyEach(v, ps, f), p, f)
    decreases |ps|
  {
    hide ApplyAt, Diverge;
    if ps != [] {
      if ps[0] != p {
        Commute(v, p, f, ps[0], f);
      }
      var b := ApplyAt(v, ps[0], f);
      if b.Some? {
        CommuteBeside(b.value, p, ps[1..], f);
      }
    }
  }

  /** Undoing at all paths is one operation at the inner ones, on the data as it was. */
  lemma {:induction false} UndoingIsInner(v: Json, ps: seq<Path>, f: Op, g: Op)
    requires OuterFirst(ps) && Undoes(g, f) && ApplyEach(v, Outer(ps), f).Some?
    ensures ApplyEach(ApplyEach(v, Outer(ps), f).value, ps, g) == ApplyEach(v, Inner(ps), g)
    decreases |ps|
  {
    hide ApplyAt, Diverge, Undoes, OuterFirst, Outer, Inner, IsRelated, ApplyEach;
    if ps == [] {
      NoPath(v, f, g);
    } else {
      var p, rest := ps[0], ps[1..];
      var apart, within := Apart(rest, p), Within(rest, p);
      HeadIsRelated(ps);
      ApartOrdered(rest, p);
      ApartIsBeside(rest, p);
      OuterIsBeside(p, apart);
      OuterCons(ps);
      // The outermost paths, p last.
      EachOne(v, p, Outer(apart), f);
      CommuteBeside(v, p, Outer(apart), f);
      var y := ApplyEach(v, Outer(apart), f).value;
      CancelAt(y, p, f, g);
      var w := ApplyEach(v, Outer(ps), f).value;
      assert ps == [p] + rest;
      EachOne(w, p, rest, g);
      InsideLast(y, p, rest, g);
      UndoingIsInner(v, apart, f, g);
      EachAppend(v, Inner(apart), within, g);
    }
  }

  lemma NoPath(v: Json, f: Op, g: Op)
    ensures ApplyEach(ApplyEach(v, Outer([]), f).value, [], g) == ApplyEach(v, Inner([]), g)
  {
  }

  lemma OuterCons(ps: seq<Path>)
    requires ps != []
    ensures Outer(ps) == [ps[0]] + Outer(Apart(ps[1..], ps[0]))
    ensures Inner(ps) == Inner(Apart(ps[1..], ps[0])) + Within(ps[1..], ps[0])
  {
  }

  lemma {:induction false} EachAppend(v: Json, a: seq<Path>, b: seq<Path>, op: Op)
    ensures ApplyEach(v, a + b, op) == Together(v, a, b, op)
    decreases |a|
  {
    hide ApplyAt;
    if a == [] {
      assert a + b == b;
    } else {
      assert (a + b)[1..] == a[1..] + b;
      var w := ApplyAt(v, a[0], op);
      if w.Some? {
        EachAppend(w.value, a[1..], b, op);
      }
    }
  }

  // ---------- When the inner operations change nothing ----------

  /** Only strings are changed. */
  ghost predicate OnlyStrings(g: Op) { forall v: Json :: !v.Str? ==> g(v) == Some(v) }

  /** Every string the path addresses is left as it is. */
  predicate Clear(v: Json, p: Path, g: Op)
    decreases |p|
  {
    if p == [] then v.Str? ==> g(v) == Some(v)
    else
      match p[0]
      case Key(k) => v.Obj? && k in v.fields ==> Clear(v.fields[k], p[1..], g)
      case Each => v.Arr? ==> forall i :: 0 <= i < |v.elems| ==> Clear(v.elems[i], p[1..], g)
  }

  lemma {:induction false} ClearIs(v: Json, p: Path, g: Op)
    ensures Clear(v, p, g) <==> forall at :: On(p, at) ==> IsClearAt(v, at, g)
    decreases |p|
  {
    if Clear(v, p, g) {
      forall at | On(p, at) ensures IsClearAt(v, at, g) { ClearAt(v, p, g, at); }
    } else {
      var at := UnclearAt(v, p, g);
    }
  }

  predicate IsClearAt(v: Json, at: seq<Place>, g: Op) {
    At(v, at).Some? && At(v, at).value.Str? ==> g(At(v, at).value) == At(v, at)
  }

  lemma {:induction false} ClearAt(v: Json, p: Path, g: Op, at: seq<Place>)
    requires Clear(v, p, g) && On(p, at)
    ensures IsClearAt(v, at, g)
    decreases |p|
  {
    if p != [] && At(v, at).Some? {
      match p[0]
      case Key(k) => ClearAt(v.fields[k], p[1..], g, at[1..]);
      case Each => ClearAt(v.elems[at[0].index], p[1..], g, at[1..]);
    }
  }

  lemma {:induction false} UnclearAt(v: Json, p: Path, g: Op) returns (at: seq<Place>)
    requires !Clear(v, p, g)
    ensures On(p, at) && !IsClearAt(v, at, g)
    decreases |p|
  {
    if p == [] {
      at := [];
    } else {
      match p[0]
      case Key(k) =>
        var rest := UnclearAt(v.fields[k], p[1..], g);
        at := [Field(k)] + rest;
        assert at[1..] == rest;
      case Each =>
        var i :| 0 <= i < |v.elems| && !Clear(v.elems[i], p[1..], g);
        var rest := UnclearAt(v.elems[i], p[1..], g);
        at := [Elem(i)] + rest;
        assert at[1..] == rest;
    }
  }

  lemma {:induction false} LeavesAloneExactlyWhen(v: Json, p: Path, g: Op)
    requires OnlyStrings(g)
    ensures ApplyAt(v, p, g) == Some(v) <==> Clear(v, p, g)
    decreases |p|
  {
    if p != [] {
      match p[0]
      case Key(k) =>
        if v.Obj? && k in v.fields {
          LeavesAloneExactlyWhen(v.fields[k], p[1..], g);
          assert v.fields[k := v.fields[k]] == v.fields;
        }
      case Each =>
        if v.Arr? {
          forall i | 0 <= i < |v.elems|
            ensures ApplyAt(v.elems[i], p[1..], g) == Some(v.elems[i]) <==> Clear(v.elems[i], p[1..], g)
          {
            LeavesAloneExactlyWhen(v.elems[i], p[1..], g);
          }
          MapAllIs(v.elems, p[1..], g);
          if forall i :: 0 <= i < |v.elems| ==> Clear(v.elems[i], p[1..], g) {
            AllLeft(v.elems, p[1..], g);
          }
        }
    }
  }

  /** A string of v at an addressed position has become something else in w. */
  predicate Differs(v: Json, w: Json, p: Path)
    decreases |p|
  {
    if p == [] then v.Str? && w != v
    else
      match p[0]
      case Key(k) =>
        v.Obj? && w.Obj? && k in v.fields && k in w.fields && Differs(v.fields[k], w.fields[k], p[1..])
      case Each =>
        v.Arr? && w.Arr? && exists i :: 0 <= i < |v.elems| && i < |w.elems| && Differs(v.elems[i], w.elems[i], p[1..])
  }

  lemma {:induction false} DiffersFromItself(v: Json, p: Path)
    ensures !Differs(v, v, p)
    decreases |p|
  {
    if p != [] {
      match p[0]
      case Key(k) =>
        if v.Obj? && k in v.fields { DiffersFromItself(v.fields[k], p[1..]); }
      case Each =>
        if v.Arr? {
          forall i | 0 <= i < |v.elems| ensures !Differs(v.elems[i], v.elems[i], p[1..]) {
            DiffersFromItself(v.elems[i], p[1..]);
          }
        }
    }
  }

  lemma {:induction false} UnclearDiffers(v: Json, p: Path, g: Op)
    requires !Clear(v, p, g) && ApplyAt(v, p, g).Some?
    ensures Differs(v, ApplyAt(v, p, g).value, p)
    decreases |p|
  {
    if p != [] {
      match p[0]
      case Key(k) => UnclearDiffers(v.fields[k], p[1..], g);
      case Each =>
        MapAllIs(v.elems, p[1..], g);
        var i :| 0 <= i < |v.elems| && !Clear(v.elems[i], p[1..], g);
        UnclearDiffers(v.elems[i], p[1..], g);
        var es := MapAll(v.elems, p[1..], g).value;
        assert Differs(v.elems[i], es[i], p[1..]);
    }
  }

  /** Neither a path beside p nor one inside it brings the string back. */
  lemma {:induction false} StillDiffers(v: Json, w: Json, p: Path, q: Path, g: Op)
    requires Differs(v, w, p) && (Diverge(p, q) || p < q) && ApplyAt(w, q, g).Some?
    ensures Differs(v, ApplyAt(w, q, g).value, p)
    decreases |p|
  {
    if p != [] && p[0] == q[0] {
      match p[0]
      case Key(k) => StillDiffers(v.fields[k], w.fields[k], p[1..], q[1..], g);
      case Each =>
        MapAllIs(w.elems, q[1..], g);
        var es := MapAll(w.elems, q[1..], g).value;
        var i :| 0 <= i < |v.elems| && i < |w.elems| && Differs(v.elems[i], w.elems[i], p[1..]);
        StillDiffers(v.elems[i], w.elems[i], p[1..], q[1..], g);
        assert Differs(v.elems[i], es[i], p[1..]);
    }
  }

  lemma PrefixIsProper(p: Path, q: Path)
    requires p != q
    ensures p <= q ==> p < q
  {
  }

  lemma {:induction false} StillDiffersEach(v: Json, w: Json, p: Path, ps: seq<Path>, g: Op)
    requires Differs(v, w, p) && IsRelated(p, ps) && p !in ps && ApplyEach(w, ps, g).Some?
    ensures Differs(v, ApplyEach(w, ps, g).value, p)
    decreases |ps|
  {
    hide ApplyAt, Diverge, Differs;
    if ps != [] {
      assert ps[0] in ps;
      PrefixIsProper(p, ps[0]);
      StillDiffers(v, w, p, ps[0], g);
      assert IsRelated(p, ps[1..]);
      StillDiffersEach(v, ApplyAt(w, ps[0], g).value, p, ps[1..], g);
    }
  }

  // ---------- As often as a path is listed ----------

  /** op done n times over. */
  function Repeat(op: Op, n: nat): Op { v => Repeated(op, n, v) }

  function Repeated(op: Op, n: nat, v: Json): Option<Json> {
    if n == 0 then Some(v) else match op(v) case None => None case Some(w) => Repeated(op, n - 1, w)
  }

  /** How often p is listed. */
  function Times(ps: seq<Path>, p: Path): nat {
    if ps == [] then 0 else (if ps[0] == p then 1 else 0) + Times(ps[1..], p)
  }

  function Without(ps: seq<Path>, p: Path): seq<Path> {
    if ps == [] then [] else (if ps[0] == p then [] else [ps[0]]) + Without(ps[1..], p)
  }

  lemma {:induction false} WithoutIs(ps: seq<Path>, p: Path)
    ensures forall q :: q in Without(ps, p) <==> q in ps && q != p
    ensures |Without(ps, p)| + Times(ps, p) == |ps|
    ensures p !in ps ==> Without(ps, p) == ps && Times(ps, p) == 0
  {
    if ps != [] {
      WithoutIs(ps[1..], p);
      assert ps == [ps[0]] + ps[1..];
    }
  }

  lemma {:induction false} WithoutCounts(ps: seq<Path>, p: Path, q: Path)
    requires p != q
    ensures Times(Without(ps, p), q) == Times(ps, q)
  {
    if ps != [] {
      WithoutCounts(ps[1..], p, q);
      WithoutCons(ps, p);
      CountCons(ps[0], Without(ps[1..], p), q);
    }
  }

  lemma CountCons(p: Path, ps: seq<Path>, q: Path)
    ensures Times([p] + ps, q) == (if p == q then 1 else 0) + Times(ps, q)
  {
    assert ([p] + ps)[1..] == ps;
  }

  lemma {:induction false} CountAppend(a: seq<Path>, b: seq<Path>, q: Path)
    ensures Times(a + b, q) == Times(a, q) + Times(b, q)
  {
    if a == [] {
      assert a + b == b;
    } else {
      CountAppend(a[1..], b, q);
      assert (a + b)[1..] == a[1..] + b;
    }
  }

  lemma {:induction false} WithoutOrdered(ps: seq<Path>, p: Path)
    requires OuterFirst(ps)
    ensures OuterFirst(Without(ps, p))
  {
    hide Diverge;
    if ps != [] {
      HeadIsRelated(ps);
      WithoutOrdered(ps[1..], p);
      var rest := Without(ps[1..], p);
      WithoutIs(ps[1..], p);
      forall i | 0 <= i < |rest| ensures Diverge(ps[0], rest[i]) || ps[0] <= rest[i] { assert rest[i] in ps[1..]; }
    }
  }

  /** Doing nothing at a path. */
  lemma {:induction false} NothingAt(v: Json, p: Path, op: Op)
    requires forall w :: op(w) == Some(w)
    ensures ApplyAt(v, p, op) == Some(v)
    decreases |p|
  {
    if p != [] {
      match p[0]
      case Key(k) =>
        if v.Obj? && k in v.fields {
          NothingAt(v.fields[k], p[1..], op);
          assert v.fields[k := v.fields[k]] == v.fields;
        }
      case Each =>
        if v.Arr? {
          forall i | 0 <= i < |v.elems| ensures ApplyAt(v.elems[i], p[1..], op) == Some(v.elems[i]) {
            NothingAt(v.elems[i], p[1..], op);
          }
          AllLeft(v.elems, p[1..], op);
        }
    }
  }

  /** Once, and n times more. */
  lemma {:induction false} OnceMore(v: Json, p: Path, g: Op, n: nat)
    ensures Then(ApplyAt(v, p, g), p, Repeat(g, n)) == ApplyAt(v, p, Repeat(g, n + 1))
    decreases |p|
  {
    if p != [] {
      match p[0]
      case Key(k) =>
        if v.Obj? && k in v.fields {
          OnceMore(v.fields[k], p[1..], g, n);
          var c := ApplyAt(v.fields[k], p[1..], g);
          if c.Some? {
            var d := ApplyAt(c.value, p[1..], Repeat(g, n));
            if d.Some? { OneField(v.fields, k, c.value, d.value); }
          }
        }
      case Each =>
        if v.Arr? {
          forall i | 0 <= i < |v.elems|
            ensures Then(ApplyAt(v.elems[i], p[1..], g), p[1..], Repeat(g, n)) ==
              ApplyAt(v.elems[i], p[1..], Repeat(g, n + 1))
          {
            OnceMore(v.elems[i], p[1..], g, n);
          }
          AllOnceMore(v.elems, p[1..], g, n);
        }
    }
  }

  lemma OneField(m: map<string, Json>, k: string, c: Json, d: Json)
    ensures m[k := c][k] == c && m[k := c][k := d] == m[k := d]
  {
  }

  lemma AllOnceMore(elems: seq<Json>, p: Path, g: Op, n: nat)
    requires forall i :: 0 <= i < |elems| ==>
      Then(ApplyAt(elems[i], p, g), p, Repeat(g, n)) == ApplyAt(elems[i], p, Repeat(g, n + 1))
    ensures (match MapAll(elems, p, g) case None => None case Some(es) => MapAll(es, p, Repeat(g, n))) ==
      MapAll(elems, p, Repeat(g, n + 1))
  {
    MapAllIs(elems, p, g);
    MapAllIs(elems, p, Repeat(g, n + 1));
    var es := MapAll(elems, p, g);
    hide ApplyAt, MapAll, Repeat;
    if es.Some? {
      MapAllIs(es.value, p, Repeat(g, n));
      var a, b := MapAll(es.value, p, Repeat(g, n)), MapAll(elems, p, Repeat(g, n + 1));
      forall i | 0 <= i < |elems|
        ensures ApplyAt(es.value[i], p, Repeat(g, n)) == ApplyAt(elems[i], p, Repeat(g, n + 1))
      {
        assert ApplyAt(elems[i], p, g) == Some(es.value[i]);
      }
      if a.Some? && b.Some? { assert a.value == b.value; }
    } else {
      var i :| 0 <= i < |elems| && ApplyAt(elems[i], p, g) == None;
      assert ApplyAt(elems[i], p, Repeat(g, n + 1)) == None;
    }
  }

  /** All copies of p can be taken first. */
  lemma {:induction false} CopiesFirst(v: Json, p: Path, ps: seq<Path>, g: Op)
    requires IsRelated(p, ps) && OuterFirst(ps)
    ensures ApplyEach(v, ps, g) ==
      match ApplyAt(v, p, Repeat(g, Times(ps, p))) case None => None case Some(w) => ApplyEach(w, Without(ps, p), g)
    decreases |ps|
  {
    hide ApplyAt, Diverge, Without, OuterFirst, Times;
    WithoutIs(ps, p);
    if p !in ps {
      NothingAt(v, p, Repeat(g, 0));
    } else {
      var q, rest := ps[0], ps[1..];
      assert ps == [q] + rest;
      HeadIsRelated(ps);
      assert IsRelated(p, rest);
      WithoutCons(ps, p);
      CountCons(q, rest, p);
      var n := Times(rest, p);
      var w := ApplyAt(v, q, g);
      if q == p {
        OnceMore(v, p, g, n);
      } else {
        CopyIsBeside(p, q, rest);
        Commute(v, q, g, p, Repeat(g, n));
        EachOne(v, q, Without(rest, p), g);
      }
      if w.Some? { CopiesFirst(w.value, p, rest, g); }
    }
  }

  lemma WithoutCons(ps: seq<Path>, p: Path)
    requires ps != []
    ensures Without(ps, p) == if ps[0] == p then Without(ps[1..], p) else [ps[0]] + Without(ps[1..], p)
  {
  }

  /** What comes before a copy of p, and is not one, lies beside p or around it. */
  lemma CopyIsBeside(p: Path, q: Path, rest: seq<Path>)
    requires p in rest && IsRelated(q, rest) && (Diverge(p, q) || p <= q) && p != q
    ensures Diverge(q, p)
  {
    var i :| 0 <= i < |rest| && rest[i] == p;
    if Diverge(p, q) { DivergeIsSymmetric(p, q); }
  }

  lemma RepeatOnlyStrings(g: Op, n: nat)
    requires OnlyStrings(g)
    ensures OnlyStrings(Repeat(g, n))
  {
    forall v: Json | !v.Str? ensures Repeated(g, n, v) == Some(v) { NoStringRepeated(g, n, v); }
  }

  lemma {:induction false} NoStringRepeated(g: Op, n: nat, v: Json)
    requires OnlyStrings(g) && !v.Str?
    ensures Repeated(g, n, v) == Some(v)
  {
    if n > 0 { NoStringRepeated(g, n - 1, v); }
  }

  /** All of them leave the data alone exactly when the operation, done as often as each path is listed, leaves every
      string that path addresses alone. */
  lemma {:induction false} AllLeaveAloneExactlyWhen(v: Json, ps: seq<Path>, g: Op)
    requires OuterFirst(ps) && OnlyStrings(g)
    ensures ApplyEach(v, ps, g) == Some(v) <==> forall p :: p in ps ==> Clear(v, p, Repeat(g, Times(ps, p)))
    decreases |ps|
  {
    hide ApplyAt, Diverge, Differs, OnlyStrings, Clear, OuterFirst, Without, Repeat, Times;
    if ps != [] {
      var p, others, op := ps[0], Without(ps, ps[0]), Repeat(g, Times(ps, ps[0]));
      HeadIsRelated(ps);
      CopiesFirst(v, p, ps, g);
      WithoutIs(ps, p);
      WithoutOrdered(ps, p);
      CountCons(p, ps[1..], p);
      assert ps == [p] + ps[1..];
      RepeatOnlyStrings(g, Times(ps, p));
      LeavesAloneExactlyWhen(v, p, op);
      if Clear(v, p, op) {
        AllLeaveAloneExactlyWhen(v, others, g);
        forall q | q in others ensures Times(others, q) == Times(ps, q) { WithoutCounts(ps, p, q); }
      } else if ApplyEach(v, ps, g).Some? {
        UnclearDiffers(v, p, op);
        forall i | 0 <= i < |others| ensures Diverge(p, others[i]) || p <= others[i] { assert others[i] in ps; }
        StillDiffersEach(v, ApplyAt(v, p, op).value, p, others, g);
        DiffersFromItself(v, p);
      }
    }
  }

  /** The inner paths keep the order. */
  lemma {:induction false} InnerOrdered(ps: seq<Path>)
    requires OuterFirst(ps)
    ensures OuterFirst(Inner(ps)) && forall i :: 0 <= i < |Inner(ps)| ==> Inner(ps)[i] in ps
    decreases |ps|
  {
    hide Diverge, OuterFirst, Inner;
    if ps == [] {
      NoInner();
    } else {
      var p, rest := ps[0], ps[1..];
      HeadIsRelated(ps);
      ApartOrdered(rest, p);
      WithinOrdered(rest, p);
      InnerOrdered(Apart(rest, p));
      var a, b := Inner(Apart(rest, p)), Within(rest, p);
      forall i, j | 0 <= i < |a| && 0 <= j < |b| ensures Diverge(a[i], b[j]) {
        InnerIsBeside(p, rest, a[i], b[j]);
      }
      ConcatOrdered(a, b);
      OuterCons(ps);
    }
  }

  /** What lies inside a path apart from p is not inside p, nor p. */
  lemma InnerIsBeside(p: Path, rest: seq<Path>, q: Path, r: Path)
    requires IsRelated(p, rest) && OuterFirst(rest) && q in Inner(Apart(rest, p)) && p < r
    ensures Diverge(q, r)
  {
    hide Diverge, Inner, OuterFirst, Apart;
    ApartOrdered(rest, p);
    ApartIsBeside(rest, p);
    var outer := InnerHasOuter(Apart(rest, p), q);
    var k :| 0 <= k < |Apart(rest, p)| && Apart(rest, p)[k] == outer;
    var m :| 0 <= m < |Apart(rest, p)| && Apart(rest, p)[m] == q;
    if q == p {
      ProperPrefixIsNotBeside(outer, p);
    } else {
      InsideDiverges(p, q, r);
    }
  }

  lemma ProperPrefixIsNotBeside(q: Path, p: Path)
    requires q < p
    ensures !Diverge(p, q) && q != p
    decreases |q|
  {
    if q != [] { ProperPrefixIsNotBeside(q[1..], p[1..]); }
  }

  /** An inner path lies inside another one of the list. */
  lemma {:induction false} InnerHasOuter(ps: seq<Path>, q: Path) returns (outer: Path)
    requires q in Inner(ps)
    ensures outer in ps && outer < q && q in ps
    decreases |ps|
  {
    hide Diverge;
    OuterCons(ps);
    var p, rest := ps[0], ps[1..];
    if q in Within(rest, p) {
      outer := p;
    } else {
      outer := InnerHasOuter(Apart(rest, p), q);
    }
  }

  /** A path that lies inside another is inner every time it is listed. */
  lemma {:induction false} InnerCounts(ps: seq<Path>, q: Path)
    requires OuterFirst(ps) && q in Inner(ps)
    ensures Times(Inner(ps), q) == Times(ps, q)
    decreases |ps|
  {
    hide Diverge, OuterFirst, Inner, Apart, Within, Times;
    NoInner();
    var p, rest := ps[0], ps[1..];
    var apart := Apart(rest, p);
    OuterCons(ps);
    HeadIsRelated(ps);
    ApartOrdered(rest, p);
    InnerOrdered(apart);
    FiltersCount(rest, p, q);
    CountAppend(Inner(apart), Within(rest, p), q);
    assert ps == [p] + rest;
    CountCons(p, rest, q);
    if p < q {
      NotListed(Inner(apart), q);
    } else {
      InnerCounts(apart, q);
      var outer := InnerHasOuter(apart, q);
      if q == p {
        var i :| 0 <= i < |rest| && rest[i] == outer;
        ProperPrefixIsNotBeside(outer, p);
      }
    }
  }

  lemma NotListed(ps: seq<Path>, q: Path)
    requires q !in ps
    ensures Times(ps, q) == 0
  {
    WithoutIs(ps, q);
  }

  lemma {:induction false} FiltersCount(ps: seq<Path>, p: Path, q: Path)
    ensures Times(Apart(ps, p), q) == if p < q then 0 else Times(ps, q)
    ensures Times(Within(ps, p), q) == if p < q then Times(ps, q) else 0
  {
    if ps != [] {
      FiltersCons(ps, p);
      FiltersCount(ps[1..], p, q);
      CountCons(ps[0], Apart(ps[1..], p), q);
      CountCons(ps[0], Within(ps[1..], p), q);
    }
  }

  lemma NoInner()
    ensures Inner([]) == [] && OuterFirst([])
  {
  }

  lemma ConcatOrdered(a: seq<Path>, b: seq<Path>)
    requires OuterFirst(a) && OuterFirst(b)
    requires forall i, j :: 0 <= i < |a| && 0 <= j < |b| ==> Diverge(a[i], b[j])
    ensures OuterFirst(a + b)
  {
    hide Diverge;
    forall i, j | 0 <= i < j < |a + b| ensures Diverge((a + b)[i], (a + b)[j]) || (a + b)[i] <= (a + b)[j] {
      if j < |a| {
        assert Diverge(a[i], a[j]) || a[i] <= a[j];
      } else if i >= |a| {
        assert Diverge(b[i - |a|], b[j - |a|]) || b[i - |a|] <= b[j - |a|];
      }
    }
  }
}
