/** Byte order on strings, and the sorted list of a set of keys (Go's sort.Strings). */
module KeyOrder {
  predicate Leq(a: string, b: string) {
    a == "" || (b != "" && (a[0] < b[0] || (a[0] == b[0] && Leq(a[1..], b[1..]))))
  }

  /** One key ends where they differ, or has the smaller byte there. */
  predicate DiffersAt(a: string, b: string, i: nat) {
    && i <= |a| && i <= |b| && a[..i] == b[..i]
    && (i == |a| || (i < |b| && a[i] < b[i]))
  }

  /** The order is decided at the first byte in which two keys differ; where there is none, the shorter comes first. */
  lemma {:induction false} LeqIs(a: string, b: string)
    ensures Leq(a, b) <==> exists i: nat :: DiffersAt(a, b, i)
  {
    if a == "" {
      assert DiffersAt(a, b, 0);
    } else if b != "" {
      LeqIs(a[1..], b[1..]);
      if a[0] < b[0] {
        assert DiffersAt(a, b, 0);
      }
      if i: nat :| a[0] == b[0] && DiffersAt(a[1..], b[1..], i) {
        assert a[..i + 1] == [a[0]] + a[1..][..i] && b[..i + 1] == [b[0]] + b[1..][..i];
        assert DiffersAt(a, b, i + 1);
      }
      if i: nat :| i > 0 && DiffersAt(a, b, i) {
        assert a[..i][0] == a[0] && b[..i][0] == b[0];
        assert a[1..][..i - 1] == a[..i][1..] && b[1..][..i - 1] == b[..i][1..];
        assert DiffersAt(a[1..], b[1..], i - 1);
      }
    }
  }

  lemma {:induction false} LeqTotal(a: string, b: string)
    ensures Leq(a, b) || Leq(b, a)
  {
    if a != "" && b != "" && a[0] == b[0] { LeqTotal(a[1..], b[1..]); }
  }

  lemma {:induction false} LeqAntisymmetric(a: string, b: string)
    requires Leq(a, b) && Leq(b, a)
    ensures a == b
  {
    if a != "" && b != "" {
      LeqAntisymmetric(a[1..], b[1..]);
      assert a == [a[0]] + a[1..] && b == [b[0]] + b[1..];
    }
  }

  lemma {:induction false} LeqTransitive(a: string, b: string, c: string)
    requires Leq(a, b) && Leq(b, c)
    ensures Leq(a, c)
  {
    if a != "" && a[0] == b[0] == c[0] { LeqTransitive(a[1..], b[1..], c[1..]); }
  }

  predicate IsLeast(k: string, keys: set<string>) { k in keys && forall x | x in keys :: Leq(k, x) }

  lemma {:induction false} LeastExists(keys: set<string>)
    requires keys != {}
    ensures exists k :: IsLeast(k, keys)
    decreases |keys|
  {
    var x :| x in keys;
    var rest := keys - {x};
    LeqTotal(x, x);
    if rest == {} {
      assert keys == {x};
      assert IsLeast(x, keys);
    } else {
      LeastExists(rest);
      var y :| IsLeast(y, rest);
      LeqTotal(x, y);
      if Leq(x, y) {
        forall z | z in keys ensures Leq(x, z) {
          if z != x { LeqTransitive(x, y, z); }
        }
        assert IsLeast(x, keys);
      } else {
        assert IsLeast(y, keys);
      }
    }
  }

  lemma LeastIsUnique(keys: set<string>)
    ensures forall x, y :: IsLeast(x, keys) && IsLeast(y, keys) ==> x == y
  {
    forall x, y | IsLeast(x, keys) && IsLeast(y, keys) ensures x == y { LeqAntisymmetric(x, y); }
  }

  function Least(keys: set<string>): (k: string)
    requires keys != {}
    ensures IsLeast(k, keys)
  {
    LeastExists(keys);
    LeastIsUnique(keys);
    var k :| IsLeast(k, keys);
    k
  }

  /** The keys in ascending order, each once. */
  function Sorted(keys: set<string>): (s: seq<string>)
    ensures forall k :: k in keys <==> k in s
    ensures |s| == |keys|
    decreases |keys|
  {
    if keys == {} then []
    else
      var k := Least(keys);
      [k] + Sorted(keys - {k})
  }

  predicate Ascends(s: seq<string>) { forall i, j :: 0 <= i < j < |s| ==> s[i] != s[j] && Leq(s[i], s[j]) }

  lemma {:induction false} SortedAscends(keys: set<string>)
    ensures Ascends(Sorted(keys))
    decreases |keys|
  {
    if keys != {} {
      var k := Least(keys);
      var rest := Sorted(keys - {k});
      SortedAscends(keys - {k});
      forall i, j | 0 <= i < j < |[k] + rest| ensures ([k] + rest)[i] != ([k] + rest)[j]
        && Leq(([k] + rest)[i], ([k] + rest)[j]) {
        assert ([k] + rest)[j] == rest[j - 1] && rest[j - 1] in keys - {k};
        if i > 0 {
          assert ([k] + rest)[i] == rest[i - 1];
        }
      }
    }
  }
}
