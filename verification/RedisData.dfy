/** The Redis lists and sorted sets the scripts of redis.go work on, as values. */
module RedisData {
  import opened KeyOrder

  /** A sorted-set score: a whole number of seconds, or +inf. */
  datatype Score = Finite(at: int) | Infinity

  datatype Scored = Scored(score: Score, member: string)

  /** A sorted set in rank order. */
  type Zset = seq<Scored>

  predicate AtMost(a: Score, b: Score) { b.Infinity? || (a.Finite? && a.at <= b.at) }

  predicate IsDue(s: Score, now: int) { s.Finite? && s.at <= now }

  function Members(z: Zset): (ms: seq<string>)
    ensures |ms| == |z| && forall i | 0 <= i < |z| :: ms[i] == z[i].member
  {
    seq(|z|, i requires 0 <= i < |z| => z[i].member)
  }

  predicate HasMember(z: Zset, m: string) { exists e :: e in z && e.member == m }

  /** Scores never fall from rank to rank, and no member occurs twice. */
  predicate IsZset(z: Zset) {
    z != [] ==> (forall e | e in z[1..] :: AtMost(z[0].score, e.score) && e.member != z[0].member) && IsZset(z[1..])
  }

  /** Rank order: by score, members of one score in byte order. */
  predicate RanksBefore(a: Scored, b: Scored) {
    !AtMost(b.score, a.score) || (AtMost(a.score, b.score) && !Leq(b.member, a.member))
  }

  /** ZREM of one member. */
  function Zrem(z: Zset, m: string): Zset {
    if z == [] then [] else if z[0].member == m then z[1..] else [z[0]] + Zrem(z[1..], m)
  }

  function Insert(z: Zset, e: Scored): Zset {
    if z == [] || RanksBefore(e, z[0]) then [e] + z else [z[0]] + Insert(z[1..], e)
  }

  /** ZADD: the member leaves its old rank and enters at its new one. */
  function Zadd(z: Zset, s: Score, m: string): Zset { Insert(Zrem(z, m), Scored(s, m)) }

  /** ZRANGEBYSCORE -inf now: every entry that is due, in rank order. */
  function Due(z: Zset, now: int): (r: Zset)
  {
    if z == [] then []
    else if IsDue(z[0].score, now) then [z[0]] + Due(z[1..], now)
    else Due(z[1..], now)
  }

  /** LIMIT 0 batch, where -1 means no limit. */
  function Limit(z: Zset, batch: int): (r: Zset)
    ensures r <= z
  {
    if 0 <= batch < |z| then z[..batch] else z
  }

  /** LREM key 1 v: the first occurrence goes. */
  function RemoveFirst(s: seq<string>, v: string): (r: seq<string>)
    ensures multiset(r) == multiset(s) - multiset{v}
    ensures v !in s ==> r == s
  {
    if s == [] then []
    else if s[0] == v then
      assert s == [s[0]] + s[1..];
      s[1..]
    else
      assert s == [s[0]] + s[1..];
      [s[0]] + RemoveFirst(s[1..], v)
  }

  // ---------- Sorted sets stay sorted sets ----------

  /** ZREM removes the entry of its member and no other. */
  lemma {:induction false} ZremIs(z: Zset, m: string)
    requires IsZset(z)
    ensures IsZset(Zrem(z, m))
    ensures forall e :: e in Zrem(z, m) <==> e in z && e.member != m
    ensures |Zrem(z, m)| == if HasMember(z, m) then |z| - 1 else |z|
  {
    if z != [] && z[0].member != m {
      ZremIs(z[1..], m);
      assert HasMember(z, m) <==> HasMember(z[1..], m);
    }
  }

  lemma {:induction false} InsertIs(z: Zset, e: Scored)
    requires IsZset(z) && !HasMember(z, e.member)
    ensures IsZset(Insert(z, e)) && |Insert(z, e)| == |z| + 1
    ensures forall x :: x in Insert(z, e) <==> x in z || x == e
  {
    if z == [] || RanksBefore(e, z[0]) {
      assert ([e] + z)[1..] == z;
    } else {
      assert !HasMember(z[1..], e.member) by { assert forall x | x in z[1..] :: x in z; }
      InsertIs(z[1..], e);
      assert ([z[0]] + Insert(z[1..], e))[1..] == Insert(z[1..], e);
    }
  }

  /** ZADD: the member is there afterwards with its new score, and every other entry stays. */
  lemma ZaddIs(z: Zset, s: Score, m: string)
    requires IsZset(z)
    ensures IsZset(Zadd(z, s, m))
    ensures forall e :: e in Zadd(z, s, m) <==> e == Scored(s, m) || (e in z && e.member != m)
    ensures |Zadd(z, s, m)| == if HasMember(z, m) then |z| else |z| + 1
  {
    ZremIs(z, m);
    InsertIs(Zrem(z, m), Scored(s, m));
  }

  /** Every entry ranks before those after it. */
  predicate AreRanked(z: Zset) {
    forall i, j :: 0 <= i < j < |z| ==> RanksBefore(z[i], z[j])
  }

  lemma RanksTransitive(a: Scored, b: Scored, c: Scored)
    requires RanksBefore(a, b) && RanksBefore(b, c)
    ensures RanksBefore(a, c)
  {
    hide Leq;
    LeqTotal(a.member, b.member);
    if !Leq(b.member, a.member) && Leq(c.member, a.member) { LeqTransitive(c.member, a.member, b.member); }
  }

  lemma RanksTotal(a: Scored, b: Scored)
    requires a.member != b.member
    ensures RanksBefore(a, b) || RanksBefore(b, a)
  {
    LeqTotal(a.member, b.member);
    if Leq(a.member, b.member) && Leq(b.member, a.member) { LeqAntisymmetric(a.member, b.member); }
    hide Leq;
  }

  lemma {:induction false} InsertKeepsRanks(z: Zset, e: Scored)
    requires AreRanked(z) && !HasMember(z, e.member)
    ensures AreRanked(Insert(z, e)) && forall x :: x in Insert(z, e) ==> x in z || x == e
  {
    hide RanksBefore;
    if z != [] {
      if RanksBefore(e, z[0]) {
        forall j | 0 < j < |z| ensures RanksBefore(e, z[j]) { RanksTransitive(e, z[0], z[j]); }
      } else {
        assert z[0] in z;
        RanksTotal(e, z[0]);
        assert !HasMember(z[1..], e.member) by { assert forall x | x in z[1..] :: x in z; }
        InsertKeepsRanks(z[1..], e);
        forall x | x in Insert(z[1..], e) ensures RanksBefore(z[0], x) {}
      }
    }
  }

  lemma {:induction false} ZremKeepsRanks(z: Zset, m: string)
    requires AreRanked(z)
    ensures AreRanked(Zrem(z, m)) && forall x :: x in Zrem(z, m) ==> x in z
    ensures IsZset(z) ==> !HasMember(Zrem(z, m), m)
  {
    hide RanksBefore;
    if z != [] && z[0].member != m {
      ZremKeepsRanks(z[1..], m);
      forall x | x in Zrem(z[1..], m) ensures RanksBefore(z[0], x) {}
    }
  }

  /** ZADD keeps the rank order: by score, and by the bytes of the member where scores are equal. */
  lemma ZaddRanks(z: Zset, s: Score, m: string)
    requires IsZset(z) && AreRanked(z)
    ensures AreRanked(Zadd(z, s, m))
  {
    ZremKeepsRanks(z, m);
    InsertKeepsRanks(Zrem(z, m), Scored(s, m));
    hide IsZset, AreRanked, Insert, Zrem;
  }

  // ---------- Lists ----------

  predicate IsFirst(s: seq<string>, v: string, i: nat) { i < |s| && s[i] == v && v !in s[..i] }

  lemma {:induction false} RemoveHead(s: seq<string>, v: string)
    requires s != []
    ensures RemoveFirst(s, v) == if s[0] == v then s[1..] else [s[0]] + RemoveFirst(s[1..], v)
  {
  }

  lemma FirstFurther(s: seq<string>, v: string, i: nat)
    requires IsFirst(s, v, i) && i > 0
    ensures s[0] != v && IsFirst(s[1..], v, i - 1)
    ensures s[..i] == [s[0]] + s[1..][..i - 1] && s[1..][i..] == s[i + 1..]
  {
    assert s[..i][0] == s[0] && s[..i][1..] == s[1..][..i - 1];
  }

  /** LREM takes away the first occurrence: all before it and all after it stays, in order. */
  lemma {:induction false} RemoveFirstIs(s: seq<string>, v: string, i: nat)
    requires IsFirst(s, v, i)
    ensures RemoveFirst(s, v) == s[..i] + s[i + 1..]
  {
    hide RemoveFirst;
    RemoveHead(s, v);
    if i > 0 {
      FirstFurther(s, v, i);
      RemoveFirstIs(s[1..], v, i - 1);
    } else {
      assert s[..0] == [];
    }
  }

  // ---------- What is due is a prefix ----------

  /** In rank order the due entries come first, so removing by rank removes exactly what was ranged
      by score. */
  lemma {:induction false} DueIsPrefix(z: Zset, now: int)
    requires IsZset(z)
    ensures |Due(z, now)| <= |z|
    ensures Due(z, now) == z[..|Due(z, now)|]
    ensures forall i | |Due(z, now)| <= i < |z| :: !IsDue(z[i].score, now)
  {
    if z != [] {
      var t := z[1..];
      DueIsPrefix(t, now);
      var n := |Due(z, now)|;
      if IsDue(z[0].score, now) {
        assert z[..n] == [z[0]] + t[..n - 1];
        forall i | n <= i < |z| ensures !IsDue(z[i].score, now) { assert z[i] == t[i - 1]; }
      } else {
        forall i | 0 <= i < |z| ensures !IsDue(z[i].score, now) { assert i > 0 ==> z[i] in t; }
        NothingDue(z, now);
      }
    }
  }

  lemma {:induction false} DueAre(z: Zset, now: int)
    ensures forall i | 0 <= i < |Due(z, now)| :: IsDue(Due(z, now)[i].score, now)
  {
    if z != [] {
      DueAre(z[1..], now);
    }
  }

  lemma {:induction false} NothingDue(z: Zset, now: int)
    requires forall i | 0 <= i < |z| :: !IsDue(z[i].score, now)
    ensures Due(z, now) == []
  {
    if z != [] { NothingDue(z[1..], now); }
  }

  lemma {:induction false} SuffixIsZset(z: Zset, n: nat)
    requires IsZset(z) && n <= |z|
    ensures IsZset(z[n..])
  {
    if n > 0 {
      SuffixIsZset(z[1..], n - 1);
      assert z[n..] == z[1..][n - 1..];
    }
  }
}
