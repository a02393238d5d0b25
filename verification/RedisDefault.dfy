/** The default Redis layout of redis.go. */
module RedisDefault {
  // A ready list, a processing list and a sorted set of reservation deadlines. Every reservation writes a
  // deadline member `<token>:<raw>`; only the holder of that member may settle the item, and a sweep returns
  // expired items to the ready list.

  import opened Wrappers
  import opened RedisData

  const TOKEN_LENGTH: nat := 32

  /** The keys of one queue and of its dead-letter queue. */
  datatype Keys = Keys(ready: seq<string>, processing: seq<string>, deadlines: Zset, dlq: seq<string>)

  /** legacyHandle: the stored value and the token of its deadline member. */
  datatype Handle = Handle(raw: string, token: string)

  function MemberOf(h: Handle): string { h.token + ":" + h.raw }

  predicate IsToken(t: string) { |t| == TOKEN_LENGTH }

  /** The sweep's test for `<32 byte token>:<raw>`; it takes a member for malformed when raw is empty. */
  predicate LooksLikeMember(m: string) { |m| >= TOKEN_LENGTH + 2 && m[TOKEN_LENGTH] == ':' }

  function RawOf(m: string): string { if |m| > TOKEN_LENGTH then m[TOKEN_LENGTH + 1..] else "" }

  lemma MemberParts(h: Handle)
    requires IsToken(h.token)
    ensures RawOf(MemberOf(h)) == h.raw
    ensures MemberOf(h)[..TOKEN_LENGTH] == h.token
    ensures LooksLikeMember(MemberOf(h)) <==> h.raw != ""
  {
  }

  lemma MemberIsInjective(g: Handle, h: Handle)
    requires IsToken(g.token) && IsToken(h.token) && MemberOf(g) == MemberOf(h)
    ensures g == h
  {
    MemberParts(g);
    MemberParts(h);
  }

  // ---------- The scripts as functions of the keys ----------

  function PublishTo(k: Keys, v: string): Keys { k.(ready := k.ready + [v]) }

  /** legacyReserveScript. */
  function ReserveFrom(k: Keys, deadline: Score, token: string): (Keys, Option<string>) {
    if k.ready == [] then (k, None)
    else
      var raw := k.ready[0];
      (k.(ready := k.ready[1..], processing := k.processing + [raw],
          deadlines := Zadd(k.deadlines, deadline, MemberOf(Handle(raw, token)))), Some(raw))
  }

  /** One member of legacySweepScript. */
  function SweepMember(k: Keys, m: string): Keys {
    var j :=
      if LooksLikeMember(m) && RawOf(m) in k.processing then
        k.(processing := RemoveFirst(k.processing, RawOf(m)), ready := k.ready + [RawOf(m)])
      else k;
    j.(deadlines := Zrem(k.deadlines, m))
  }

  function SweepMembers(k: Keys, ms: seq<string>): Keys
    decreases |ms|
  {
    if ms == [] then k else SweepMembers(SweepMember(k, ms[0]), ms[1..])
  }

  function SweepOf(k: Keys, now: int, batch: int): Keys {
    SweepMembers(k, Members(Limit(Due(k.deadlines, now), batch)))
  }

  /** The gate of legacyAckScript and legacyMoveScript. */
  predicate Holds(k: Keys, h: Handle) { HasMember(k.deadlines, MemberOf(h)) }

  function Settle(k: Keys, h: Handle): Keys {
    k.(deadlines := Zrem(k.deadlines, MemberOf(h)), processing := RemoveFirst(k.processing, h.raw))
  }

  datatype Destination = ToReady | ToDeadLetter

  function PushTo(k: Keys, d: Destination, body: string): Keys {
    match d
    case ToReady => k.(ready := k.ready + [body])
    case ToDeadLetter => k.(dlq := k.dlq + [body])
  }

  function AckOf(k: Keys, h: Handle): Keys { if Holds(k, h) then Settle(k, h) else k }

  function MoveOf(k: Keys, h: Handle, d: Destination, body: string): Keys {
    if Holds(k, h) then PushTo(Settle(k, h), d, body) else k
  }

  // ---------- The scripts, step by step on shared keys ----------

  class Server {
    var ready: seq<string>
    var processing: seq<string>
    var deadlines: Zset
    var dlq: seq<string>

    ghost function State(): Keys
      reads this
    {
      Keys(ready, processing, deadlines, dlq)
    }

    /** RPUSH of a published value. */
    method Publish(v: string)
      modifies this
      ensures State() == PublishTo(old(State()), v)
    {
      ready := ready + [v];
    }

    method Reserve(deadline: Score, token: string) returns (raw: Option<string>)
      modifies this
      ensures (State(), raw) == ReserveFrom(old(State()), deadline, token)
    {
      if ready == [] {
        return None;
      }
      var head := ready[0];
      ready := ready[1..];
      processing := processing + [head];
      deadlines := Zadd(deadlines, deadline, token + ":" + head);
      return Some(head);
    }

    /** The loop of legacySweepScript over the members it ranged. */
    method Sweep(now: int, batch: int) returns (moved: nat)
      modifies this
      ensures State() == SweepOf(old(State()), now, batch)
      ensures |ready| == |old(ready)| + moved
    {
      var members := Members(Limit(Due(deadlines, now), batch));
      hide Due, Limit, Members, Zrem;
      moved := 0;
      for i := 0 to |members|
        invariant SweepMembers(State(), members[i..]) == SweepOf(old(State()), now, batch)
        invariant |ready| == |old(ready)| + moved
      {
        var m := members[i];
        assert members[i..][0] == m && members[i..][1..] == members[i + 1..];
        if |m| >= 34 && m[32] == ':' {
          var raw := m[33..];
          if raw in processing {
            processing := RemoveFirst(processing, raw);
            ready := ready + [raw];
            moved := moved + 1;
          }
        }
        deadlines := Zrem(deadlines, m);
      }
      assert members[|members|..] == [];
    }

    method Ack(token: string, raw: string) returns (n: nat)
      modifies this
      ensures State() == AckOf(old(State()), Handle(raw, token))
      ensures n == if old(Holds(State(), Handle(raw, token))) then 1 else 0
    {
      var m := token + ":" + raw;
      assert m == MemberOf(Handle(raw, token));
      if !HasMember(deadlines, m) {
        return 0;
      }
      deadlines := Zrem(deadlines, m);
      processing := RemoveFirst(processing, raw);
      return 1;
    }

    /** legacyMoveScript, with the ready list or the dead-letter queue as its destination. */
    method Move(token: string, raw: string, d: Destination, body: string) returns (n: nat)
      modifies this
      ensures State() == MoveOf(old(State()), Handle(raw, token), d, body)
      ensures n == if old(Holds(State(), Handle(raw, token))) then 1 else 0
    {
      var m := token + ":" + raw;
      assert m == MemberOf(Handle(raw, token));
      if !HasMember(deadlines, m) {
        return 0;
      }
      deadlines := Zrem(deadlines, m);
      processing := RemoveFirst(processing, raw);
      if d.ToReady? {
        ready := ready + [body];
      } else {
        dlq := dlq + [body];
      }
      return 1;
    }
  }

  // ---------- Runs of many consumers ----------

  /**
    The server and what happened so far: `issued` are all handles ever handed to a consumer (a
    consumer may use one late, or crash and never use it), `accepted` every value ever pushed to the
    ready list by a publish or a release, `settled` the handles whose reservation ended,
    `finished` the raw values those ends took away for good (ack, release, dead-letter), and `stranded`
    the number of empty bodies a sweep has left in processing.
   */
  datatype World = World(
    k: Keys,
    issued: set<Handle>,
    settled: multiset<Handle>,
    accepted: multiset<string>,
    finished: multiset<string>,
    stranded: nat)

  datatype Step =
    | Publish(v: string)
    | Reserve(deadline: Score, token: string)
    | Sweep(now: int, batch: int)
    | Ack(h: Handle)
    | Release(h: Handle, body: string)
    | DeadLetter(h: Handle, body: string)

  /** What the clients guarantee: tokens are fresh, handles were handed out. */
  predicate Enabled(w: World, s: Step) {
    match s
    case Publish(_) => true
    case Reserve(_, token) => IsToken(token) && forall h | h in w.issued :: h.token != token
    case Sweep(_, batch) => batch == -1 || batch > 0
    case Ack(h) => h in w.issued
    case Release(h, _) => h in w.issued
    case DeadLetter(h, _) => h in w.issued
  }

  /** The handle a deadline member stands for. */
  function HandleOf(m: string): Handle {
    Handle(RawOf(m), if |m| >= TOKEN_LENGTH then m[..TOKEN_LENGTH] else m)
  }

  function HandlesOf(ms: seq<string>): multiset<Handle> {
    if ms == [] then multiset{} else multiset{HandleOf(ms[0])} + HandlesOf(ms[1..])
  }

  function Next(w: World, s: Step): World {
    match s
    case Publish(v) => w.(k := PublishTo(w.k, v), accepted := w.accepted + multiset{v})
    case Reserve(deadline, token) =>
      var (k, raw) := ReserveFrom(w.k, deadline, token);
      if raw.None? then w else w.(k := k, issued := w.issued + {Handle(raw.value, token)})
    case Sweep(now, batch) => Swept(w, Members(Limit(Due(w.k.deadlines, now), batch)))
    case Ack(h) =>
      if Holds(w.k, h) then Finish(w, h).(k := AckOf(w.k, h)) else w
    case Release(h, body) =>
      if Holds(w.k, h) then
        Finish(w, h).(k := MoveOf(w.k, h, ToReady, body), accepted := w.accepted + multiset{body})
      else w
    case DeadLetter(h, body) =>
      if Holds(w.k, h) then Finish(w, h).(k := MoveOf(w.k, h, ToDeadLetter, body)) else w
  }

  function Finish(w: World, h: Handle): World {
    w.(settled := w.settled + multiset{h}, finished := w.finished + multiset{h.raw})
  }

  /** World after sweeping the members `ms`. */
  function Swept(w: World, ms: seq<string>): World {
    w.(k := SweepMembers(w.k, ms), settled := w.settled + HandlesOf(ms), stranded := w.stranded + EmptyOnes(ms))
  }

  /** The number of members with an empty body. */
  function EmptyOnes(ms: seq<string>): nat {
    if ms == [] then 0 else (if RawOf(ms[0]) == "" then 1 else 0) + EmptyOnes(ms[1..])
  }

  /** n empty bodies. */
  function Empties(n: nat): multiset<string> { multiset{}["" := n] }

  /** The raw values of the deadline members. */
  function Raws(z: Zset): multiset<string> {
    if z == [] then multiset{} else multiset{RawOf(z[0].member)} + Raws(z[1..])
  }

  /** The deadline set is a set of issued handles. */
  ghost predicate Shape(w: World) {
    && IsZset(w.k.deadlines)
    && (forall e | e in w.k.deadlines :: IsIssued(w, e.member))
    && (forall h | h in w.issued :: IsToken(h.token))
  }

  predicate IsIssued(w: World, m: string) { HandleOf(m) in w.issued && MemberOf(HandleOf(m)) == m }

  /**
    Nothing appears or disappears. `unreserved` are the processing items of an older version, which
    have no deadline member and are never touched.
   */
  predicate Balanced(w: World, unreserved: multiset<string>) {
    && multiset(w.k.processing) == unreserved + Raws(w.k.deadlines) + Empties(w.stranded)
    && w.accepted + unreserved == multiset(w.k.ready) + multiset(w.k.processing) + w.finished
  }

  /** No reservation ended twice, and one that ended is not held any more. */
  ghost predicate SettledOnce(w: World) {
    && (forall h :: w.settled[h] <= 1)
    && (forall h | h in w.settled :: h in w.issued && !Holds(w.k, h))
  }

  ghost predicate Inv(w: World, unreserved: multiset<string>) {
    Shape(w) && Balanced(w, unreserved) && SettledOnce(w)
  }

  lemma HandleOfMember(h: Handle)
    requires IsToken(h.token)
    ensures HandleOf(MemberOf(h)) == h
  {
    MemberParts(h);
  }

  lemma {:induction false} RawsZrem(z: Zset, m: string)
    requires IsZset(z) && HasMember(z, m)
    ensures Raws(z) == Raws(Zrem(z, m)) + multiset{RawOf(m)}
  {
    if z[0].member != m {
      RawsZrem(z[1..], m);
      assert ([z[0]] + Zrem(z[1..], m))[1..] == Zrem(z[1..], m);
    }
  }

  lemma {:induction false} RawsInsert(z: Zset, e: Scored)
    ensures Raws(Insert(z, e)) == Raws(z) + multiset{RawOf(e.member)}
  {
    if z == [] || RanksBefore(e, z[0]) {
      assert ([e] + z)[1..] == z;
    } else {
      RawsInsert(z[1..], e);
      assert ([z[0]] + Insert(z[1..], e))[1..] == Insert(z[1..], e);
    }
  }

  lemma {:induction false} ZremAbsent(z: Zset, m: string)
    requires !HasMember(z, m)
    ensures Zrem(z, m) == z
  {
    if z != [] {
      assert z[0] in z;
      ZremAbsent(z[1..], m);
    }
  }

  // ---------- Settling one handle ----------

  lemma HeldAfterSettle(k: Keys, h: Handle, g: Handle)
    requires IsZset(k.deadlines) && IsToken(h.token) && IsToken(g.token)
    ensures Holds(Settle(k, h), g) <==> Holds(k, g) && g != h
  {
    ZremIs(k.deadlines, MemberOf(h));
    if MemberOf(g) == MemberOf(h) {
      MemberIsInjective(g, h);
    }
  }

  lemma SettleShape(w: World, h: Handle)
    requires Shape(w) && h in w.issued
    ensures Shape(Finish(w, h).(k := Settle(w.k, h)))
  {
    ZremIs(w.k.deadlines, MemberOf(h));
    var v := Finish(w, h).(k := Settle(w.k, h));
    forall e | e in v.k.deadlines ensures IsIssued(v, e.member) {
      assert IsIssued(w, e.member);
    }
  }

  /** A held handle has its item in processing, so settling takes exactly one copy away. */
  lemma SettleBalance(w: World, h: Handle, u: multiset<string>)
    requires Shape(w) && Balanced(w, u) && h in w.issued && Holds(w.k, h)
    ensures Balanced(Finish(w, h).(k := Settle(w.k, h)), u)
  {
    MemberParts(h);
    RawsZrem(w.k.deadlines, MemberOf(h));
    Unbalanced(multiset(w.k.ready), multiset(w.k.processing), u, Raws(Zrem(w.k.deadlines, MemberOf(h))),
               Empties(w.stranded), w.finished, h.raw);
    hide Raws, Zrem, IsZset, Shape, Empties, MemberOf, RawOf, Holds, RemoveFirst;
  }

  /** Taking x from processing, with its deadline member, and finishing it leaves both balances. */
  lemma Unbalanced<T>(
      r: multiset<T>, p: multiset<T>, u: multiset<T>, d: multiset<T>, e: multiset<T>, f: multiset<T>, x: T)
    requires p == u + (d + multiset{x}) + e
    ensures p - multiset{x} == u + d + e && r + p + f == r + (p - multiset{x}) + (f + multiset{x})
  {
  }

  lemma SettleOnce(w: World, h: Handle)
    requires Shape(w) && SettledOnce(w) && h in w.issued && Holds(w.k, h)
    ensures SettledOnce(Finish(w, h).(k := Settle(w.k, h)))
  {
    var v := Finish(w, h).(k := Settle(w.k, h));
    forall g | g in v.settled ensures g in v.issued && !Holds(v.k, g) {
      assert g in w.settled || g == h;
      HeldAfterSettle(w.k, h, g);
    }
  }

  lemma FinishKeeps(w: World, h: Handle, u: multiset<string>)
    requires Inv(w, u) && h in w.issued && Holds(w.k, h)
    ensures Inv(Finish(w, h).(k := Settle(w.k, h)), u)
  {
    SettleShape(w, h);
    SettleBalance(w, h, u);
    SettleOnce(w, h);
  }

  // ---------- Reserving ----------

  /** What a reservation adds: one handle that was never issued, with its member. */
  lemma ReserveParts(w: World, deadline: Score, h: Handle)
    requires Shape(w) && IsToken(h.token) && forall g | g in w.issued :: g.token != h.token
    ensures var z := Zadd(w.k.deadlines, deadline, MemberOf(h));
      && IsZset(z) && Raws(z) == Raws(w.k.deadlines) + multiset{h.raw}
      && (forall e :: e in z <==> e in w.k.deadlines || e == Scored(deadline, MemberOf(h)))
      && (forall g: Handle | IsToken(g.token) :: HasMember(z, MemberOf(g)) <==> Holds(w.k, g) || g == h)
  {
    var m := MemberOf(h);
    HandleOfMember(h);
    MemberParts(h);
    forall e | e in w.k.deadlines ensures e.member != m { assert IsIssued(w, e.member); }
    ZremAbsent(w.k.deadlines, m);
    ZaddIs(w.k.deadlines, deadline, m);
    RawsInsert(w.k.deadlines, Scored(deadline, m));
    var z := Zadd(w.k.deadlines, deadline, m);
    forall g: Handle | IsToken(g.token) ensures HasMember(z, MemberOf(g)) <==> Holds(w.k, g) || g == h {
      if MemberOf(g) == m { MemberIsInjective(g, h); }
      assert Scored(deadline, m) in z;
      if HasMember(z, MemberOf(g)) {
        var e :| e in z && e.member == MemberOf(g);
      }
    }
  }

  /** A reservation that found an item. */
  function Reserved(w: World, deadline: Score, h: Handle): World
    requires w.k.ready != []
  {
    w.(k := w.k.(ready := w.k.ready[1..], processing := w.k.processing + [h.raw],
                 deadlines := Zadd(w.k.deadlines, deadline, MemberOf(h))), issued := w.issued + {h})
  }

  lemma ReserveKeeps(w: World, deadline: Score, token: string, u: multiset<string>)
    requires Inv(w, u) && Enabled(w, Reserve(deadline, token))
    ensures Inv(Next(w, Reserve(deadline, token)), u)
  {
    if w.k.ready != [] {
      var h := Handle(w.k.ready[0], token);
      ReserveKeepsShape(w, deadline, h);
      ReserveKeepsBalance(w, deadline, h, u);
      ReserveKeepsSettled(w, deadline, h);
    }
    hide Shape, Balanced, SettledOnce, Zadd;
  }

  lemma ReserveKeepsShape(w: World, deadline: Score, h: Handle)
    requires Shape(w) && w.k.ready != [] && IsToken(h.token) && forall g | g in w.issued :: g.token != h.token
    ensures Shape(Reserved(w, deadline, h))
  {
    ReserveParts(w, deadline, h);
    HandleOfMember(h);
    hide Zadd, IsZset, HandleOf;
    var v := Reserved(w, deadline, h);
    assert IsIssued(v, MemberOf(h));
    forall e | e in v.k.deadlines ensures IsIssued(v, e.member) {
      assert e in w.k.deadlines ==> IsIssued(w, e.member);
    }
  }

  lemma ReserveKeepsBalance(w: World, deadline: Score, h: Handle, u: multiset<string>)
    requires Shape(w) && Balanced(w, u) && w.k.ready != [] && w.k.ready[0] == h.raw
    requires IsToken(h.token) && forall g | g in w.issued :: g.token != h.token
    ensures Balanced(Reserved(w, deadline, h), u)
  {
    ReserveParts(w, deadline, h);
    Front(w.k.ready);
    assert multiset(w.k.processing + [h.raw]) == multiset(w.k.processing) + multiset{h.raw};
    Rebalanced(multiset(w.k.ready[1..]), multiset(w.k.processing), u, Raws(w.k.deadlines), Empties(w.stranded),
               w.finished, h.raw);
    hide Zadd, Raws, IsZset, Shape, Empties;
  }

  lemma Front<T>(s: seq<T>)
    requires s != []
    ensures multiset(s) == multiset(s[1..]) + multiset{s[0]}
  {
    assert s == [s[0]] + s[1..];
  }

  /** Moving x from the ready list to processing, with a deadline member, leaves both balances. */
  lemma Rebalanced<T>(
      r: multiset<T>, p: multiset<T>, u: multiset<T>, d: multiset<T>, e: multiset<T>, f: multiset<T>, x: T)
    ensures r + multiset{x} + p + f == r + (p + multiset{x}) + f
    ensures u + d + e + multiset{x} == u + (d + multiset{x}) + e
  {
  }

  lemma ReserveKeepsSettled(w: World, deadline: Score, h: Handle)
    requires Shape(w) && SettledOnce(w) && w.k.ready != []
    requires IsToken(h.token) && forall g | g in w.issued :: g.token != h.token
    ensures SettledOnce(Reserved(w, deadline, h))
  {
    ReserveParts(w, deadline, h);
    hide Zadd, Raws, IsZset, HandleOf;
    var v := Reserved(w, deadline, h);
    forall g | g in v.settled ensures g in v.issued && !Holds(v.k, g) { assert g in w.settled; }
  }

  // ---------- Sweeping ----------

  /** The sweep of one member settles its handle and gives a body back to the ready list; an empty one stays in
      processing. */
  lemma SweepMemberIs(w: World, m: string, u: multiset<string>)
    requires Shape(w) && Balanced(w, u) && HasMember(w.k.deadlines, m)
    ensures var h := HandleOf(m);
      && h in w.issued && MemberOf(h) == m && Holds(w.k, h) && RawOf(m) == h.raw
      && SweepMember(w.k, m) ==
        if h.raw != "" then PushTo(Settle(w.k, h), ToReady, h.raw) else w.k.(deadlines := Zrem(w.k.deadlines, m))
  {
    var h := HandleOf(m);
    var e :| e in w.k.deadlines && e.member == m;
    assert IsIssued(w, e.member);
    MemberParts(h);
    RawsZrem(w.k.deadlines, m);
    assert h.raw in multiset(w.k.processing);
  }

  lemma PushBalance(w: World, v: string, u: multiset<string>)
    requires Balanced(w, u)
    ensures Balanced(w.(k := PushTo(w.k, ToReady, v), accepted := w.accepted + multiset{v}), u)
    ensures v in w.finished ==> Balanced(w.(k := PushTo(w.k, ToReady, v), finished := w.finished - multiset{v}), u)
  {
    var r, p, f := multiset(w.k.ready), multiset(w.k.processing), w.finished;
    assert multiset(w.k.ready + [v]) == r + multiset{v};
    assert w.accepted + multiset{v} + u == (w.accepted + u) + multiset{v};
    assert (r + multiset{v}) + p + f == (r + p + f) + multiset{v};
    if v in f {
      assert f == (f - multiset{v}) + multiset{v};
      assert (r + multiset{v}) + p + (f - multiset{v}) == r + p + f;
    }
  }

  /** Giving a body to the ready list, and counting it where the balance needs it. */
  lemma PushKeeps(w: World, v: string, u: multiset<string>)
    requires Inv(w, u)
    ensures Inv(w.(k := PushTo(w.k, ToReady, v), accepted := w.accepted + multiset{v}), u)
    ensures v in w.finished ==> Inv(w.(k := PushTo(w.k, ToReady, v), finished := w.finished - multiset{v}), u)
  {
    PushBalance(w, v, u);
    hide Balanced;
    var x := w.(k := PushTo(w.k, ToReady, v), accepted := w.accepted + multiset{v});
    var y := w.(k := PushTo(w.k, ToReady, v), finished := w.finished - multiset{v});
    forall e | e in w.k.deadlines ensures IsIssued(x, e.member) && IsIssued(y, e.member) {
      assert IsIssued(w, e.member);
    }
    forall h | h in w.settled ensures !Holds(x.k, h) && !Holds(y.k, h) { assert !Holds(w.k, h); }
  }

  /** An empty body that is swept loses its deadline member and is counted as stranded. */
  function Stranded(w: World, h: Handle): World {
    w.(k := w.k.(deadlines := Zrem(w.k.deadlines, MemberOf(h))), settled := w.settled + multiset{h},
       stranded := w.stranded + 1)
  }

  lemma StrandingKeeps(w: World, h: Handle, u: multiset<string>)
    requires Inv(w, u) && h in w.issued && Holds(w.k, h) && h.raw == ""
    ensures Inv(Stranded(w, h), u)
  {
    hide Zrem, Balanced, IsZset, RemoveFirst, HasMember, MemberOf;
    StrandingBalance(w, h, u);
    SettleShape(w, h);
    SettleOnce(w, h);
    StrandedAsSettled(w, h);
    hide Stranded, Finish, Settle;
    var v := Finish(w, h).(k := Settle(w.k, h));
    forall e | e in v.k.deadlines ensures IsIssued(Stranded(w, h), e.member) { assert IsIssued(v, e.member); }
    forall g | g in v.settled ensures !Holds(Stranded(w, h).k, g) { assert !Holds(v.k, g); }
  }

  lemma StrandedAsSettled(w: World, h: Handle)
    ensures var v := Finish(w, h).(k := Settle(w.k, h)); var x := Stranded(w, h);
      x.k.deadlines == v.k.deadlines && x.issued == v.issued && x.settled == v.settled
  {
    hide Zrem, RemoveFirst, MemberOf;
  }

  /** The empty body is one of the stranded ones and no longer one of a deadline member. */
  lemma StrandingBalance(w: World, h: Handle, u: multiset<string>)
    requires Shape(w) && Balanced(w, u) && IsToken(h.token) && Holds(w.k, h) && h.raw == ""
    ensures Balanced(Stranded(w, h), u)
  {
    MemberParts(h);
    RawsZrem(w.k.deadlines, MemberOf(h));
    var d, e := Raws(Zrem(w.k.deadlines, MemberOf(h))), Empties(w.stranded);
    assert Empties(w.stranded + 1) == e + multiset{""};
    assert u + (d + multiset{""}) + e == u + d + (e + multiset{""});
    hide Raws, Zrem, IsZset, Shape, Empties, MemberOf, RawOf, Holds;
  }

  lemma SweepOneKeeps(w: World, m: string, u: multiset<string>)
    requires Inv(w, u) && HasMember(w.k.deadlines, m)
    ensures Inv(Swept(w, [m]), u)
    ensures forall x :: HasMember(Swept(w, [m]).k.deadlines, x) <==> HasMember(w.k.deadlines, x) && x != m
  {
    SweepMemberIs(w, m, u);
    var h := HandleOf(m);
    SweptOne(w, m);
    ZremIs(w.k.deadlines, m);
    if h.raw == "" {
      StrandingKeeps(w, h, u);
    } else {
      FinishKeeps(w, h, u);
      var v := Finish(w, h).(k := Settle(w.k, h));
      PushKeeps(v, h.raw, u);
      assert v.finished - multiset{h.raw} == w.finished;
    }
    hide Inv, Swept, SweepMember, Zrem, HandleOf, MemberOf, RawOf, HasMember;
  }

  lemma SweptOne(w: World, m: string)
    ensures Swept(w, [m]) ==
      w.(k := SweepMember(w.k, m), settled := w.settled + multiset{HandleOf(m)},
         stranded := w.stranded + if RawOf(m) == "" then 1 else 0)
  {
    assert [m][1..] == [];
    assert SweepMembers(w.k, [m]) == SweepMembers(SweepMember(w.k, m), []);
    assert HandlesOf([m]) == multiset{HandleOf(m)} + HandlesOf([]);
    assert EmptyOnes([m]) == (if RawOf(m) == "" then 1 else 0) + EmptyOnes([]);
  }

  lemma SweptNone(w: World)
    ensures Swept(w, []) == w
  {
    assert Swept(w, []).settled == w.settled;
  }

  lemma SweptCons(w: World, ms: seq<string>)
    requires ms != []
    ensures Swept(w, ms) == Swept(Swept(w, [ms[0]]), ms[1..])
  {
    SweptOne(w, ms[0]);
  }

  predicate Distinct(ms: seq<string>) { forall i, j | 0 <= i < j < |ms| :: ms[i] != ms[j] }

  lemma {:induction false} SweepAllKeeps(w: World, ms: seq<string>, u: multiset<string>)
    requires Inv(w, u) && Distinct(ms) && forall i | 0 <= i < |ms| :: HasMember(w.k.deadlines, ms[i])
    ensures Inv(Swept(w, ms), u)
    ensures forall x :: HasMember(Swept(w, ms).k.deadlines, x) <==> HasMember(w.k.deadlines, x) && x !in ms
    decreases |ms|
  {
    hide Inv, HasMember, Swept;
    if ms != [] {
      SweepOneKeeps(w, ms[0], u);
      SweptCons(w, ms);
      var v := Swept(w, [ms[0]]);
      forall i | 0 <= i < |ms[1..]| ensures HasMember(v.k.deadlines, ms[1..][i]) { assert ms[1..][i] == ms[i + 1]; }
      SweepAllKeeps(v, ms[1..], u);
      assert ms == [ms[0]] + ms[1..];
    } else {
      SweptNone(w);
    }
  }

  /** What a sweep ranges are distinct members of the deadline set. */
  lemma RangedMembers(z: Zset, now: int, batch: int)
    requires IsZset(z)
    ensures var ms := Members(Limit(Due(z, now), batch));
      Distinct(ms) && forall i | 0 <= i < |ms| :: HasMember(z, ms[i])
  {
    DueIsPrefix(z, now);
    DistinctMembers(z);
    var l := Limit(Due(z, now), batch);
    forall i | 0 <= i < |l| ensures HasMember(z, l[i].member) && l[i] == z[i] { assert z[i] in z; }
  }

  lemma {:induction false} DistinctMembers(z: Zset)
    requires IsZset(z)
    ensures Distinct(Members(z))
  {
    if z != [] {
      DistinctMembers(z[1..]);
      forall i, j | 0 <= i < j < |z| ensures z[i].member != z[j].member {
        assert z[1..][j - 1] == z[j];
        if i > 0 { assert z[1..][i - 1] == z[i]; assert Members(z[1..])[i - 1] != Members(z[1..])[j - 1]; }
      }
    }
  }

  // ---------- Every step, every run ----------

  /** Every atomic script keeps the invariant, whichever consumer runs it and however late. */
  lemma StepKeeps(w: World, s: Step, u: multiset<string>)
    requires Inv(w, u) && Enabled(w, s)
    ensures Inv(Next(w, s), u)
  {
    match s
    case Publish(v) => PushKeeps(w, v, u);
    case Reserve(deadline, token) => ReserveKeeps(w, deadline, token, u);
    case Sweep(now, batch) =>
      RangedMembers(w.k.deadlines, now, batch);
      SweepAllKeeps(w, Members(Limit(Due(w.k.deadlines, now), batch)), u);
    case Ack(h) => if Holds(w.k, h) { FinishKeeps(w, h, u); }
    case Release(h, body) =>
      if Holds(w.k, h) {
        FinishKeeps(w, h, u);
        PushKeeps(Finish(w, h).(k := Settle(w.k, h)), body, u);
      }
    case DeadLetter(h, body) =>
      if Holds(w.k, h) {
        FinishKeeps(w, h, u);
        DeadLetterPush(Finish(w, h).(k := Settle(w.k, h)), body, u);
      }
  }

  lemma DeadLetterPush(w: World, body: string, u: multiset<string>)
    requires Inv(w, u)
    ensures Inv(w.(k := PushTo(w.k, ToDeadLetter, body)), u)
  {
    var x := w.(k := PushTo(w.k, ToDeadLetter, body));
    forall e | e in w.k.deadlines ensures IsIssued(x, e.member) { assert IsIssued(w, e.member); }
    forall h | h in w.settled ensures !Holds(x.k, h) { assert !Holds(w.k, h); }
  }

  /** A run: every step is enabled where it is taken. */
  predicate IsRun(w: World, steps: seq<Step>)
    decreases |steps|
  {
    steps != [] ==> Enabled(w, steps[0]) && IsRun(Next(w, steps[0]), steps[1..])
  }

  function After(w: World, steps: seq<Step>): World
    decreases |steps|
  {
    if steps == [] then w else After(Next(w, steps[0]), steps[1..])
  }

  /** A queue that this version starts with, which may hold items of an older version in processing. */
  predicate IsStart(w: World) {
    && w.k.deadlines == [] && w.issued == {} && w.settled == multiset{} && w.finished == multiset{} && w.stranded == 0
    && w.accepted == multiset(w.k.ready)
  }

  lemma {:induction false} RunKeeps(w: World, steps: seq<Step>, u: multiset<string>)
    requires Inv(w, u) && IsRun(w, steps)
    ensures Inv(After(w, steps), u)
    decreases |steps|
  {
    if steps != [] {
      StepKeeps(w, steps[0], u);
      RunKeeps(Next(w, steps[0]), steps[1..], u);
    }
  }

  lemma Cancel<T>(a: multiset<T>, b: multiset<T>, u: multiset<T>)
    requires a + u == b + u
    ensures a == b
  {
    assert a == (a + u) - u;
    assert b == (b + u) - u;
  }

  /**
    Over every interleaving: processing holds exactly the bodies of the deadline members, the old items
    and the stranded empty bodies, and every accepted value is ready, in processing, or was taken away by
    one ack, release or dead-letter. Only as many are stranded as empty bodies were accepted.
   */
  lemma RunConserves(w: World, steps: seq<Step>)
    requires IsStart(w) && IsRun(w, steps)
    ensures var v := After(w, steps); var before := multiset(w.k.processing);
      && multiset(v.k.processing) == before + Raws(v.k.deadlines) + Empties(v.stranded)
      && v.accepted == multiset(v.k.ready) + Raws(v.k.deadlines) + Empties(v.stranded) + v.finished
      && v.stranded <= v.accepted[""]
      && forall h :: v.settled[h] <= 1
  {
    hide *;
    var u := multiset(w.k.processing);
    var v := After(w, steps);
    StartKeeps(w);
    RunKeeps(w, steps, u);
    InvBalances(v, u);
    EmptiesAre(v.stranded);
    Regroup(multiset(v.k.ready), u, Raws(v.k.deadlines), Empties(v.stranded), v.finished, v.accepted);
  }

  lemma StartKeeps(w: World)
    requires IsStart(w)
    ensures Inv(w, multiset(w.k.processing))
  {
    var u := multiset(w.k.processing);
    assert w.accepted + u == multiset(w.k.ready) + u + multiset{};
  }

  lemma InvBalances(w: World, u: multiset<string>)
    requires Inv(w, u)
    ensures multiset(w.k.processing) == u + Raws(w.k.deadlines) + Empties(w.stranded)
    ensures w.accepted + u == multiset(w.k.ready) + (u + Raws(w.k.deadlines) + Empties(w.stranded)) + w.finished
    ensures forall h :: w.settled[h] <= 1
  {
    hide Raws, Empties, Shape;
  }

  lemma EmptiesAre(n: nat)
    ensures Empties(n)[""] == n
  {
  }

  /** The old items stand on both sides. */
  lemma Regroup<T>(r: multiset<T>, u: multiset<T>, d: multiset<T>, e: multiset<T>, f: multiset<T>, a: multiset<T>)
    requires a + u == r + (u + d + e) + f
    ensures a == r + d + e + f && forall x :: e[x] <= a[x]
  {
    assert r + (u + d + e) + f == (r + d + e + f) + u;
    Cancel(a, r + d + e + f, u);
  }

  // ---------- A reservation that ended stays ended ----------

  lemma IssuedGrow(w: World, s: Step, h: Handle, u: multiset<string>)
    requires Inv(w, u) && Enabled(w, s) && h in w.issued && !Holds(w.k, h)
    ensures h in Next(w, s).issued && !Holds(Next(w, s).k, h)
  {
    hide Balanced, SettledOnce, HasMember, Zadd, Zrem, IsZset, RemoveFirst, SweepMembers, MoveOf, AckOf, Holds,
      Members, Limit, Due, HandlesOf, EmptyOnes;
    match s
    case Publish(v) => PushedHolds(w.k, ToReady, v, h);
    case Reserve(deadline, token) => if w.k.ready != [] { ReservedHolds(w, deadline, token, h); }
    case Sweep(now, batch) => SweptHolds(w, now, batch, h, u);
    case Ack(g) => MovedHolds(w, g, h, ToReady, "");
    case Release(g, body) => MovedHolds(w, g, h, ToReady, body);
    case DeadLetter(g, body) => MovedHolds(w, g, h, ToDeadLetter, body);
  }

  lemma SweptHolds(w: World, now: int, batch: int, h: Handle, u: multiset<string>)
    requires Inv(w, u) && Enabled(w, Sweep(now, batch)) && h in w.issued && !Holds(w.k, h)
    ensures !Holds(Swept(w, Members(Limit(Due(w.k.deadlines, now), batch))).k, h)
  {
    RangedMembers(w.k.deadlines, now, batch);
    hide HasMember, IsZset, Members, Limit, Due, Swept, Balanced, SettledOnce, Distinct;
    SweepAllKeeps(w, Members(Limit(Due(w.k.deadlines, now), batch)), u);
  }

  lemma ReservedHolds(w: World, deadline: Score, token: string, h: Handle)
    requires Shape(w) && Enabled(w, Reserve(deadline, token)) && w.k.ready != []
    requires h in w.issued && !Holds(w.k, h)
    ensures !Holds(ReserveFrom(w.k, deadline, token).0, h)
  {
    ReserveParts(w, deadline, Handle(w.k.ready[0], token));
    hide HasMember, Zadd, Raws, IsZset, MemberOf;
  }

  lemma PushedHolds(k: Keys, d: Destination, v: string, h: Handle)
    ensures Holds(PushTo(k, d, v), h) <==> Holds(k, h)
  {
  }

  lemma MovedHolds(w: World, g: Handle, h: Handle, d: Destination, body: string)
    requires Shape(w) && g in w.issued && h in w.issued && !Holds(w.k, h)
    ensures !Holds(MoveOf(w.k, g, d, body), h) && !Holds(AckOf(w.k, g), h)
  {
    HeldAfterSettle(w.k, g, h);
    PushedHolds(Settle(w.k, g), d, body, h);
    hide Settle;
  }

  /**
    Once its deadline member is gone (acked, moved or swept), every later use of the handle changes no
    list at all, so a late consumer can never remove another consumer's identical copy.
   */
  lemma {:induction false} LateHandleDoesNothing(w: World, steps: seq<Step>, h: Handle, u: multiset<string>)
    requires Inv(w, u) && IsRun(w, steps) && h in w.issued && !Holds(w.k, h)
    ensures var v := After(w, steps);
      && h in v.issued
      && Next(v, Ack(h)) == v
      && forall body :: Next(v, Release(h, body)) == v && Next(v, DeadLetter(h, body)) == v
    decreases |steps|
  {
    if steps != [] {
      IssuedGrow(w, steps[0], h, u);
      StepKeeps(w, steps[0], u);
      LateHandleDoesNothing(Next(w, steps[0]), steps[1..], h, u);
    }
  }

  // ---------- The ready list is a queue ----------

  /** What a step puts on the ready list: a published value, a released body, the bodies a sweep gives back, in rank
      order. */
  function Puts(w: World, s: Step): seq<string> {
    match s
    case Publish(v) => [v]
    case Release(h, body) => if Holds(w.k, h) then [body] else []
    case Sweep(now, batch) => Bodies(Members(Limit(Due(w.k.deadlines, now), batch)))
    case _ => []
  }

  /** The bodies of deadline members but for the empty ones. */
  function Bodies(ms: seq<string>): seq<string> {
    if ms == [] then [] else (if RawOf(ms[0]) == "" then [] else [RawOf(ms[0])]) + Bodies(ms[1..])
  }

  /** The body that a step hands to a consumer, if it does. */
  ghost function Takes(w: World, s: Step): seq<string> {
    if h :| h in Next(w, s).issued && h !in w.issued then [h.raw] else []
  }

  /** What a step adds to the dead-letter queue. */
  function Buries(w: World, s: Step): seq<string> {
    if s.DeadLetter? && Holds(w.k, s.h) then [s.body] else []
  }

  function AllPuts(w: World, steps: seq<Step>): seq<string>
    decreases |steps|
  {
    if steps == [] then [] else Puts(w, steps[0]) + AllPuts(Next(w, steps[0]), steps[1..])
  }

  ghost function AllTakes(w: World, steps: seq<Step>): seq<string>
    decreases |steps|
  {
    if steps == [] then [] else Takes(w, steps[0]) + AllTakes(Next(w, steps[0]), steps[1..])
  }

  function AllBuries(w: World, steps: seq<Step>): seq<string>
    decreases |steps|
  {
    if steps == [] then [] else Buries(w, steps[0]) + AllBuries(Next(w, steps[0]), steps[1..])
  }

  lemma {:induction false} SweptReady(w: World, ms: seq<string>, u: multiset<string>)
    requires Inv(w, u) && Distinct(ms) && forall i | 0 <= i < |ms| :: HasMember(w.k.deadlines, ms[i])
    ensures SweepMembers(w.k, ms).ready == w.k.ready + Bodies(ms) && SweepMembers(w.k, ms).dlq == w.k.dlq
    decreases |ms|
  {
    hide Inv, HasMember, Swept, SweepMember, RawOf;
    if ms != [] {
      var first := if RawOf(ms[0]) == "" then [] else [RawOf(ms[0])];
      SweptOneReady(w, ms[0], u);
      SweepOneKeeps(w, ms[0], u);
      var v := Swept(w, [ms[0]]);
      forall i | 0 <= i < |ms[1..]| ensures HasMember(v.k.deadlines, ms[1..][i]) { assert ms[1..][i] == ms[i + 1]; }
      SweptReady(v, ms[1..], u);
      Chained(w.k.ready, first, Bodies(ms[1..]), [], v.k.ready, [], SweepMembers(v.k, ms[1..]).ready);
    }
  }

  lemma SweptOneReady(w: World, m: string, u: multiset<string>)
    requires Inv(w, u) && HasMember(w.k.deadlines, m)
    ensures var j := SweepMember(w.k, m);
      && Swept(w, [m]).k == j && j.dlq == w.k.dlq
      && j.ready == w.k.ready + if RawOf(m) == "" then [] else [RawOf(m)]
  {
    SweepMemberIs(w, m, u);
    SweptOne(w, m);
    hide Shape, Balanced, SettledOnce, HasMember, Zrem, RemoveFirst, MemberOf, RawOf;
  }

  lemma ReserveIsFifo(w: World, s: Step)
    requires s.Reserve? && Enabled(w, s)
    ensures w.k.ready == Takes(w, s) + Next(w, s).k.ready && w.k.dlq == Next(w, s).k.dlq
  {
    hide Zadd;
    if w.k.ready != [] {
      var h := Handle(w.k.ready[0], s.token);
      assert h in Next(w, s).issued && h !in w.issued;
    }
  }

  lemma SweepIsFifo(w: World, s: Step, u: multiset<string>)
    requires s.Sweep? && Inv(w, u) && Enabled(w, s)
    ensures w.k.ready + Puts(w, s) == Next(w, s).k.ready && w.k.dlq == Next(w, s).k.dlq
  {
    RangedMembers(w.k.deadlines, s.now, s.batch);
    hide Balanced, SettledOnce, HasMember, IsZset, Distinct, SweepMembers, Bodies, Members, Limit, Due, HandlesOf;
    SweptReady(w, Members(Limit(Due(w.k.deadlines, s.now), s.batch)), u);
  }

  lemma MovedTo(k: Keys, h: Handle, d: Destination, body: string)
    ensures MoveOf(k, h, d, body).ready == k.ready + if Holds(k, h) && d.ToReady? then [body] else []
    ensures MoveOf(k, h, d, body).dlq == k.dlq + if Holds(k, h) && d.ToDeadLetter? then [body] else []
    ensures AckOf(k, h).ready == k.ready && AckOf(k, h).dlq == k.dlq
  {
    hide Zrem, RemoveFirst, Holds, MemberOf;
  }

  lemma OtherIsFifo(w: World, s: Step)
    requires !s.Reserve? && !s.Sweep?
    ensures w.k.ready + Puts(w, s) == Next(w, s).k.ready && w.k.dlq + Buries(w, s) == Next(w, s).k.dlq
    ensures Next(w, s).issued == w.issued
  {
    hide Holds, MoveOf, AckOf, Members, Limit, Due, SweepMembers, ReserveFrom, HandlesOf, EmptyOnes, Bodies;
    match s
    case Publish(_) =>
    case Ack(h) => MovedTo(w.k, h, ToReady, "");
    case Release(h, body) => MovedTo(w.k, h, ToReady, body);
    case DeadLetter(h, body) => MovedTo(w.k, h, ToDeadLetter, body);
  }

  /** A step takes what it hands out from the front of the ready list and puts what it adds behind the rest. */
  lemma StepIsFifo(w: World, s: Step, u: multiset<string>)
    requires Inv(w, u) && Enabled(w, s)
    ensures w.k.ready + Puts(w, s) == Takes(w, s) + Next(w, s).k.ready
    ensures w.k.dlq + Buries(w, s) == Next(w, s).k.dlq
  {
    hide Inv, Enabled, Next;
    if s.Reserve? {
      ReserveIsFifo(w, s);
    } else if s.Sweep? {
      SweepIsFifo(w, s, u);
      SweepIssuesNone(w, s);
    } else {
      OtherIsFifo(w, s);
    }
  }

  lemma SweepIssuesNone(w: World, s: Step)
    requires s.Sweep?
    ensures Next(w, s).issued == w.issued
  {
    hide SweepMembers, Members, Limit, Due, HandlesOf, EmptyOnes;
  }

  /**
    Over every interleaving, whatever is handed out comes out in the order it was put on the ready list, and the
    dead-letter queue is in the order of the moves to it.
   */
  lemma {:induction false} RunIsFifo(w: World, steps: seq<Step>, u: multiset<string>)
    requires Inv(w, u) && IsRun(w, steps)
    ensures w.k.ready + AllPuts(w, steps) == AllTakes(w, steps) + After(w, steps).k.ready
    ensures w.k.dlq + AllBuries(w, steps) == After(w, steps).k.dlq
    decreases |steps|
  {
    hide Inv, Next, Puts, Takes, Buries, Enabled;
    if steps != [] {
      var v := Next(w, steps[0]);
      StepIsFifo(w, steps[0], u);
      StepKeeps(w, steps[0], u);
      RunIsFifo(v, steps[1..], u);
      Chained(w.k.ready, Puts(w, steps[0]), AllPuts(v, steps[1..]), Takes(w, steps[0]), v.k.ready,
        AllTakes(v, steps[1..]), After(v, steps[1..]).k.ready);
      Chained(w.k.dlq, Buries(w, steps[0]), AllBuries(v, steps[1..]), [], v.k.dlq, [], After(v, steps[1..]).k.dlq);
    }
  }

  lemma Chained<T>(
      ready: seq<T>, put: seq<T>, puts: seq<T>, taken: seq<T>, middle: seq<T>, takes: seq<T>, last: seq<T>)
    requires ready + put == taken + middle && middle + puts == takes + last
    ensures ready + (put + puts) == (taken + takes) + last
  {
    assert ready + (put + puts) == (ready + put) + puts == taken + (middle + puts) == (taken + takes) + last;
  }

  function Published(steps: seq<Step>): seq<string> {
    if steps == [] then [] else (if steps[0].Publish? then [steps[0].v] else []) + Published(steps[1..])
  }

  /** Without sweeps and releases: what was handed out, followed by what is ready, is what was ready at the start,
      followed by the published values. */
  lemma {:induction false} PublishedComesOutInOrder(w: World, steps: seq<Step>)
    requires IsStart(w) && IsRun(w, steps) && forall i :: 0 <= i < |steps| ==> !steps[i].Sweep? && !steps[i].Release?
    ensures AllTakes(w, steps) + After(w, steps).k.ready == w.k.ready + Published(steps)
  {
    hide *;
    StartKeeps(w);
    RunIsFifo(w, steps, multiset(w.k.processing));
    PutsArePublished(w, steps);
  }

  lemma {:induction false} PutsArePublished(w: World, steps: seq<Step>)
    requires forall i :: 0 <= i < |steps| ==> !steps[i].Sweep? && !steps[i].Release?
    ensures AllPuts(w, steps) == Published(steps)
    decreases |steps|
  {
    hide Next;
    if steps != [] {
      forall i | 0 <= i < |steps[1..]| ensures !steps[1..][i].Sweep? && !steps[1..][i].Release? {
        assert steps[1..][i] == steps[i + 1];
      }
      PutsArePublished(Next(w, steps[0]), steps[1..]);
    }
  }

  // ---------- Sweeps make progress ----------

  function DueNow(k: Keys, now: int): nat { |Due(k.deadlines, now)| }

  /** Sweeping the members of a prefix of the deadline set leaves the rest of it. */
  lemma {:induction false} SweepPrefix(k: Keys, n: nat)
    requires IsZset(k.deadlines) && n <= |k.deadlines|
    ensures SweepMembers(k, Members(k.deadlines[..n])).deadlines == k.deadlines[n..]
    decreases n
  {
    var z := k.deadlines;
    var ms := Members(z[..n]);
    if n > 0 {
      assert ms[0] == z[0].member;
      var j := SweepMember(k, ms[0]);
      assert j.deadlines == z[1..];
      assert ms[1..] == Members(z[1..][..n - 1]);
      SweepPrefix(j, n - 1);
      assert z[1..][n - 1..] == z[n..];
    }
  }

  /** Taking due entries off the front leaves the others due. */
  lemma DueOfSuffix(z: Zset, now: int, n: nat)
    requires IsZset(z) && n <= |Due(z, now)|
    ensures |Due(z, now)| <= |z| && |Due(z[n..], now)| == |Due(z, now)| - n
  {
    DueIsPrefix(z, now);
    DueAre(z, now);
    var c := |Due(z, now)|;
    forall i | 0 <= i < c - n ensures IsDue(z[n..][i].score, now) {
      assert z[n..][i] == z[n + i] == Due(z, now)[n + i];
    }
    forall i | c - n <= i < |z| - n ensures !IsDue(z[n..][i].score, now) {
      assert z[n..][i] == z[n + i];
    }
    hide IsZset, Due;
    DueCount(z[n..], now, c - n);
  }

  /** The due entries are counted by where they end. */
  lemma {:induction false} DueCount(z: Zset, now: int, c: nat)
    requires c <= |z| && (forall i | 0 <= i < c :: IsDue(z[i].score, now))
      && (forall i | c <= i < |z| :: !IsDue(z[i].score, now))
    ensures |Due(z, now)| == c
  {
    if z != [] {
      DueCount(z[1..], now, if c > 0 then c - 1 else 0);
    }
  }

  /** One sweep with a positive batch takes that many expired members, or all that are left. */
  lemma SweepProgress(k: Keys, now: int, batch: int)
    requires IsZset(k.deadlines) && (batch == -1 || batch > 0)
    ensures IsZset(SweepOf(k, now, batch).deadlines)
    ensures DueNow(SweepOf(k, now, batch), now) == if 0 < batch < DueNow(k, now) then DueNow(k, now) - batch else 0
  {
    var z := k.deadlines;
    DueIsPrefix(z, now);
    var n := if 0 < batch < DueNow(k, now) then batch else DueNow(k, now);
    assert Limit(Due(z, now), batch) == z[..n];
    SweepPrefix(k, n);
    SuffixIsZset(z, n);
    DueOfSuffix(z, now, n);
  }

  function Sweeps(k: Keys, now: int, batch: int, n: nat): Keys
    decreases n
  {
    if n == 0 then k else Sweeps(SweepOf(k, now, batch), now, batch, n - 1)
  }

  /** Repeated sweeps empty the expired set after as many rounds as the batch needs to cover it. */
  lemma {:induction false} SweepsFinish(k: Keys, now: int, batch: int, n: nat)
    requires IsZset(k.deadlines) && batch > 0 && n * batch >= DueNow(k, now)
    ensures DueNow(Sweeps(k, now, batch, n), now) == 0
    decreases n
  {
    if n > 0 {
      SweepProgress(k, now, batch);
      assert (n - 1) * batch == n * batch - batch;
      SweepsFinish(SweepOf(k, now, batch), now, batch, n - 1);
    }
  }

  // ---------- Which bodies are recovered ----------

  /**
    Recovery by the sweep holds exactly for non-empty bodies: an expired reservation gives its body
    back to the ready list if and only if the body is not "". An empty one loses its deadline member
    and stays in processing, where nothing will ever look at it again.
   */
  lemma SweepRecovers(k: Keys, h: Handle)
    requires IsToken(h.token) && h.raw in k.processing
    ensures var j := SweepMember(k, MemberOf(h));
      && (h.raw != "" <==> j.ready == k.ready + [h.raw])
      && (h.raw != "" <==> multiset(j.processing) == multiset(k.processing) - multiset{h.raw})
      && (h.raw == "" ==> j.ready == k.ready && j.processing == k.processing)
      && j.deadlines == Zrem(k.deadlines, MemberOf(h))
  {
    MemberParts(h);
    assert |k.ready + [h.raw]| == |k.ready| + 1;
    assert h.raw in multiset(k.processing);
    assert (multiset(k.processing) - multiset{h.raw})[h.raw] < multiset(k.processing)[h.raw];
  }

  /** The run that strands an empty body: publish, reserve, let the deadline pass, sweep. */
  lemma EmptyBodyIsStranded(token: string)
    requires IsToken(token)
    ensures var k0 := Keys([""], [], [], []);
      var (k1, raw) := ReserveFrom(k0, Finite(0), token);
      raw == Some("") && SweepOf(k1, 0, -1) == Keys([], [""], [], [])
  {
    var k0 := Keys([""], [], [], []);
    var (k1, raw) := ReserveFrom(k0, Finite(0), token);
    var h := Handle("", token);
    var e := Scored(Finite(0), MemberOf(h));
    assert k1.deadlines == [e];
    assert Due([e], 0) == [e] + Due([e][1..], 0) == [e];
    assert Members([e]) == [MemberOf(h)];
    MemberParts(h);
    SweptOne(World(k1, {}, multiset{}, multiset{}, multiset{}, 0), MemberOf(h));
  }
}
