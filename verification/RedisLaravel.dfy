/** The Laravel-compatible Redis layout of redis.go. */
module RedisLaravel {
  // A ready list, sorted sets of delayed and reserved members, and a list of wake-up tokens. A reservation
  // re-encodes the payload (cjson), so a message is followed by its identity, which re-encoding keeps.

  import opened Wrappers
  import opened RedisData

  datatype Keys = Keys(ready: seq<string>, delayed: Zset, reserved: Zset, notify: nat, dlq: seq<string>, dlqNotify: nat)

  /** zsetHandle: the popped head and the member now in the reserved set. */
  datatype Handle = Handle(job: string, reserved: string)

  datatype Source = Delayed | Reserved

  /** cjson.decode, attempts + 1, cjson.encode: nothing when any of these is refused. */
  type Reencode = string -> Option<string>

  function Get(k: Keys, src: Source): Zset { if src.Delayed? then k.delayed else k.reserved }

  function Put(k: Keys, src: Source, z: Zset): Keys {
    if src.Delayed? then k.(delayed := z) else k.(reserved := z)
  }

  // ---------- The scripts as functions of the keys ----------

  /** pushScript. */
  function PublishTo(k: Keys, v: string): Keys { k.(ready := k.ready + [v], notify := k.notify + 1) }

  function PublishDelayedTo(k: Keys, v: string, at: int): Keys { k.(delayed := Zadd(k.delayed, Finite(at), v)) }

  /** What migrateScript moves. */
  function Ranged(z: Zset, now: int, batch: int): seq<string> { Members(Limit(Due(z, now), batch)) }

  /** migrateScript: removed by rank, appended in order, one token each. */
  function MigrateOf(k: Keys, src: Source, now: int, batch: int): Keys {
    var ms := Ranged(Get(k, src), now, batch);
    Put(k, src, Get(k, src)[if |ms| <= |Get(k, src)| then |ms| else 0..])
    .(ready := k.ready + ms, notify := k.notify + |ms|)
  }

  function Pred(n: nat): nat { if n == 0 then 0 else n - 1 }

  /** reserveScript: the head goes to the reserved set, re-encoded when it can be, raw otherwise. */
  function ReserveFrom(k: Keys, cjson: Reencode, deadline: Score): (Keys, Option<Handle>) {
    if k.ready == [] then (k, None)
    else
      var job := k.ready[0];
      var j := k.(ready := k.ready[1..]);
      match cjson(job)
      case Some(reserved) =>
        (j.(reserved := Zadd(k.reserved, deadline, reserved), notify := Pred(k.notify)), Some(Handle(job, reserved)))
      case None =>
        (j.(reserved := Zadd(k.reserved, deadline, job)), Some(Handle(job, job)))
  }

  function AckOf(k: Keys, h: Handle): Keys { k.(reserved := Zrem(k.reserved, h.reserved)) }

  /** releaseScript: not gated, so an expired reservation still schedules its body. */
  function ReleaseOf(k: Keys, h: Handle, at: int, body: string): Keys {
    k.(reserved := Zrem(k.reserved, h.reserved), delayed := Zadd(k.delayed, Finite(at), body))
  }

  /** zsetDeadLetterScript: only the owner of the reserved member writes the record. */
  function DeadLetterOf(k: Keys, h: Handle, body: string): Keys {
    if HasMember(k.reserved, h.reserved) then
      k.(reserved := Zrem(k.reserved, h.reserved), dlq := k.dlq + [body], dlqNotify := k.dlqNotify + 1)
    else k
  }

  // ---------- The scripts, step by step on shared keys ----------

  class Server {
    const cjson: Reencode
    var ready: seq<string>
    var delayed: Zset
    var reserved: Zset
    var notify: nat
    var dlq: seq<string>
    var dlqNotify: nat

    constructor (cjson: Reencode)
      ensures this.cjson == cjson && State() == Keys([], [], [], 0, [], 0)
    {
      this.cjson := cjson;
      ready, delayed, reserved, notify, dlq, dlqNotify := [], [], [], 0, [], 0;
    }

    ghost function State(): Keys
      reads this
    {
      Keys(ready, delayed, reserved, notify, dlq, dlqNotify)
    }

    method Publish(v: string)
      modifies this
      ensures State() == PublishTo(old(State()), v)
    {
      ready := ready + [v];
      notify := notify + 1;
    }

    /** The rpush of at most 100 members at a time, with one wake-up token for each member. */
    method PushInChunks(val: seq<string>)
      modifies this`ready, this`notify
      ensures ready == old(ready) + val && notify == old(notify) + |val|
    {
      var i := 0;
      while i < |val|
        invariant 0 <= i <= |val|
        invariant ready == old(ready) + val[..i]
        invariant notify == old(notify) + i
      {
        var end := if i + 100 < |val| then i + 100 else |val|;
        ready := ready + val[i..end];
        assert val[..i] + val[i..end] == val[..end];
        for j := i to end
          invariant notify == old(notify) + j
          invariant ready == old(ready) + val[..end]
        {
          notify := notify + 1;
        }
        i := end;
      }
      assert val[..|val|] == val;
    }

    /** migrateScript. */
    method Migrate(src: Source, now: int, batch: int) returns (moved: nat)
      requires IsZset(delayed) && IsZset(reserved)
      modifies this
      ensures State() == MigrateOf(old(State()), src, now, batch)
      ensures moved == |Ranged(Get(old(State()), src), now, batch)|
    {
      var z := if src.Delayed? then delayed else reserved;
      RangedIsPrefix(z, now, batch);
      hide IsZset, Due, Limit;
      var val := Members(Limit(Due(z, now), batch));
      if val != [] {
        if src.Delayed? {
          delayed := delayed[|val|..];
        } else {
          reserved := reserved[|val|..];
        }
        PushInChunks(val);
      }
      return |val|;
    }

    method Reserve(deadline: Score) returns (h: Option<Handle>)
      modifies this
      ensures (State(), h) == ReserveFrom(old(State()), cjson, deadline)
    {
      if ready == [] {
        return None;
      }
      var job := ready[0];
      ready := ready[1..];
      var encoded := cjson(job);
      if encoded.Some? {
        reserved := Zadd(reserved, deadline, encoded.value);
        if notify > 0 {
          notify := notify - 1;
        }
        return Some(Handle(job, encoded.value));
      }
      reserved := Zadd(reserved, deadline, job);
      return Some(Handle(job, job));
    }

    method Release(h: Handle, at: int, body: string)
      modifies this
      ensures State() == ReleaseOf(old(State()), h, at, body)
    {
      reserved := Zrem(reserved, h.reserved);
      delayed := Zadd(delayed, Finite(at), body);
    }

    method DeadLetter(h: Handle, body: string) returns (n: nat)
      modifies this
      ensures State() == DeadLetterOf(old(State()), h, body)
      ensures n == if old(HasMember(reserved, h.reserved)) then 1 else 0
    {
      if !HasMember(reserved, h.reserved) {
        return 0;
      }
      reserved := Zrem(reserved, h.reserved);
      dlq := dlq + [body];
      dlqNotify := dlqNotify + 1;
      return 1;
    }
  }

  // ---------- Migrating moves exactly what it ranged ----------

  /** Ranging takes a prefix of the ranks. */
  lemma RangedIsPrefix(z: Zset, now: int, batch: int)
    requires IsZset(z)
    ensures var ms := Ranged(z, now, batch); |ms| <= |z| && ms == Members(z[..|ms|])
    ensures |Ranged(z, now, batch)| == |Limit(Due(z, now), batch)|
  {
    DueIsPrefix(z, now);
    var n := |Limit(Due(z, now), batch)|;
    assert Limit(Due(z, now), batch) == z[..n];
    hide IsZset, Due;
  }

  /** What is ranged is due, and nothing else is when the batch was not used up. */
  lemma RangedIsDue(z: Zset, now: int, batch: int)
    requires IsZset(z) && (batch == -1 || batch > 0)
    ensures var n := |Limit(Due(z, now), batch)|;
      && n <= |z|
      && (forall e | e in z[..n] :: IsDue(e.score, now))
      && (batch == -1 || n < batch ==> forall e | e in z[n..] :: !IsDue(e.score, now))
  {
    DueIsPrefix(z, now);
    DueAre(z, now);
    hide IsZset, Due, IsDue;
    var n := |Limit(Due(z, now), batch)|;
    assert Limit(Due(z, now), batch) == z[..n];
    forall e | e in z[..n] ensures IsDue(e.score, now) {
      var i :| 0 <= i < n && z[..n][i] == e;
      assert e == Due(z, now)[i];
    }
    if n == |Due(z, now)| {
      forall e | e in z[n..] ensures !IsDue(e.score, now) {
        var i :| 0 <= i < |z[n..]| && z[n..][i] == e;
        assert e == z[n + i];
      }
    }
  }

  /**
    Ranging by score and removing by rank name the same members: what a migrate appends to the ready
    list, in rank order, is exactly what leaves the sorted set, and nothing due stays behind unless the
    batch was too small.
   */
  lemma MigrateIsExact(k: Keys, src: Source, now: int, batch: int)
    requires IsZset(Get(k, src)) && (batch == -1 || batch > 0)
    ensures var j := MigrateOf(k, src, now, batch);
      var n := |j.ready| - |k.ready|;
      && IsZset(Get(j, src))
      && 0 <= n <= |Get(k, src)|
      && Get(j, src) == Get(k, src)[n..]
      && j.ready == k.ready + Members(Get(k, src)[..n]) && j.notify == k.notify + n
      && Put(k, src, Get(j, src)).(ready := j.ready, notify := j.notify) == j
      && (forall e | e in Get(k, src)[..n] :: IsDue(e.score, now))
      && (batch == -1 || n < batch ==> forall e | e in Get(j, src) :: !IsDue(e.score, now))
  {
    var z := Get(k, src);
    RangedIsPrefix(z, now, batch);
    RangedIsDue(z, now, batch);
    SuffixIsZset(z, |Ranged(z, now, batch)|);
    hide IsZset, Due, Ranged, Limit, IsDue, Members;
  }

  // ---------- Runs of many consumers ----------

  /** `issued` are the handles ever handed out (any may be used late or never), `handed` their payloads in the order
      of the reservations, `accepted` the messages ever published and `acked` those some consumer acknowledged, by
      identity. */
  datatype World = World(k: Keys, issued: set<Handle>, handed: seq<string>, accepted: set<nat>, acked: set<nat>)

  /** The re-encoder and the identity of a payload. */
  datatype Codec = Codec(cjson: Reencode, id: string -> nat)

  ghost predicate KeepsIdentity(c: Codec) {
    forall s :: c.cjson(s).Some? ==> c.id(c.cjson(s).value) == c.id(s)
  }

  datatype Step =
    | Publish(v: string)
    | PublishDelayed(v: string, at: int)
    | Migrate(src: Source, now: int, batch: int)
    | Reserve(deadline: Score)
    | Ack(h: Handle)
    | Release(h: Handle, at: int, body: string)
    | DeadLetter(h: Handle, body: string)

  /** A client uses handles it was given and re-queues or dead-letters the same message. */
  predicate Enabled(w: World, c: Codec, s: Step) {
    match s
    case Ack(h) => h in w.issued
    case Release(h, _, body) => h in w.issued && c.id(body) == c.id(h.job)
    case DeadLetter(h, body) => h in w.issued && c.id(body) == c.id(h.job)
    case Migrate(_, _, batch) => batch == -1 || batch > 0
    case _ => true
  }

  function Next(w: World, c: Codec, s: Step): World {
    match s
    case Publish(v) => w.(k := PublishTo(w.k, v), accepted := w.accepted + {c.id(v)})
    case PublishDelayed(v, at) => w.(k := PublishDelayedTo(w.k, v, at), accepted := w.accepted + {c.id(v)})
    case Migrate(src, now, batch) => w.(k := MigrateOf(w.k, src, now, batch))
    case Reserve(deadline) =>
      var (k, h) := ReserveFrom(w.k, c.cjson, deadline);
      if h.None? then w
      else w.(k := k, issued := w.issued + {h.value}, handed := w.handed + [h.value.job])
    case Ack(h) => w.(k := AckOf(w.k, h), acked := w.acked + {c.id(h.job)})
    case Release(h, at, body) => w.(k := ReleaseOf(w.k, h, at, body))
    case DeadLetter(h, body) => w.(k := DeadLetterOf(w.k, h, body))
  }

  predicate InList(s: seq<string>, id: string -> nat, m: nat) { exists v :: v in s && id(v) == m }

  predicate InZset(z: Zset, id: string -> nat, m: nat) { exists e :: e in z && id(e.member) == m }

  /** Some payload of the message is on one of the keys. */
  predicate Somewhere(k: Keys, id: string -> nat, m: nat) {
    InList(k.ready, id, m) || InZset(k.delayed, id, m) || InZset(k.reserved, id, m) || InList(k.dlq, id, m)
  }

  ghost predicate Inv(w: World, c: Codec) {
    && IsZset(w.k.delayed) && IsZset(w.k.reserved)
    && (forall h | h in w.issued :: c.id(h.reserved) == c.id(h.job))
    && (forall m | m in w.accepted :: m in w.acked || Somewhere(w.k, c.id, m))
  }

  lemma ZaddHolds(z: Zset, s: Score, v: string, id: string -> nat)
    requires IsZset(z)
    ensures IsZset(Zadd(z, s, v))
    ensures InZset(Zadd(z, s, v), id, id(v))
    ensures forall m | InZset(z, id, m) :: InZset(Zadd(z, s, v), id, m)
  {
    ZaddIs(z, s, v);
    assert Scored(s, v) in Zadd(z, s, v);
    forall m | InZset(z, id, m) ensures InZset(Zadd(z, s, v), id, m) {
      var e :| e in z && id(e.member) == m;
      assert e.member != v ==> e in Zadd(z, s, v);
    }
  }

  lemma ZremHolds(z: Zset, v: string, id: string -> nat)
    requires IsZset(z)
    ensures IsZset(Zrem(z, v))
    ensures forall m | InZset(z, id, m) && m != id(v) :: InZset(Zrem(z, v), id, m)
  {
    ZremIs(z, v);
    forall m | InZset(z, id, m) && m != id(v) ensures InZset(Zrem(z, v), id, m) {
      var e :| e in z && id(e.member) == m;
      assert e in Zrem(z, v);
    }
  }

  lemma AppendHolds(s: seq<string>, t: seq<string>, id: string -> nat)
    ensures forall m :: InList(s + t, id, m) <==> InList(s, id, m) || InList(t, id, m)
  {
    forall m ensures InList(s + t, id, m) <==> InList(s, id, m) || InList(t, id, m) {
      if InList(s, id, m) {
        var v :| v in s && id(v) == m;
        assert v in s + t;
      } else if InList(t, id, m) {
        var v :| v in t && id(v) == m;
        assert v in s + t;
      }
    }
  }

  /** Cutting a sorted set in two keeps every message in one of the parts. */
  lemma SplitHolds(z: Zset, n: nat, id: string -> nat, m: nat)
    requires n <= |z| && InZset(z, id, m)
    ensures InList(Members(z[..n]), id, m) || InZset(z[n..], id, m)
  {
    var i :| 0 <= i < |z| && id(z[i].member) == m;
    if i < n {
      assert Members(z[..n])[i] == z[i].member;
      assert z[i].member in Members(z[..n]);
    } else {
      assert z[n..][i - n] == z[i];
      assert z[i] in z[n..];
    }
  }

  lemma MigrateHolds(k: Keys, src: Source, now: int, batch: int, id: string -> nat, m: nat)
    requires IsZset(Get(k, src)) && (batch == -1 || batch > 0) && Somewhere(k, id, m)
    ensures Somewhere(MigrateOf(k, src, now, batch), id, m)
  {
    hide IsZset, Due, Limit, InList, InZset, MigrateOf;
    MigrateIsExact(k, src, now, batch);
    var j := MigrateOf(k, src, now, batch);
    var n := |j.ready| - |k.ready|;
    var z := Get(k, src);
    AppendHolds(k.ready, Members(z[..n]), id);
    if InZset(z, id, m) {
      SplitHolds(z, n, id, m);
    }
  }

  lemma ReserveHolds(k: Keys, c: Codec, deadline: Score, m: nat)
    requires KeepsIdentity(c) && IsZset(k.reserved) && k.ready != [] && Somewhere(k, c.id, m)
    ensures Somewhere(ReserveFrom(k, c.cjson, deadline).0, c.id, m)
  {
    var job := k.ready[0];
    var (j, h) := ReserveFrom(k, c.cjson, deadline);
    ZaddHolds(k.reserved, deadline, h.value.reserved, c.id);
    assert k.ready == [job] + k.ready[1..];
    AppendHolds([job], k.ready[1..], c.id);
  }

  /** The sorted sets stay sorted sets, and a handle still stands for one message. */
  lemma StepKeepsShape(w: World, c: Codec, s: Step)
    requires KeepsIdentity(c) && Inv(w, c) && Enabled(w, c, s)
    ensures var v := Next(w, c, s);
      && IsZset(v.k.delayed) && IsZset(v.k.reserved)
      && forall h | h in v.issued :: c.id(h.reserved) == c.id(h.job)
  {
    match s {
      case Publish(_) =>
      case PublishDelayed(x, at) => ZaddHolds(w.k.delayed, Finite(at), x, c.id);
      case Migrate(src, now, batch) => MigrateIsExact(w.k, src, now, batch);
      case Reserve(deadline) =>
        if w.k.ready != [] {
          ZaddHolds(w.k.reserved, deadline, ReserveFrom(w.k, c.cjson, deadline).1.value.reserved, c.id);
        }
      case Ack(h) => ZremHolds(w.k.reserved, h.reserved, c.id);
      case Release(h, at, body) =>
        ZremHolds(w.k.reserved, h.reserved, c.id);
        ZaddHolds(w.k.delayed, Finite(at), body, c.id);
      case DeadLetter(h, _) => ZremHolds(w.k.reserved, h.reserved, c.id);
    }
    hide IsZset, Zadd, Zrem, InZset, Somewhere, Ranged, Due, Limit;
  }

  /** A message that was accepted and not acknowledged is somewhere after a script as well. */
  lemma StepHolds(w: World, c: Codec, s: Step, m: nat)
    requires KeepsIdentity(c) && Inv(w, c) && Enabled(w, c, s)
    requires m in Next(w, c, s).accepted && m !in Next(w, c, s).acked
    ensures Somewhere(Next(w, c, s).k, c.id, m)
  {
    match s {
      case Publish(x) =>
        AppendHolds(w.k.ready, [x], c.id);
        assert x in [x];
      case PublishDelayed(x, at) => ZaddHolds(w.k.delayed, Finite(at), x, c.id);
      case Migrate(src, now, batch) => MigrateHolds(w.k, src, now, batch, c.id, m);
      case Reserve(deadline) => if w.k.ready != [] { ReserveHolds(w.k, c, deadline, m); }
      case Ack(h) => ZremHolds(w.k.reserved, h.reserved, c.id);
      case Release(h, at, body) =>
        ZremHolds(w.k.reserved, h.reserved, c.id);
        ZaddHolds(w.k.delayed, Finite(at), body, c.id);
      case DeadLetter(h, body) =>
        ZremHolds(w.k.reserved, h.reserved, c.id);
        AppendHolds(w.k.dlq, [body], c.id);
        assert body in [body];
    }
    hide IsZset, Zadd, Zrem, InZset, Ranged, Due, Limit;
  }

  /** Every script, at any time and with any handle ever issued, keeps every message somewhere. */
  lemma StepKeeps(w: World, c: Codec, s: Step)
    requires KeepsIdentity(c) && Inv(w, c) && Enabled(w, c, s)
    ensures Inv(Next(w, c, s), c)
  {
    StepKeepsShape(w, c, s);
    forall m | m in Next(w, c, s).accepted && m !in Next(w, c, s).acked ensures Somewhere(Next(w, c, s).k, c.id, m) {
      StepHolds(w, c, s, m);
    }
    hide Next, Somewhere, IsZset;
  }

  predicate IsRun(w: World, c: Codec, steps: seq<Step>)
    decreases |steps|
  {
    steps != [] ==> Enabled(w, c, steps[0]) && IsRun(Next(w, c, steps[0]), c, steps[1..])
  }

  function After(w: World, c: Codec, steps: seq<Step>): World
    decreases |steps|
  {
    if steps == [] then w else After(Next(w, c, steps[0]), c, steps[1..])
  }

  /** In every reachable state every accepted message is ready, delayed, reserved or dead-lettered, or
      was acknowledged. */
  lemma {:induction false} NothingIsLost(w: World, c: Codec, steps: seq<Step>)
    requires KeepsIdentity(c) && Inv(w, c) && IsRun(w, c, steps)
    ensures Inv(After(w, c, steps), c)
    decreases |steps|
  {
    if steps != [] {
      StepKeeps(w, c, steps[0]);
      NothingIsLost(Next(w, c, steps[0]), c, steps[1..]);
    }
  }

  // ---------- The ready list is a queue ----------

  /** What a step puts on the ready list: a published payload, or the members a migrate ranged, in rank order. */
  function Puts(w: World, s: Step): seq<string> {
    match s
    case Publish(v) => [v]
    case Migrate(src, now, batch) => Ranged(Get(w.k, src), now, batch)
    case _ => []
  }

  function AllPuts(w: World, c: Codec, steps: seq<Step>): seq<string>
    decreases |steps|
  {
    if steps == [] then [] else Puts(w, steps[0]) + AllPuts(Next(w, c, steps[0]), c, steps[1..])
  }

  lemma StepIsFifo(w: World, c: Codec, s: Step)
    ensures w.handed + w.k.ready + Puts(w, s) == Next(w, c, s).handed + Next(w, c, s).k.ready
  {
    hide Zadd, Zrem, Ranged, HasMember;
    if s.Reserve? && w.k.ready != [] {
      assert w.k.ready == [w.k.ready[0]] + w.k.ready[1..];
    }
  }

  /** Over every run, payloads are reserved in the order they were put on the ready list. */
  lemma {:induction false} RunIsFifo(w: World, c: Codec, steps: seq<Step>)
    ensures var v := After(w, c, steps); w.handed + w.k.ready + AllPuts(w, c, steps) == v.handed + v.k.ready
    decreases |steps|
  {
    hide Next, Puts;
    if steps != [] {
      var v := Next(w, c, steps[0]);
      StepIsFifo(w, c, steps[0]);
      RunIsFifo(v, c, steps[1..]);
      Later(w.handed + w.k.ready, Puts(w, steps[0]), AllPuts(v, c, steps[1..]));
    }
  }

  lemma Later<T>(a: seq<T>, b: seq<T>, c: seq<T>)
    ensures a + (b + c) == a + b + c
  {
  }

  /** The wake-up tokens: at least one for each ready payload, and one for each dead letter. */
  predicate TokensInv(w: World) { w.k.notify >= |w.k.ready| && w.k.dlqNotify == |w.k.dlq| }

  /** A step leaves a token over exactly when it reserves a payload as it is, because it cannot be re-encoded. */
  lemma StepKeepsTokens(w: World, c: Codec, s: Step)
    requires TokensInv(w)
    ensures var v := Next(w, c, s);
      TokensInv(v) && v.k.notify - |v.k.ready| == w.k.notify - |w.k.ready| +
        if s.Reserve? && w.k.ready != [] && c.cjson(w.k.ready[0]).None? then 1 else 0
  {
    hide Zadd, Zrem, Ranged, HasMember;
  }

  /** So in every run no consumer waits for a token while a payload is ready. */
  lemma {:induction false} TokensAreEnough(w: World, c: Codec, steps: seq<Step>)
    requires TokensInv(w)
    ensures TokensInv(After(w, c, steps))
    decreases |steps|
  {
    hide Next, TokensInv;
    if steps != [] {
      StepKeepsTokens(w, c, steps[0]);
      TokensAreEnough(Next(w, c, steps[0]), c, steps[1..]);
    }
  }

  // ---------- When a member is due ----------

  /** A release takes the owner's member away and delays the body until its time; a reservation is held until its
      deadline. Every other entry stays. */
  lemma ReleaseIsDelayed(k: Keys, h: Handle, at: int, body: string)
    requires IsZset(k.reserved) && IsZset(k.delayed)
    ensures var j := ReleaseOf(k, h, at, body);
      && !HasMember(j.reserved, h.reserved)
      && (forall e :: e in j.reserved <==> e in k.reserved && e.member != h.reserved)
      && (forall e :: e in j.delayed <==> e == Scored(Finite(at), body) || (e in k.delayed && e.member != body))
      && j.ready == k.ready && j.dlq == k.dlq
  {
    ZremIs(k.reserved, h.reserved);
    ZaddIs(k.delayed, Finite(at), body);
    hide Zadd, Zrem, IsZset;
  }

  lemma ReservedUntil(k: Keys, cjson: Reencode, deadline: Score)
    requires IsZset(k.reserved) && k.ready != []
    ensures var (j, h) := ReserveFrom(k, cjson, deadline);
      && h.Some? && h.value.job == k.ready[0]
      && h.value.reserved == (if cjson(k.ready[0]).Some? then cjson(k.ready[0]).value else k.ready[0])
      && (forall e :: e in j.reserved <==>
          e == Scored(deadline, h.value.reserved) || (e in k.reserved && e.member != h.value.reserved))
  {
    ZaddIs(k.reserved, deadline, ReserveFrom(k, cjson, deadline).1.value.reserved);
    hide Zadd, IsZset;
  }

  // ---------- Why payloads must be distinct ----------

  function Count(k: Keys): nat { |k.ready| + |k.delayed| + |k.reserved| + |k.dlq| }

  /** A reservation keeps the number of copies if and only if its member is not in the reserved set
      already: a sorted set merges equal members. */
  lemma ReserveKeepsCount(k: Keys, cjson: Reencode, deadline: Score)
    requires IsZset(k.reserved) && k.ready != []
    ensures var (j, h) := ReserveFrom(k, cjson, deadline);
      Count(j) == Count(k) <==> !HasMember(k.reserved, h.value.reserved)
  {
    ZaddIs(k.reserved, deadline, ReserveFrom(k, cjson, deadline).1.value.reserved);
  }

  /** A dead-letter moves one copy for its owner and none for a late handle, so the count never changes. A release
      takes a copy from its owner only, and adds one unless an equal body is delayed already. So it keeps the count
      exactly for an owner with a new body, or a late handle with a merged one. */
  lemma ReleaseAndDeadLetterCount(k: Keys, h: Handle, at: int, body: string)
    requires IsZset(k.reserved) && IsZset(k.delayed)
    ensures Count(DeadLetterOf(k, h, body)) == Count(k)
    ensures Count(ReleaseOf(k, h, at, body)) == Count(k)
      - (if HasMember(k.reserved, h.reserved) then 1 else 0) + (if HasMember(k.delayed, body) then 0 else 1)
    ensures Count(ReleaseOf(k, h, at, body)) == Count(k) <==>
      (HasMember(k.reserved, h.reserved) <==> !HasMember(k.delayed, body))
  {
    ZremIs(k.reserved, h.reserved);
    ZaddIs(k.delayed, Finite(at), body);
  }

  /** Two equal payloads: both are reserved as one member, and one acknowledgement clears both. */
  lemma EqualPayloadsMerge(x: string, y: string, cjson: Reencode)
    requires cjson(x) == Some(y)
    ensures var k0 := PublishTo(PublishTo(Keys([], [], [], 0, [], 0), x), x);
      var (k1, h1) := ReserveFrom(k0, cjson, Finite(90));
      var (k2, h2) := ReserveFrom(k1, cjson, Finite(90));
      h1 == h2 == Some(Handle(x, y)) && Count(k0) == 2 && Count(k2) == 1 && Count(AckOf(k2, h1.value)) == 0
  {
    var e := Scored(Finite(90), y);
    assert Zadd([], Finite(90), y) == [e];
    assert Zrem([e], y) == [];
    assert Zadd([e], Finite(90), y) == [e];
    assert [] + [x] + [x] == [x, x] && [x, x][1..] == [x];
  }
}
