/**
  How often a message whose handler always fails is delivered, on transports that re-publish a retry
  and on transports that release it in place and count deliveries themselves.
 */
module RetryBound {
  import opened AsciiSpace
  import opened Dispatch
  import opened Arithmetic

  /** How a retry comes back: the same message counted up, or new copies, all of them with one route (that of the
      delivery, none where the transport has nowhere to put one, or a gate route) and with the count the transport
      reads from the copy, if it counts at all. */
  datatype Redelivery = InPlace | Republished(route: string, count: Body -> int)

  function NextDelivery(k: Redelivery, m: Message, n: int): Message
    requires MessageOk(m)
  {
    match k
    case InPlace => m.(deliveryCount := Increment(m.deliveryCount))
    case Republished(route, count) => var b := Rewritten(m.body, WithAttempts(n)); Message(b, route, count(b), false)
  }

  /** A fresh copy is on its first delivery, or counted by the attempts it carries. */
  ghost predicate Recounts(k: Redelivery) {
    k.Republished? ==>
      forall b: Body :: 0 <= k.count(b) <= MAX_INT && (k.count(b) <= 1 || k.count(b) - 1 <= BodyAttempts(b))
  }

  ghost predicate Fits(t: Capabilities, k: Redelivery, m: Message) {
    && MessageOk(m) && Recounts(k)
    && (k.InPlace? ==> t.releaser && m.deliveryCount >= 1)
    && (k.Republished? ==> !t.releaser && m.deliveryCount >= 0)
  }

  /** The message is delivered exactly d times when its handler always fails and every call succeeds. */
  ghost predicate LeavesAfter(c: Config, t: Capabilities, k: Redelivery, m: Message, d: nat)
    requires MessageOk(m) && Recounts(k)
    decreases d
  {
    var a := Plan(c, t, m, false);
    && d > 0 && !a.Requeue?
    && if a.Retry? then NextOk(k, m, a.n); LeavesAfter(c, t, k, NextDelivery(k, m, a.n), d - 1) else d == 1
  }

  lemma NextOk(k: Redelivery, m: Message, n: int)
    requires MessageOk(m) && Recounts(k) && (k.Republished? ==> IsInt(n))
    ensures MessageOk(NextDelivery(k, m, n))
  {
  }

  /** Its failures count against maxAttempts. */
  predicate IsRetried(c: Config, t: Capabilities, m: Message)
    requires MessageOk(m)
  {
    Plan(c, t, m, false) == RetryOrDeadLetter(c, Attempts(m))
  }

  /** The first delivery is the last. */
  predicate IsLast(c: Config, m: Message)
    requires MessageOk(m)
  {
    Attempts(m) + 1 >= c.maxAttempts
  }

  /** The URN a copy is dispatched on; "" when it is undecodable, as the copy of an undecodable body is. */
  function CopyUrn(k: Redelivery, m: Message): string {
    if k.InPlace? then Urn(m) else if k.route != "" then k.route else if m.body.Envelope? then m.body.job else ""
  }

  predicate IsUnhandled(c: Config, k: Redelivery, m: Message) {
    !IsBlank(CopyUrn(k, m)) && CopyUrn(k, m) !in c.handlers
  }

  predicate ComesBackGated(k: Redelivery) { k.Republished? && GATE_PREFIX <= k.route }

  /** Under Release a copy that names no handler is released for ever. */
  predicate Escapes(c: Config, k: Redelivery, m: Message) {
    c.strategy.Release? && !ComesBackGated(k) && IsUnhandled(c, k, m)
  }

  /** The copy is settled on its first delivery, whatever its attempts: it is gated, or it is unknown, blank or
      undecodable where the configuration does not retry that. */
  predicate SettlesEarly(c: Config, t: Capabilities, k: Redelivery, m: Message) {
    || ComesBackGated(k)
    || (IsUnhandled(c, k, m) && (c.strategy.Delete? || c.strategy.DeadLetter?))
    || (IsBlank(CopyUrn(k, m)) && (
          || c.strategy.Delete?
          || (if CopyUrn(k, m) == "" then WritesDeadLetters(c) || t.native
              else c.strategy.DeadLetter? || (!WritesDeadLetters(c) && t.native))))
  }

  lemma {:induction false} LeavesOnce(c: Config, t: Capabilities, k: Redelivery, m: Message, d: nat, d': nat)
    requires MessageOk(m) && Recounts(k)
    requires LeavesAfter(c, t, k, m, d) && LeavesAfter(c, t, k, m, d')
    ensures d == d'
    decreases d
  {
    var a := Plan(c, t, m, false);
    hide Plan, NextDelivery;
    if a.Retry? {
      LeavesOnce(c, t, k, NextDelivery(k, m, a.n), d - 1, d' - 1);
    }
  }

  // ---------- Re-publishing transports ----------

  /** The branches of Plan that count attempts. */
  predicate OnRetryRoute(c: Config, t: Capabilities, m: Message)
    requires MessageOk(m)
  {
    && !IsGated(m) && !m.poison
    && (if DecodeFailed(m) then !c.strategy.Delete? && !WritesDeadLetters(c) && !t.native
        else if IsBlank(Urn(m)) then
          !c.strategy.Delete? && !c.strategy.DeadLetter? && (WritesDeadLetters(c) || !t.native)
        else Urn(m) in c.handlers || c.strategy.Fail?)
  }

  lemma RetryRoute(c: Config, t: Capabilities, m: Message)
    requires MessageOk(m)
    ensures OnRetryRoute(c, t, m) ==> IsRetried(c, t, m)
    ensures IsRetried(c, t, m) && RetryOrDeadLetter(c, Attempts(m)).Retry? ==> OnRetryRoute(c, t, m)
  {
  }

  lemma RepublishedStaysRetried(c: Config, t: Capabilities, k: Redelivery, m: Message)
    requires Fits(t, k, m) && k.Republished? && IsRetried(c, t, m) && !Escapes(c, k, m) && !SettlesEarly(c, t, k, m)
    requires Attempts(m) < MAX_INT && !IsLast(c, m) && IsInt(c.maxAttempts)
    ensures var v := NextDelivery(k, m, Attempts(m) + 1);
      && Fits(t, k, v) && IsRetried(c, t, v) && Attempts(v) == Attempts(m) + 1
      && !Escapes(c, k, v) && !SettlesEarly(c, t, k, v)
  {
    RetryRoute(c, t, m);
    RetryRoute(c, t, NextDelivery(k, m, Attempts(m) + 1));
  }

  /** How often an always-failing message that does not escape is delivered. */
  function RepublishedDeliveries(c: Config, t: Capabilities, k: Redelivery, m: Message): int
    requires MessageOk(m)
  {
    if IsLast(c, m) then 1 else if SettlesEarly(c, t, k, m) then 2 else c.maxAttempts - Attempts(m)
  }

  /** It is delivered max(1, maxAttempts - attempts) times, or twice when its copy is settled early. */
  lemma {:induction false} RepublishedIsBounded(c: Config, t: Capabilities, k: Redelivery, m: Message)
    requires Fits(t, k, m) && k.Republished? && IsRetried(c, t, m) && (IsLast(c, m) || !Escapes(c, k, m))
    requires Attempts(m) < MAX_INT && IsInt(c.maxAttempts)
    ensures 1 <= RepublishedDeliveries(c, t, k, m) <= Max(1, c.maxAttempts - Attempts(m))
    ensures LeavesAfter(c, t, k, m, RepublishedDeliveries(c, t, k, m))
    decreases c.maxAttempts - Attempts(m)
  {
    if IsLast(c, m) {
      LastLeaves(c, t, k, m);
    } else if SettlesEarly(c, t, k, m) {
      EarlyLeaves(c, t, k, m);
    } else {
      RepublishedStaysRetried(c, t, k, m);
      hide Plan, NextDelivery, Attempts, SettlesEarly, Escapes, Recounts;
      RepublishedIsBounded(c, t, k, NextDelivery(k, m, Attempts(m) + 1));
    }
  }

  lemma LastLeaves(c: Config, t: Capabilities, k: Redelivery, m: Message)
    requires MessageOk(m) && Recounts(k) && IsRetried(c, t, m) && Attempts(m) < MAX_INT && IsLast(c, m)
    ensures LeavesAfter(c, t, k, m, 1)
  {
  }

  lemma EarlyLeaves(c: Config, t: Capabilities, k: Redelivery, m: Message)
    requires Fits(t, k, m) && IsRetried(c, t, m) && SettlesEarly(c, t, k, m)
    requires Attempts(m) < MAX_INT && !IsLast(c, m)
    ensures LeavesAfter(c, t, k, m, 2)
  {
    RetryRoute(c, t, m);
    var v := NextDelivery(k, m, Attempts(m) + 1);
    var a := Plan(c, t, v, false);
    assert !a.Retry? && !a.Requeue?;
    hide Plan, NextDelivery, SettlesEarly;
    assert LeavesAfter(c, t, k, v, 1);
  }

  /** After its first retry it is released for ever. */
  lemma EscapedIsReleasedForever(c: Config, t: Capabilities, k: Redelivery, m: Message, d: nat)
    requires Fits(t, k, m) && IsRetried(c, t, m) && Escapes(c, k, m)
    requires Attempts(m) < MAX_INT && !IsLast(c, m) && IsInt(c.maxAttempts)
    ensures !LeavesAfter(c, t, k, m, d)
  {
    RetryRoute(c, t, m);
    var v := NextDelivery(k, m, Attempts(m) + 1);
    assert Plan(c, t, v, false) == Requeue;
  }

  /** It leaves the queue after some number of deliveries exactly unless it escapes. */
  lemma RepublishedLeavesExactlyWhen(c: Config, t: Capabilities, k: Redelivery, m: Message)
    requires Fits(t, k, m) && k.Republished? && IsRetried(c, t, m)
    requires Attempts(m) < MAX_INT && IsInt(c.maxAttempts)
    ensures (exists d :: LeavesAfter(c, t, k, m, d)) <==> IsLast(c, m) || !Escapes(c, k, m)
  {
    if IsLast(c, m) || !Escapes(c, k, m) {
      RepublishedIsBounded(c, t, k, m);
    } else {
      forall d: nat ensures !LeavesAfter(c, t, k, m, d) {
        EscapedIsReleasedForever(c, t, k, m, d);
      }
    }
  }

  /** And after max(1, maxAttempts - attempts) of them exactly unless it escapes or is settled early. */
  lemma RepublishedMeetsTheBound(c: Config, t: Capabilities, k: Redelivery, m: Message)
    requires Fits(t, k, m) && k.Republished? && IsRetried(c, t, m)
    requires Attempts(m) < MAX_INT && IsInt(c.maxAttempts)
    ensures LeavesAfter(c, t, k, m, Max(1, c.maxAttempts - Attempts(m))) <==>
      || IsLast(c, m)
      || (!Escapes(c, k, m) && (!SettlesEarly(c, t, k, m) || c.maxAttempts - Attempts(m) == 2))
  {
    var bound: nat := Max(1, c.maxAttempts - Attempts(m));
    if IsLast(c, m) || !Escapes(c, k, m) {
      RepublishedIsBounded(c, t, k, m);
      hide Plan, NextDelivery, LeavesAfter, Escapes, SettlesEarly;
      if LeavesAfter(c, t, k, m, bound) {
        LeavesOnce(c, t, k, m, RepublishedDeliveries(c, t, k, m), bound);
      }
    } else {
      EscapedIsReleasedForever(c, t, k, m, bound);
    }
  }

  /** A transport that gives the copies the route of the delivery lets nothing escape, unless it routes bodies that
      do not decode. */
  lemma KeptRouteNeverEscapes(c: Config, t: Capabilities, k: Redelivery, m: Message)
    requires MessageOk(m) && IsRetried(c, t, m) && Attempts(m) < MAX_INT && !IsLast(c, m)
    requires k.Republished? && k.route == m.routeURN && (m.body.Undecodable? ==> m.routeURN == "")
    ensures !Escapes(c, k, m)
  {
    RetryRoute(c, t, m);
  }

  const ESCAPING: Config := Config(Release, 5, false, {"r"})
  const REPUBLISHES: Capabilities := Capabilities(false, false, false, false)

  /** Two messages a transport outside this library may deliver, with their first retry: a body that does not
      decode under a route that is kept, and an envelope under one that is forgotten. */
  lemma EscapingMessages(d: nat)
    ensures var k := Republished("u", _ => 1); var m := Message(Undecodable, "u", 1, false);
      && Fits(REPUBLISHES, k, m) && IsRetried(ESCAPING, REPUBLISHES, m)
      && !LeavesAfter(ESCAPING, REPUBLISHES, k, m, d)
    ensures var k := Republished("", _ => 0); var m := Message(Envelope("u", 0), "r", 0, false);
      && Fits(REPUBLISHES, k, m) && IsRetried(ESCAPING, REPUBLISHES, m)
      && !LeavesAfter(ESCAPING, REPUBLISHES, k, m, d)
  {
    assert "u"[0] == 'u' && "r"[0] == 'r' && GATE_PREFIX[0] == 'b';
    assert !IsBlank("u") && !IsBlank("r");
    EscapedIsReleasedForever(ESCAPING, REPUBLISHES, Republished("u", _ => 1), Message(Undecodable, "u", 1, false), d);
    EscapedIsReleasedForever(
      ESCAPING, REPUBLISHES, Republished("", _ => 0), Message(Envelope("u", 0), "r", 0, false), d);
  }

  // ---------- Transports that release in place ----------

  lemma InPlaceStaysRetried(c: Config, t: Capabilities, m: Message)
    requires Fits(t, InPlace, m) && IsRetried(c, t, m) && m.deliveryCount < MAX_INT
    requires RetryOrDeadLetter(c, Attempts(m)).Retry?
    ensures var v := NextDelivery(InPlace, m, 0); Fits(t, InPlace, v) && IsRetried(c, t, v)
  {
    RetryRoute(c, t, m);
    RetryRoute(c, t, NextDelivery(InPlace, m, 0));
  }

  /** Released in place, the broker's count alone advances: an envelope that arrives with more attempts
      than the broker has counted is delivered until the count catches up. */
  function InPlaceDeliveries(c: Config, m: Message): int
    requires MessageOk(m)
  {
    if Attempts(m) + 1 >= c.maxAttempts then 1 else Max(1, c.maxAttempts - (m.deliveryCount - 1))
  }

  lemma {:induction false} InPlaceIsBounded(c: Config, t: Capabilities, m: Message)
    requires Fits(t, InPlace, m) && IsRetried(c, t, m)
    requires Attempts(m) < MAX_INT && IsInt(c.maxAttempts)
    ensures InPlaceDeliveries(c, m) > 0 && LeavesAfter(c, t, InPlace, m, InPlaceDeliveries(c, m))
    decreases c.maxAttempts - m.deliveryCount
  {
    if Attempts(m) + 1 < c.maxAttempts {
      InPlaceStaysRetried(c, t, m);
      var v := NextDelivery(InPlace, m, 0);
      assert v == NextDelivery(InPlace, m, Attempts(m) + 1);
      assert v.deliveryCount == m.deliveryCount + 1 && Attempts(v) < c.maxAttempts;
      hide Plan, NextDelivery;
      InPlaceIsBounded(c, t, v);
    }
  }

  /** The bound max(1, maxAttempts - attempts) holds in place exactly when the broker's count is the
      attempts, or the first delivery is the last. */
  lemma InPlaceMeetsTheBound(c: Config, t: Capabilities, m: Message)
    requires Fits(t, InPlace, m) && IsRetried(c, t, m)
    requires Attempts(m) < MAX_INT && IsInt(c.maxAttempts)
    ensures LeavesAfter(c, t, InPlace, m, Max(1, c.maxAttempts - Attempts(m)))
      <==> Attempts(m) + 1 >= c.maxAttempts || BodyAttempts(m.body) <= m.deliveryCount - 1
  {
    InPlaceIsBounded(c, t, m);
    hide Plan, NextDelivery;
    if LeavesAfter(c, t, InPlace, m, Max(1, c.maxAttempts - Attempts(m))) {
      LeavesOnce(c, t, InPlace, m, InPlaceDeliveries(c, m), Max(1, c.maxAttempts - Attempts(m)));
    }
  }

  // ---------- The wrap-around ----------

  /** attempts at the largest int wraps when it is counted up; released in place it never leaves. */
  lemma {:induction false} WrappedNeverLeaves(c: Config, t: Capabilities, m: Message, d: nat)
    requires MessageOk(m) && t.releaser && OnRetryRoute(c, t, m)
    requires BodyAttempts(m.body) == MAX_INT && MIN_INT < c.maxAttempts
    ensures !LeavesAfter(c, t, InPlace, m, d)
    decreases d
  {
    RetryRoute(c, t, m);
    var v := NextDelivery(InPlace, m, MIN_INT);
    if d > 0 {
      WrappedNeverLeaves(c, t, v, d - 1);
      hide Plan;
    }
  }
}
