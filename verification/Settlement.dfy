/**
  What holds of every trace of Dispatch: when a delivery is settled, why it may be acknowledged, which copy
  may stand in for it, and which configurations can drop a message. These are the facts the broker models
  build on: ReservingBroker for reservations, KafkaConsumer for cumulative commits.
 */
module Settlement {
  import opened AsciiSpace
  import opened Dispatch

  /** Calls after which the broker may forget the delivery. */
  predicate IsSettlement(e: Event) {
    match e
    case Acked(_) => true
    case ReleasedInPlace(result) => result.Released?
    case GatedDeadLetter(_, ok) => ok
    case NativeSettle(_) => true
    case _ => false
  }

  /** The index in Perform's calls that the i-th call of a trace has. */
  function Shifted(c: Config, m: Message, i: nat): int { if RunsHandler(c, m) then i - 1 else i }

  lemma TraceAt(c: Config, t: Capabilities, m: Message, o: Outcome, i: nat)
    requires MessageOk(m) && i < |Trace(c, t, m, o)|
    ensures var k := Shifted(c, m, i);
      var p := Perform(t, Plan(c, t, m, o.handler), o);
      && |Trace(c, t, m, o)| == |p| + i - k
      && (k < 0 ==> i == 0 && RunsHandler(c, m) && Trace(c, t, m, o)[i] == Handled(o.handler))
      && (k >= 0 ==> k < |p| && Trace(c, t, m, o)[i] == p[k])
      && (k > 0 ==> Trace(c, t, m, o)[i - 1] == p[k - 1])
  {
    hide Plan, RunsHandler, Perform;
  }

  /** A settlement is the last call of its dispatch, so there is at most one. */
  lemma SettlementIsLast(c: Config, t: Capabilities, m: Message, o: Outcome, i: nat)
    requires MessageOk(m)
    requires i < |Trace(c, t, m, o)| && IsSettlement(Trace(c, t, m, o)[i])
    ensures i == |Trace(c, t, m, o)| - 1
  {
    hide Plan, Trace, Perform, RunsHandler;
    TraceAt(c, t, m, o, i);
    PerformSettlesLast(t, Plan(c, t, m, o.handler), o, Shifted(c, m, i));
  }

  lemma PerformSettlesLast(t: Capabilities, a: Action, o: Outcome, i: int)
    ensures 0 <= i < |Perform(t, a, o)| && IsSettlement(Perform(t, a, o)[i]) ==> i == |Perform(t, a, o)| - 1
  {
  }

  /** The handler runs at most once, first, and only when the plan depends on it. */
  lemma HandlerRunsFirst(c: Config, t: Capabilities, m: Message, o: Outcome, i: nat)
    requires MessageOk(m)
    requires i < |Trace(c, t, m, o)| && Trace(c, t, m, o)[i].Handled?
    ensures i == 0 && RunsHandler(c, m) && Trace(c, t, m, o)[0] == Handled(o.handler)
  {
    hide Plan, Trace, Perform, RunsHandler;
    TraceAt(c, t, m, o, i);
    PerformRunsNoHandler(t, Plan(c, t, m, o.handler), o, Shifted(c, m, i));
  }

  lemma PerformRunsNoHandler(t: Capabilities, a: Action, o: Outcome, i: int)
    ensures 0 <= i < |Perform(t, a, o)| ==> !Perform(t, a, o)[i].Handled?
  {
  }

  /** An ack comes right after handler success or a confirmed write, or is a configured drop. */
  predicate JustifiesAck(e: Event) { e == Handled(true) || (e.Published? && e.ok) }

  lemma AckIsJustified(c: Config, t: Capabilities, m: Message, o: Outcome, i: nat)
    requires MessageOk(m)
    requires i < |Trace(c, t, m, o)| && Trace(c, t, m, o)[i].Acked?
    ensures Plan(c, t, m, o.handler) == Drop || (i > 0 && JustifiesAck(Trace(c, t, m, o)[i - 1]))
  {
    var a := Plan(c, t, m, o.handler);
    if a == Finish {
      FinishMeansHandled(c, t, m, o.handler);
    } else if a != Drop {
      hide Plan, Trace, Perform, RunsHandler;
      TraceAt(c, t, m, o, i);
      PerformJustifiesAck(t, a, o, Shifted(c, m, i));
    }
  }

  lemma FinishMeansHandled(c: Config, t: Capabilities, m: Message, handlerOk: bool)
    requires MessageOk(m)
    ensures Plan(c, t, m, handlerOk) == Finish <==> RunsHandler(c, m) && handlerOk
  {
  }

  lemma PerformJustifiesAck(t: Capabilities, a: Action, o: Outcome, i: int)
    requires !a.Finish? && !a.Drop?
    ensures 0 <= i < |Perform(t, a, o)| && Perform(t, a, o)[i].Acked? ==> i > 0 && JustifiesAck(Perform(t, a, o)[i - 1])
  {
  }

  /** Without release, gated move and native settle, a delivery ends acknowledged or rewound. */
  lemma AckedOrRewound(c: Config, t: Capabilities, m: Message, o: Outcome)
    requires MessageOk(m) && t.rewinder && !t.releaser && !t.deadLetterer && !t.native
    ensures Trace(c, t, m, o) != []
    ensures var last := Trace(c, t, m, o)[|Trace(c, t, m, o)| - 1]; last == Acked(o.ack) || last == Rewound(o.rewind)
  {
    if Plan(c, t, m, o.handler) == LeaveNative {
      NativeOnlyWhenOffered(c, t, m, o.handler);
    }
    hide Plan;
  }

  lemma NativeOnlyWhenOffered(c: Config, t: Capabilities, m: Message, handlerOk: bool)
    requires MessageOk(m) && Plan(c, t, m, handlerOk) == LeaveNative
    ensures t.native && !c.deadLetter && (c.strategy.Fail? || c.strategy.Release?)
    ensures IsGated(m) || DecodeFailed(m) || IsBlank(Urn(m))
  {
  }

  /** A native settle is only ever the planned one. */
  lemma NativeIsPlanned(c: Config, t: Capabilities, m: Message, o: Outcome, i: nat)
    requires MessageOk(m)
    requires i < |Trace(c, t, m, o)| && Trace(c, t, m, o)[i].NativeSettle?
    ensures t.native && !c.deadLetter && (c.strategy.Fail? || c.strategy.Release?)
  {
    var a := Plan(c, t, m, o.handler);
    if a == LeaveNative {
      NativeOnlyWhenOffered(c, t, m, o.handler);
    }
    hide Plan, Trace, Perform, RunsHandler;
    TraceAt(c, t, m, o, i);
    PerformSettlesNatively(t, a, o, Shifted(c, m, i));
  }

  lemma PerformSettlesNatively(t: Capabilities, a: Action, o: Outcome, i: int)
    ensures 0 <= i < |Perform(t, a, o)| && Perform(t, a, o)[i].NativeSettle? ==> a == LeaveNative
  {
  }

  /** A copy goes back on the message's own queue only for a retry or an unknown-URN release. */
  lemma OwnCopyIsPlanned(c: Config, t: Capabilities, m: Message, o: Outcome, i: nat)
    requires MessageOk(m)
    requires i < |Trace(c, t, m, o)| && Trace(c, t, m, o)[i].Published? && Trace(c, t, m, o)[i].queue == Own
    ensures var a := Plan(c, t, m, o.handler); var p := Trace(c, t, m, o)[i].payload;
      (a.Retry? && p == WithAttempts(a.n)) || (a == Requeue && p == SameBody)
  {
    hide Plan, Trace, Perform, RunsHandler;
    TraceAt(c, t, m, o, i);
    PerformCopies(t, Plan(c, t, m, o.handler), o, Shifted(c, m, i));
  }

  lemma PerformCopies(t: Capabilities, a: Action, o: Outcome, i: int)
    ensures 0 <= i < |Perform(t, a, o)| && Perform(t, a, o)[i].Published? && Perform(t, a, o)[i].queue == Own ==>
      (a.Retry? && Perform(t, a, o)[i].payload == WithAttempts(a.n))
        || (a == Requeue && Perform(t, a, o)[i].payload == SameBody)
  {
  }

  /** The same message: the envelope with the same job, whatever its attempts. */
  predicate SameMessage(a: Body, b: Body) {
    match a
    case Envelope(job, _) => b.Envelope? && b.job == job
    case NoIdentity(_) => b.NoIdentity?
    case Undecodable => b.Undecodable?
  }

  lemma SameIsTransitive(a: Body, b: Body, b': Body)
    requires SameMessage(a, b) && SameMessage(b, b')
    ensures SameMessage(a, b')
  {
  }

  /** b' stands in for b: the same message, or, where nothing is dead-lettered, what is left of an
      undecodable body. */
  predicate Replaces(c: Config, b: Body, b': Body) {
    SameMessage(b, b') || (b.Undecodable? && b'.NoIdentity? && !WritesDeadLetters(c))
  }

  /** Every copy put back on the queue stands in for the message it was made from. */
  lemma CopyReplaces(c: Config, t: Capabilities, m: Message, o: Outcome, i: nat)
    requires MessageOk(m)
    requires i < |Trace(c, t, m, o)| && Trace(c, t, m, o)[i].Published? && Trace(c, t, m, o)[i].queue == Own
    ensures Replaces(c, m.body, Rewritten(m.body, Trace(c, t, m, o)[i].payload))
  {
    OwnCopyIsPlanned(c, t, m, o, i);
    if m.body.Undecodable? && (WritesDeadLetters(c) || t.native || c.strategy.Delete?) {
      UndecodableIsNotRetried(c, t, m, o.handler);
    }
    hide Plan, Trace;
  }

  lemma UndecodableIsNotRetried(c: Config, t: Capabilities, m: Message, handlerOk: bool)
    requires MessageOk(m) && m.body.Undecodable? && (WritesDeadLetters(c) || t.native || c.strategy.Delete?)
    ensures !Plan(c, t, m, handlerOk).Retry?
  {
  }

  /** A version-gated delivery, one the transport calls poison, and an undecodable body where dead letters are
      written: no handler runs for it, and it is neither released nor written back. */
  lemma HopelessIsNotTriedAgain(c: Config, t: Capabilities, m: Message, o: Outcome, i: nat)
    requires MessageOk(m) && i < |Trace(c, t, m, o)| && IsHopeless(c, m)
    ensures var e := Trace(c, t, m, o)[i]; !e.Handled? && !e.ReleasedInPlace? && (e.Published? ==> e.queue == Dlq)
  {
    HopelessPlan(c, t, m, o.handler);
    hide Plan, Trace, Perform, RunsHandler, IsHopeless;
    TraceAt(c, t, m, o, i);
    PerformTriesAgain(t, Plan(c, t, m, o.handler), o, Shifted(c, m, i));
  }

  predicate IsHopeless(c: Config, m: Message) {
    IsGated(m) || m.poison || (m.body.Undecodable? && WritesDeadLetters(c))
  }

  lemma HopelessPlan(c: Config, t: Capabilities, m: Message, handlerOk: bool)
    requires MessageOk(m) && IsHopeless(c, m)
    ensures !RunsHandler(c, m) && !Plan(c, t, m, handlerOk).Retry? && !Plan(c, t, m, handlerOk).Requeue?
    ensures IsGated(m) ==> Plan(c, t, m, handlerOk) in {Drop, LeaveNative, ToDeadLetter(SameBody, false)}
    ensures !IsGated(m) && (m.poison || !c.strategy.Delete?) ==>
      Plan(c, t, m, handlerOk) == ToDeadLetter(DeadLetterRecord, true)
  {
  }

  lemma PerformTriesAgain(t: Capabilities, a: Action, o: Outcome, i: int)
    requires !a.Retry? && !a.Requeue?
    ensures 0 <= i < |Perform(t, a, o)| ==>
      var e := Perform(t, a, o)[i]; !e.Handled? && !e.ReleasedInPlace? && (e.Published? ==> e.queue == Dlq)
  {
  }

  /** Nothing follows a rewind: the message is back with the broker. */
  lemma RewindIsLast(c: Config, t: Capabilities, m: Message, o: Outcome, i: nat)
    requires MessageOk(m)
    requires i < |Trace(c, t, m, o)| && Trace(c, t, m, o)[i].Rewound?
    ensures i == |Trace(c, t, m, o)| - 1
  {
    hide Plan, Trace, Perform, RunsHandler;
    TraceAt(c, t, m, o, i);
    PerformRewindsLast(t, Plan(c, t, m, o.handler), o, Shifted(c, m, i));
  }

  lemma PerformRewindsLast(t: Capabilities, a: Action, o: Outcome, i: int)
    ensures 0 <= i < |Perform(t, a, o)| && Perform(t, a, o)[i].Rewound? ==> i == |Perform(t, a, o)| - 1
  {
  }

  // ---------- What is written ----------

  /** A write to the dead-letter queue, on its own or as a move in one step. */
  predicate IsDeadLetter(e: Event) { (e.Published? && e.queue == Dlq) || e.GatedDeadLetter? }

  /** The body of a version-gated delivery is dead-lettered as it came. Every other one carries the record, and none is
      written when the record does not encode. The move in one step is made where the transport has it, the plain
      write where it has not. */
  lemma DeadLetterIsRecorded(c: Config, t: Capabilities, m: Message, o: Outcome, i: nat)
    requires MessageOk(m)
    requires i < |Trace(c, t, m, o)| && IsDeadLetter(Trace(c, t, m, o)[i])
    ensures var e := Trace(c, t, m, o)[i];
      && (if IsGated(m) then e.payload == SameBody else e.payload == DeadLetterRecord && o.encode)
      && (e.GatedDeadLetter? <==> t.deadLetterer) && e.ok == if t.deadLetterer then o.deadLetter else o.publish
  {
    hide Plan, Trace, Perform, RunsHandler, MessageOk, IsGated;
    TraceAt(c, t, m, o, i);
    PerformDeadLetters(t, Plan(c, t, m, o.handler), o, Shifted(c, m, i));
    PlanRecords(c, t, m, o.handler);
  }

  lemma PlanRecords(c: Config, t: Capabilities, m: Message, handlerOk: bool)
    requires MessageOk(m) && Plan(c, t, m, handlerOk).ToDeadLetter?
    ensures Plan(c, t, m, handlerOk) ==
      if IsGated(m) then ToDeadLetter(SameBody, false) else ToDeadLetter(DeadLetterRecord, true)
  {
  }

  lemma PerformDeadLetters(t: Capabilities, a: Action, o: Outcome, i: int)
    ensures 0 <= i < |Perform(t, a, o)| && IsDeadLetter(Perform(t, a, o)[i]) ==>
      var e := Perform(t, a, o)[i];
      && a.ToDeadLetter? && e.payload == a.payload && (a.encoded ==> o.encode)
      && (e.GatedDeadLetter? <==> t.deadLetterer) && e.ok == if t.deadLetterer then o.deadLetter else o.publish
  {
  }

  /** Trying again: a release in place where the transport has it, or a copy on the message's own queue. */
  predicate IsAnotherTry(e: Event) { (e.Published? && e.queue == Own) || e.ReleasedInPlace? }

  /** Released as it came: a usable body whose URN has no handler, under the release strategy. */
  predicate IsReleasedUnknown(c: Config, m: Message) {
    && !IsGated(m) && !m.poison && !DecodeFailed(m) && !IsBlank(Urn(m)) && Urn(m) !in c.handlers
    && c.strategy.Release?
  }

  /** Nothing but the attempts decides: a handler failed, or no other rule settles what no handler can take. */
  predicate IsCounted(c: Config, t: Capabilities, m: Message, handlerOk: bool) {
    && !IsGated(m) && !m.poison
    && if DecodeFailed(m) || IsBlank(Urn(m)) then
         !c.strategy.Delete? && !c.strategy.DeadLetter? && if c.deadLetter then !DecodeFailed(m) else !t.native
       else if Urn(m) in c.handlers then !handlerOk
       else c.strategy.Fail?
  }

  /** One more attempt reaches the maximum. */
  predicate IsExhausted(c: Config, m: Message)
    requires MessageOk(m)
  {
    Increment(Attempts(m)) >= c.maxAttempts
  }

  /** A copy carries one attempt more than the delivery, and fewer than the maximum; that of a released unknown URN is
      the body as it came. It is only written where a release in place is missing or unsupported. */
  lemma AnotherTryIsCounted(c: Config, t: Capabilities, m: Message, o: Outcome, i: nat)
    requires MessageOk(m)
    requires i < |Trace(c, t, m, o)| && IsAnotherTry(Trace(c, t, m, o)[i])
    ensures var e := Trace(c, t, m, o)[i];
      && (IsReleasedUnknown(c, m) || (IsCounted(c, t, m, o.handler) && !IsExhausted(c, m)))
      && (e.ReleasedInPlace? ==> t.releaser && e.result == o.release)
      && (e.Published? ==>
          && e.ok == o.publish && (!t.releaser || o.release.Unsupported?)
          && if IsReleasedUnknown(c, m) then e.payload == SameBody
             else o.encode && e.payload == WithAttempts(Increment(Attempts(m))))
  {
    PlanTries(c, t, m, o.handler);
    hide Plan, Trace, Perform, RunsHandler, IsReleasedUnknown, IsCounted, IsExhausted;
    TraceAt(c, t, m, o, i);
    PerformTries(t, Plan(c, t, m, o.handler), o, Shifted(c, m, i));
  }

  lemma PlanTries(c: Config, t: Capabilities, m: Message, handlerOk: bool)
    requires MessageOk(m)
    ensures var a := Plan(c, t, m, handlerOk);
      && (a == Requeue <==> IsReleasedUnknown(c, m))
      && (a.Retry? <==> IsCounted(c, t, m, handlerOk) && !IsExhausted(c, m))
      && (a.Retry? ==> a.n == Increment(Attempts(m)))
  {
    hide IsBlank, Attempts, Increment;
  }

  lemma PerformTries(t: Capabilities, a: Action, o: Outcome, i: int)
    ensures 0 <= i < |Perform(t, a, o)| && IsAnotherTry(Perform(t, a, o)[i]) ==>
      var e := Perform(t, a, o)[i];
      && (a.Retry? || a == Requeue)
      && (e.ReleasedInPlace? ==> t.releaser && e.result == o.release)
      && (e.Published? ==>
          && e.ok == o.publish && (!t.releaser || o.release.Unsupported?)
          && if a == Requeue then e.payload == SameBody else o.encode && e.payload == WithAttempts(a.n))
  {
  }

  // ---------- Which deliveries are written where ----------

  /** The configuration sends the delivery to the dead-letter queue. */
  predicate BelongsOnDlq(c: Config, t: Capabilities, m: Message, handlerOk: bool)
    requires MessageOk(m)
  {
    if IsGated(m) then !c.strategy.Delete? && (c.deadLetter || c.strategy.DeadLetter?)
    else
      || m.poison
      || (DecodeFailed(m) && c.deadLetter && !c.strategy.Delete?)
      || (c.strategy.DeadLetter? && (DecodeFailed(m) || IsBlank(Urn(m)) || Urn(m) !in c.handlers))
      || (IsCounted(c, t, m, handlerOk) && IsExhausted(c, m) && c.deadLetter)
  }

  /** The configuration lets the delivery go without a trace of it. */
  predicate IsLetGo(c: Config, t: Capabilities, m: Message, handlerOk: bool)
    requires MessageOk(m)
  {
    if IsGated(m) then c.strategy.Delete? || (!c.deadLetter && !c.strategy.DeadLetter? && !t.native)
    else
      && !m.poison
      && if c.strategy.Delete? && (DecodeFailed(m) || IsBlank(Urn(m)) || Urn(m) !in c.handlers) then true
         else IsCounted(c, t, m, handlerOk) && IsExhausted(c, m) && !c.deadLetter
  }

  /** Left to the broker: what no handler can ever take, where no dead letters are written. */
  predicate IsLeftToBroker(c: Config, t: Capabilities, m: Message) {
    && t.native && !c.deadLetter && !c.strategy.DeadLetter? && !c.strategy.Delete?
    && (IsGated(m) || (!m.poison && (DecodeFailed(m) || IsBlank(Urn(m)))))
  }

  predicate IsNative(e: Event) { e.NativeSettle? }

  predicate IsAck(e: Event) { e.Acked? }

  predicate Holds(tr: seq<Event>, kind: Event -> bool) { exists e :: e in tr && kind(e) }

  /** Over every configuration, transport, message and outcome: what is dead-lettered, what is tried again, and what
      is left to the broker, in each case exactly when. */
  lemma WrittenExactlyWhen(c: Config, t: Capabilities, m: Message, o: Outcome)
    requires MessageOk(m)
    ensures var tr := Trace(c, t, m, o);
      && (Holds(tr, IsDeadLetter) <==> BelongsOnDlq(c, t, m, o.handler) && (IsGated(m) || o.encode))
      && (Holds(tr, IsAnotherTry) <==>
          IsReleasedUnknown(c, m)
          || (IsCounted(c, t, m, o.handler) && !IsExhausted(c, m) && (t.releaser || o.encode)))
      && (Holds(tr, IsNative) <==> IsLeftToBroker(c, t, m))
  {
    var a := Plan(c, t, m, o.handler);
    PlanTries(c, t, m, o.handler);
    PlanDeadLetters(c, t, m, o.handler);
    if a.ToDeadLetter? { PlanRecords(c, t, m, o.handler); }
    HandledIsNoWrite(c, t, m, o, IsDeadLetter);
    HandledIsNoWrite(c, t, m, o, IsAnotherTry);
    HandledIsNoWrite(c, t, m, o, IsNative);
    PerformHolds(t, a, o);
    hide Plan, Trace, Perform, BelongsOnDlq, IsReleasedUnknown, IsCounted, IsExhausted, IsLeftToBroker, Holds, IsGated;
  }

  lemma HandledIsNoWrite(c: Config, t: Capabilities, m: Message, o: Outcome, kind: Event -> bool)
    requires MessageOk(m) && (RunsHandler(c, m) ==> !kind(Handled(o.handler)))
    ensures Holds(Trace(c, t, m, o), kind) <==> Holds(Perform(t, Plan(c, t, m, o.handler), o), kind)
  {
    hide Plan, Perform, RunsHandler;
  }

  lemma PerformHolds(t: Capabilities, a: Action, o: Outcome)
    ensures var tr := Perform(t, a, o);
      && (Holds(tr, IsDeadLetter) <==> a.ToDeadLetter? && (a.encoded ==> o.encode))
      && (Holds(tr, IsAnotherTry) <==> a == Requeue || (a.Retry? && (t.releaser || o.encode)))
      && (Holds(tr, IsNative) <==> a == LeaveNative)
  {
    var tr := Perform(t, a, o);
    if a.ToDeadLetter? && (a.encoded ==> o.encode) { assert IsDeadLetter(tr[0]); }
    if a == Requeue || (a.Retry? && (t.releaser || o.encode)) { assert IsAnotherTry(tr[0]); }
    if a == LeaveNative { assert IsNative(tr[0]); }
  }

  lemma PlanDeadLetters(c: Config, t: Capabilities, m: Message, handlerOk: bool)
    requires MessageOk(m)
    ensures var a := Plan(c, t, m, handlerOk);
      && (a.ToDeadLetter? <==> BelongsOnDlq(c, t, m, handlerOk))
      && (a == LeaveNative <==> IsLeftToBroker(c, t, m))
      && (a == Drop <==> IsLetGo(c, t, m, handlerOk))
  {
    hide IsBlank, Attempts, Increment;
  }

  /** An acknowledgement without a success and without a confirmed write is made exactly for what is let go. */
  lemma LetGoExactlyWhen(c: Config, t: Capabilities, m: Message, o: Outcome)
    requires MessageOk(m)
    ensures var tr := Trace(c, t, m, o);
      Holds(tr, IsAck) && !Holds(tr, JustifiesAck) <==> IsLetGo(c, t, m, o.handler)
  {
    PlanDeadLetters(c, t, m, o.handler);
    FinishMeansHandled(c, t, m, o.handler);
    if Plan(c, t, m, o.handler) == Drop { DropMeansNotHandled(c, t, m, o.handler); }
    PerformAcks(t, Plan(c, t, m, o.handler), o);
    HandledIsNoWrite(c, t, m, o, IsAck);
    if !(RunsHandler(c, m) && o.handler) {
      HandledIsNoWrite(c, t, m, o, JustifiesAck);
    } else {
      assert JustifiesAck(Trace(c, t, m, o)[0]);
    }
    hide Plan, Trace, Perform, RunsHandler, IsLetGo, Holds, BelongsOnDlq;
  }

  lemma DropMeansNotHandled(c: Config, t: Capabilities, m: Message, handlerOk: bool)
    requires MessageOk(m) && Plan(c, t, m, handlerOk) == Drop
    ensures !(RunsHandler(c, m) && handlerOk)
  {
  }

  lemma PerformAcks(t: Capabilities, a: Action, o: Outcome)
    ensures var tr := Perform(t, a, o);
      && (a == Drop || a == Finish ==> Holds(tr, IsAck) && !Holds(tr, JustifiesAck))
      && (a != Drop && a != Finish ==> Holds(tr, IsAck) ==> Holds(tr, JustifiesAck))
  {
    var tr := Perform(t, a, o);
    if a == Drop || a == Finish {
      assert IsAck(tr[0]);
    } else if e :| e in tr && IsAck(e) {
      var i :| 0 <= i < |tr| && tr[i] == e;
      PerformJustifiesAck(t, a, o, i);
      assert JustifiesAck(tr[i - 1]);
    }
  }

  // ---------- Which configurations can drop ----------

  /** Some message can be acknowledged without being handled or written anywhere. */
  predicate Lossy(c: Config, t: Capabilities) {
    || c.strategy.Delete?
    || (!c.deadLetter
      && (c.strategy.Fail? || (c.strategy.Release? && !t.native) || exists h :: h in c.handlers && !IsBlank(h)))
  }

  /** A dropped message exists exactly for the lossy configurations. */
  lemma DropsExactlyWhenLossy(c: Config, t: Capabilities)
    requires IsInt(c.maxAttempts)
    ensures Lossy(c, t) <==> exists m, ok :: MessageOk(m) && Plan(c, t, m, ok) == Drop
  {
    if Lossy(c, t) {
      var m := DroppedMessage(c, t);
      assert MessageOk(m) && Plan(c, t, m, false) == Drop;
    } else {
      forall m, ok | MessageOk(m) ensures Plan(c, t, m, ok) != Drop {
        NeverDrops(c, t, m, ok);
      }
    }
  }

  lemma NeverDrops(c: Config, t: Capabilities, m: Message, ok: bool)
    requires MessageOk(m) && !Lossy(c, t)
    ensures Plan(c, t, m, ok) != Drop
  {
    if RunsHandler(c, m) {
      assert c.deadLetter || (Urn(m) in c.handlers ==> IsBlank(Urn(m)));
    }
  }

  /** A message a lossy configuration drops when its handler, if it has one, fails. */
  lemma DroppedMessage(c: Config, t: Capabilities) returns (m: Message)
    requires IsInt(c.maxAttempts) && Lossy(c, t)
    ensures MessageOk(m) && Plan(c, t, m, false) == Drop
  {
    if c.strategy.Delete? {
      return Message(Undecodable, GATE_PREFIX, 1, false);
    }
    if c.strategy.Release? && !t.native {
      return Message(NoIdentity(MAX_INT - 1), "", 1, false);
    }
    if c.strategy.Fail? {
      assert !IsBlank("u") by { assert "u"[0] == 'u'; }
      return Message(Envelope("u", MAX_INT - 1), "", 1, false);
    }
    var h :| h in c.handlers && !IsBlank(h);
    return Message(Envelope(h, MAX_INT - 1), "", 1, false);
  }
}
