/**
  App.Drain (app.go) over the in-process transport (transport.go): every message is settled once per
  pass, none appears or disappears, and an unbounded drain ends. The measure is the sum, over the
  queued messages, of the deliveries each of them has left.
 */
module Draining {
  import opened AsciiSpace
  import opened Dispatch
  import opened Arithmetic

  datatype Copy = Copy(id: nat, body: Body)

  /** What the caller's code does in one dispatch; the in-process transport itself never fails. */
  datatype Attempt = Attempt(handler: bool, encode: bool)

  const NO_CAPABILITIES: Capabilities := Capabilities(false, false, false, false)

  function ToOutcome(a: Attempt): Outcome { Outcome(a.handler, true, Unsupported, a.encode, true, true, true, true) }

  /** Pop: no route, no delivery count, never flagged. */
  function Popped(b: Body): Message { Message(b, "", 0, false) }

  predicate BodyOk(b: Body) { (b.Envelope? ==> !IsBlank(b.job)) && (!b.Undecodable? ==> IsInt(b.attempts)) }

  predicate QueueOk(q: seq<Copy>) { forall k :: k in q ==> BodyOk(k.body) }

  /** The queues, and what became of the messages that left them. */
  datatype Store = Store(own: seq<Copy>, dlq: seq<nat>, finished: seq<nat>, dropped: seq<nat>, unwritten: seq<nat>)

  function PlanFor(c: Config, k: Copy, a: Attempt): Action
    requires BodyOk(k.body)
  {
    Plan(c, NO_CAPABILITIES, Popped(k.body), a.handler)
  }

  /** One dispatch of the message just popped from s. A body that does not encode was popped and is gone. */
  function Settled(c: Config, s: Store, k: Copy, a: Attempt): (v: Store)
    requires BodyOk(k.body)
    ensures QueueOk(s.own) ==> QueueOk(v.own)
  {
    match PlanFor(c, k, a)
    case Finish => s.(finished := s.finished + [k.id])
    case Drop => s.(dropped := s.dropped + [k.id])
    case LeaveNative => s
    case ToDeadLetter(_, encoded) =>
      if encoded && !a.encode then s.(unwritten := s.unwritten + [k.id]) else s.(dlq := s.dlq + [k.id])
    case Retry(n) =>
      if !a.encode then s.(unwritten := s.unwritten + [k.id])
      else s.(own := s.own + [Copy(k.id, Rewritten(k.body, WithAttempts(n)))])
    case Requeue => s.(own := s.own + [k])
  }

  /** The store after dispatching the oldest message. */
  function Stepped(c: Config, s: Store, a: Attempt): (v: Store)
    requires QueueOk(s.own) && s.own != []
    ensures QueueOk(v.own)
  {
    Settled(c, s.(own := s.own[1..]), s.own[0], a)
  }

  /** n dispatches, each of the oldest message; the i-th one goes as run(i) says. */
  function Drained(c: Config, s: Store, run: nat -> Attempt, n: nat): (v: Store)
    requires QueueOk(s.own)
    ensures QueueOk(v.own)
  {
    if n == 0 then s
    else
      var p := Drained(c, s, run, n - 1);
      if p.own == [] then p else Stepped(c, p, run(n - 1))
  }

  // ---------- The measure ----------

  /** How many dispatches at most until the message is gone: attempts start at -1 at the lowest here, also
      after the counter wrapped. */
  function Left(c: Config, b: Body): (n: nat)
    requires BodyOk(b)
    ensures n >= 1
  {
    var a := Attempts(Popped(b));
    if c.strategy.Delete? && !(b.Envelope? && b.job in c.handlers) then 1
    else if !b.Envelope? && WritesDeadLetters(c) then 1
    else if b.Envelope? && b.job !in c.handlers && !c.strategy.Fail? then 1
    else if a == MAX_INT then (if MIN_INT < c.maxAttempts then 1 + Max(1, c.maxAttempts + 1) else 1)
    else Max(1, c.maxAttempts - a)
  }

  function Total(c: Config, q: seq<Copy>): nat
    requires QueueOk(q)
  {
    if q == [] then 0 else Left(c, q[0].body) + Total(c, q[1..])
  }

  lemma {:induction false} TotalAppend(c: Config, q: seq<Copy>, k: Copy)
    requires QueueOk(q) && BodyOk(k.body)
    ensures QueueOk(q + [k]) && Total(c, q + [k]) == Total(c, q) + Left(c, k.body)
  {
    hide Left;
    if q != [] {
      TotalAppend(c, q[1..], k);
      assert (q + [k])[1..] == q[1..] + [k];
    } else {
      assert q + [k] == [k];
    }
  }

  /** An unknown URN under Release goes round for ever. */
  predicate Drainable(c: Config, b: Body) { c.strategy.Release? && b.Envelope? ==> b.job in c.handlers }

  predicate QueueDrainable(c: Config, q: seq<Copy>) { forall k :: k in q ==> Drainable(c, k.body) }

  /** A retried copy needs exactly one dispatch less. */
  lemma RetryLeavesOneLess(c: Config, k: Copy, a: Attempt)
    requires BodyOk(k.body) && Drainable(c, k.body) && IsInt(c.maxAttempts)
    ensures PlanFor(c, k, a) != Requeue && PlanFor(c, k, a) != LeaveNative
    ensures PlanFor(c, k, a).Retry? ==>
      var b := Rewritten(k.body, WithAttempts(PlanFor(c, k, a).n));
      BodyOk(b) && Drainable(c, b) && Left(c, b) == Left(c, k.body) - 1
    ensures !a.handler && !PlanFor(c, k, a).Retry? ==> Left(c, k.body) == 1
  {
    PopsUngated(k.body);
    hide IsBlank, IsGated;
  }

  lemma PopsUngated(b: Body)
    ensures !IsGated(Popped(b)) && (!b.Envelope? ==> IsBlank(Urn(Popped(b))) && DecodeFailed(Popped(b)))
  {
  }

  predicate Failing(a: Attempt) { !a.handler && a.encode }

  lemma SettledProgress(c: Config, s: Store, k: Copy, a: Attempt)
    requires BodyOk(k.body) && Drainable(c, k.body) && IsInt(c.maxAttempts)
    requires QueueOk(s.own) && QueueDrainable(c, s.own)
    ensures var v := Settled(c, s, k, a);
      && QueueOk(v.own) && QueueDrainable(c, v.own)
      && Total(c, v.own) < Total(c, s.own) + Left(c, k.body)
      && (Failing(a) ==> Total(c, v.own) == Total(c, s.own) + Left(c, k.body) - 1)
  {
    RetryLeavesOneLess(c, k, a);
    hide Left, PlanFor;
    var p := PlanFor(c, k, a);
    if p.Retry? && a.encode {
      TotalAppend(c, s.own, Copy(k.id, Rewritten(k.body, WithAttempts(p.n))));
    }
  }

  // ---------- Conservation ----------

  function Ids(q: seq<Copy>): seq<nat> { seq(|q|, i requires 0 <= i < |q| => q[i].id) }

  /** Every message, wherever it is. */
  function Everything(s: Store): multiset<nat> {
    multiset(Ids(s.own)) + multiset(s.dlq) + multiset(s.finished) + multiset(s.dropped) + multiset(s.unwritten)
  }

  lemma SettledConserves(c: Config, s: Store, k: Copy, a: Attempt)
    requires BodyOk(k.body)
    ensures Everything(Settled(c, s, k, a)) == Everything(s) + multiset{k.id}
  {
    hide PlanFor, Everything, BodyOk, QueueOk, Rewritten;
    NoNativeSettle(c, k, a);
    LandsOnce(s, k.id);
    var p := PlanFor(c, k, a);
    if p.Retry? {
      QueuedOnce(s, Copy(k.id, Rewritten(k.body, WithAttempts(p.n))));
    } else if p == Requeue {
      QueuedOnce(s, k);
    }
  }

  lemma LandsOnce(s: Store, id: nat)
    ensures Everything(s.(finished := s.finished + [id])) == Everything(s) + multiset{id}
    ensures Everything(s.(dropped := s.dropped + [id])) == Everything(s) + multiset{id}
    ensures Everything(s.(unwritten := s.unwritten + [id])) == Everything(s) + multiset{id}
    ensures Everything(s.(dlq := s.dlq + [id])) == Everything(s) + multiset{id}
  {
    hide Ids;
  }

  lemma QueuedOnce(s: Store, k: Copy)
    ensures Everything(s.(own := s.own + [k])) == Everything(s) + multiset{k.id}
  {
    assert Ids(s.own + [k]) == Ids(s.own) + [k.id];
    hide Ids;
  }

  lemma NoNativeSettle(c: Config, k: Copy, a: Attempt)
    requires BodyOk(k.body)
    ensures PlanFor(c, k, a) != LeaveNative
  {
  }

  lemma PopConserves(q: seq<Copy>)
    requires q != []
    ensures multiset(Ids(q)) == multiset(Ids(q[1..])) + multiset{q[0].id}
  {
    assert Ids(q) == [q[0].id] + Ids(q[1..]);
  }

  // ---------- Order ----------

  /** One more at the end, in the first place the dispatch may take a message to. */
  predicate Gains(q: seq<nat>, v: seq<nat>, id: nat) { v == q || v == q + [id] }

  /** A dispatch takes the oldest message; a copy it puts back goes behind all the others, which stay as they are. What
      it takes elsewhere comes last there. */
  lemma StepIsFifo(c: Config, s: Store, a: Attempt)
    requires QueueOk(s.own) && s.own != []
    ensures var v := Stepped(c, s, a); var id := s.own[0].id;
      && (v.own == s.own[1..] || exists copy :: v.own == s.own[1..] + [copy] && copy.id == id)
      && Gains(s.dlq, v.dlq, id) && Gains(s.finished, v.finished, id) && Gains(s.dropped, v.dropped, id)
      && Gains(s.unwritten, v.unwritten, id)
  {
    hide PlanFor, Rewritten, BodyOk;
    NoNativeSettle(c, s.own[0], a);
    var k, p := s.own[0], PlanFor(c, s.own[0], a);
    if p.Retry? && a.encode {
      assert Stepped(c, s, a).own == s.own[1..] + [Copy(k.id, Rewritten(k.body, WithAttempts(p.n)))];
    } else if p == Requeue {
      assert Stepped(c, s, a).own == s.own[1..] + [k];
    }
  }

  /** So messages whose handlers succeed are finished in the order they were queued. */
  lemma {:induction false} FinishedInOrder(c: Config, s: Store, run: nat -> Attempt, n: nat)
    requires QueueOk(s.own) && n <= |s.own|
    requires forall k, i: nat :: k in s.own ==> PlanFor(c, k, run(i)) == Finish
    ensures var v := Drained(c, s, run, n); v.own == s.own[n..] && v.finished == s.finished + Ids(s.own[..n])
  {
    hide PlanFor, Stepped, Ids;
    IdsSnoc(s.own, n);
    if n > 0 {
      FinishedInOrder(c, s, run, n - 1);
      assert s.own[n - 1] in s.own;
      FinishesOldest(c, Drained(c, s, run, n - 1), run(n - 1));
    }
  }

  lemma FinishesOldest(c: Config, s: Store, a: Attempt)
    requires QueueOk(s.own) && s.own != [] && PlanFor(c, s.own[0], a) == Finish
    ensures var v := Stepped(c, s, a); v.own == s.own[1..] && v.finished == s.finished + [s.own[0].id]
  {
    hide PlanFor;
  }

  lemma IdsSnoc(q: seq<Copy>, n: nat)
    requires n <= |q|
    ensures Ids(q[..n]) == if n == 0 then [] else Ids(q[..n - 1]) + [q[n - 1].id]
  {
  }

  // ---------- The transport and the loop ----------

  /** The copies a sequence of calls puts on the message's own queue. */
  function OwnCopies(k: Copy, calls: seq<Event>): seq<Copy> {
    if calls == [] then []
    else
      var last := calls[|calls| - 1];
      OwnCopies(k, calls[..|calls| - 1]) +
      if last.Published? && last.queue == Own then [Copy(k.id, Rewritten(k.body, last.payload))] else []
  }

  function DlqCopies(k: Copy, calls: seq<Event>): seq<nat> {
    if calls == [] then []
    else
      var last := calls[|calls| - 1];
      DlqCopies(k, calls[..|calls| - 1]) + if last.Published? && last.queue == Dlq then [k.id] else []
  }

  class InMemoryTransport {
    var own: seq<Copy>
    var dlq: seq<nat>

    constructor (own: seq<Copy>)
      ensures this.own == own && dlq == []
    {
      this.own, dlq := own, [];
    }

    /** The calls of one dispatch, carried out; Ack does nothing. */
    method Carry(k: Copy, calls: seq<Event>)
      modifies this
      ensures own == old(own) + OwnCopies(k, calls) && dlq == old(dlq) + DlqCopies(k, calls)
    {
      for i := 0 to |calls|
        invariant own == old(own) + OwnCopies(k, calls[..i])
        invariant dlq == old(dlq) + DlqCopies(k, calls[..i])
      {
        var e := calls[i];
        assert calls[..i + 1][..i] == calls[..i];
        if e.Published? {
          if e.queue == Own {
            own := own + [Copy(k.id, Rewritten(k.body, e.payload))];
          } else {
            dlq := dlq + [k.id];
          }
        }
      }
      assert calls[..|calls|] == calls;
    }
  }

  /** The calls of a dispatch have exactly the effect of Settled. */
  lemma CarriedIsSettled(c: Config, s: Store, k: Copy, a: Attempt)
    requires BodyOk(k.body)
    ensures var calls := Trace(c, NO_CAPABILITIES, Popped(k.body), ToOutcome(a));
      Settled(c, s, k, a).own == s.own + OwnCopies(k, calls) && Settled(c, s, k, a).dlq == s.dlq + DlqCopies(k, calls)
  {
    NoNativeSettle(c, k, a);
    var p := PlanFor(c, k, a);
    var pre := if RunsHandler(c, Popped(k.body)) then [Handled(a.handler)] else [];
    hide PlanFor, Plan, RunsHandler;
    PerformedIsSettled(c, s, k, a, p);
    SkipHandled(k, pre, Perform(NO_CAPABILITIES, p, ToOutcome(a)));
  }

  lemma PerformedIsSettled(c: Config, s: Store, k: Copy, a: Attempt, p: Action)
    requires BodyOk(k.body) && p == PlanFor(c, k, a) && p != LeaveNative
    ensures var calls := Perform(NO_CAPABILITIES, p, ToOutcome(a));
      Settled(c, s, k, a).own == s.own + OwnCopies(k, calls) && Settled(c, s, k, a).dlq == s.dlq + DlqCopies(k, calls)
  {
    hide PlanFor;
    var calls := Perform(NO_CAPABILITIES, p, ToOutcome(a));
    assert |calls| <= 2;
    if |calls| == 2 {
      AckedCopies(k, calls[0], calls[1]);
      assert calls == [calls[0], calls[1]];
    }
  }

  lemma AckedCopies(k: Copy, e: Event, f: Event)
    requires !f.Published?
    ensures OwnCopies(k, [e, f]) == OwnCopies(k, [e]) && DlqCopies(k, [e, f]) == DlqCopies(k, [e])
  {
    assert [e, f][..1] == [e];
  }

  lemma SkipHandled(k: Copy, pre: seq<Event>, calls: seq<Event>)
    requires pre == [] || (|pre| == 1 && pre[0].Handled?)
    ensures OwnCopies(k, pre + calls) == OwnCopies(k, calls) && DlqCopies(k, pre + calls) == DlqCopies(k, calls)
  {
    if calls == [] {
      assert pre + calls == pre;
    } else {
      var n := |calls| - 1;
      assert (pre + calls)[..|pre + calls| - 1] == pre + calls[..n];
      assert (pre + calls)[|pre + calls| - 1] == calls[n];
      SkipHandled(k, pre, calls[..n]);
    }
  }

  lemma StepConserves(c: Config, s: Store, a: Attempt)
    requires QueueOk(s.own) && s.own != []
    ensures Everything(Stepped(c, s, a)) == Everything(s)
  {
    PopConserves(s.own);
    SettledConserves(c, s.(own := s.own[1..]), s.own[0], a);
    hide Settled;
  }

  lemma StepProgress(c: Config, s: Store, a: Attempt)
    requires QueueOk(s.own) && s.own != [] && QueueDrainable(c, s.own) && IsInt(c.maxAttempts)
    ensures var v := Stepped(c, s, a);
      && QueueDrainable(c, v.own) && Total(c, v.own) < Total(c, s.own)
      && (Failing(a) ==> Total(c, v.own) == Total(c, s.own) - 1)
  {
    SettledProgress(c, s.(own := s.own[1..]), s.own[0], a);
    hide Settled, Left;
  }

  /** Pop, dispatch, and the calls it makes. */
  method DrainOne(app: App, transport: InMemoryTransport, a: Attempt, ghost s: Store)
    requires app.caps == NO_CAPABILITIES
    requires QueueOk(s.own) && s.own != [] && s.own == transport.own && s.dlq == transport.dlq
    modifies app, transport
    ensures var v := Stepped(app.cfg, s, a); transport.own == v.own && transport.dlq == v.dlq
  {
    var k := transport.own[0];
    transport.own := transport.own[1..];
    var before := |app.log|;
    app.Dispatch(Popped(k.body), ToOutcome(a));
    transport.Carry(k, app.log[before..]);
    CarriedIsSettled(app.cfg, s.(own := s.own[1..]), k, a);
    hide Settled, Trace;
  }

  /** Drain: at most max messages, or, with max <= 0, until the queue is empty. */
  method Drain(app: App, transport: InMemoryTransport, max: int, run: nat -> Attempt)
    returns (processed: nat, ghost end: Store)
    requires app.caps == NO_CAPABILITIES && IsInt(app.cfg.maxAttempts)
    requires QueueOk(transport.own)
    requires max > 0 || QueueDrainable(app.cfg, transport.own)
    modifies app, transport
    ensures QueueOk(transport.own)
    ensures end == Drained(app.cfg, Store(old(transport.own), old(transport.dlq), [], [], []), run, processed)
    ensures end.own == transport.own && end.dlq == transport.dlq
    ensures max > 0 ==> processed <= max
    ensures processed < max || max <= 0 ==> transport.own == []
    ensures Everything(end) == Everything(Store(old(transport.own), old(transport.dlq), [], [], []))
    ensures QueueDrainable(app.cfg, old(transport.own)) ==> processed <= Total(app.cfg, old(transport.own))
    ensures max <= 0 && (forall i :: 0 <= i < processed ==> Failing(run(i))) ==>
      processed == Total(app.cfg, old(transport.own))
  {
    hide Stepped, Everything, QueueDrainable;
    processed := 0;
    end := Store(transport.own, transport.dlq, [], [], []);
    ghost var start := end;
    ghost var drainable := QueueDrainable(app.cfg, transport.own);
    while max <= 0 || processed < max
      invariant QueueOk(transport.own) && end.own == transport.own && end.dlq == transport.dlq
      invariant end == Drained(app.cfg, start, run, processed)
      invariant max > 0 ==> processed <= max
      invariant Everything(end) == Everything(start)
      invariant drainable ==> QueueDrainable(app.cfg, end.own)
      invariant drainable ==> processed + Total(app.cfg, end.own) <= Total(app.cfg, start.own)
      invariant drainable && (forall i :: 0 <= i < processed ==> Failing(run(i))) ==>
        processed + Total(app.cfg, end.own) == Total(app.cfg, start.own)
      decreases if max > 0 then max - processed else Total(app.cfg, transport.own)
    {
      if transport.own == [] {
        break;
      }
      DrainOne(app, transport, run(processed), end);
      StepConserves(app.cfg, end, run(processed));
      if drainable {
        StepProgress(app.cfg, end, run(processed));
      }
      end := Stepped(app.cfg, end, run(processed));
      processed := processed + 1;
    }
  }

  /** A released unknown URN is on the queue again after every dispatch, unchanged. */
  lemma ReleasedNeverDrains(c: Config, k: Copy, a: Attempt)
    requires BodyOk(k.body) && !Drainable(c, k.body)
    ensures Settled(c, Store([], [], [], [], []), k, a) == Store([k], [], [], [], [])
  {
    PopsUngated(k.body);
  }
}
