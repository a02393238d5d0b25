/** Many Apps working on one queue of a reserving broker. */
module ReservingBroker {
  // A held copy may be delivered at any time, also while another consumer works on it (its reservation lapsed),
  // a consumer may stop between any two calls, and a failing call may still have taken effect.

  import opened Dispatch
  import opened Settlement

  datatype Copy = Copy(id: nat, body: Body)

  /** A delivery being worked on; `done` calls of its trace have been made. */
  datatype Delivery = Delivery(tag: nat, id: nat, message: Message, outcome: Outcome, done: nat)

  datatype World = World(
    accepted: map<nat, Body>,        // every message the broker took, by id
    held: map<nat, Copy>,            // copies on the queue, by tag
    next: nat,                       // the next tag
    handled: set<nat>,
    dlq: set<nat>,
    native: set<nat>,
    dropped: set<nat>,
    consumers: map<nat, Delivery>)

  datatype Step =
    | Accept(id: nat, body: Body)
    | Deliver(consumer: nat, tag: nat, message: Message, outcome: Outcome)
    | Call(consumer: nat, lands: bool)
    | Stop(consumer: nat)            // the dispatch returned, or the consumer crashed

  function Calls(c: Config, t: Capabilities, d: Delivery): seq<Event>
    requires MessageOk(d.message)
  {
    Trace(c, t, d.message, d.outcome)
  }

  predicate IsDrop(c: Config, t: Capabilities, d: Delivery)
    requires MessageOk(d.message)
  {
    Plan(c, t, d.message, d.outcome.handler) == Drop
  }

  predicate Enabled(c: Config, t: Capabilities, w: World, s: Step) {
    match s
    case Accept(id, body) => id !in w.accepted
    case Deliver(consumer, tag, m, _) =>
      consumer !in w.consumers && tag in w.held && MessageOk(m) && m.body == w.held[tag].body
    case Call(consumer, lands) =>
      && consumer in w.consumers
      && var d := w.consumers[consumer];
      && MessageOk(d.message)
      && d.done < |Calls(c, t, d)|
      && (Calls(c, t, d)[d.done].Published? && Calls(c, t, d)[d.done].ok ==> lands)
    case Stop(consumer) => consumer in w.consumers
  }

  function Put(w: World, id: nat, body: Body): World {
    w.(held := w.held[w.next := Copy(id, body)], next := w.next + 1)
  }

  function Remove(w: World, tag: nat): World { w.(held := w.held - {tag}) }

  /** What a call does to the broker when it lands. */
  function Effect(c: Config, t: Capabilities, w: World, d: Delivery, e: Event): (v: World)
    requires MessageOk(d.message)
    ensures v.consumers == w.consumers && v.accepted == w.accepted
  {
    match e
    case Handled(ok) => if ok then w.(handled := w.handled + {d.id}) else w
    case Acked(_) => Remove(if IsDrop(c, t, d) then w.(dropped := w.dropped + {d.id}) else w, d.tag)
    case Published(q, p, _) =>
      if q == Own then Put(w, d.id, Rewritten(d.message.body, p)) else w.(dlq := w.dlq + {d.id})
    case GatedDeadLetter(_, _) => if d.tag in w.held then Remove(w.(dlq := w.dlq + {d.id}), d.tag) else w
    case NativeSettle(_) => if d.tag in w.held then Remove(w.(native := w.native + {d.id}), d.tag) else w
    case ReleasedInPlace(_) => w
    case Rewound(_) => w
  }

  /** The consumer has made its next call. */
  function Advance(w: World, n: nat): World
    requires n in w.consumers
  {
    w.(consumers := w.consumers[n := w.consumers[n].(done := w.consumers[n].done + 1)])
  }

  function Next(c: Config, t: Capabilities, w: World, s: Step): World
    requires Enabled(c, t, w, s)
  {
    match s
    case Accept(id, body) => Put(w.(accepted := w.accepted[id := body]), id, body)
    case Deliver(consumer, tag, m, o) =>
      w.(consumers := w.consumers[consumer := Delivery(tag, w.held[tag].id, m, o, 0)])
    case Call(consumer, lands) =>
      var d := w.consumers[consumer];
      var e := Calls(c, t, d)[d.done];
      Advance(if lands || e == Handled(true) then Effect(c, t, w, d, e) else w, consumer)
    case Stop(consumer) => w.(consumers := w.consumers - {consumer})
  }

  predicate Runs(c: Config, t: Capabilities, w: World, steps: seq<Step>)
    decreases |steps|
  {
    steps == [] || (Enabled(c, t, w, steps[0]) && Runs(c, t, Next(c, t, w, steps[0]), steps[1..]))
  }

  function Run(c: Config, t: Capabilities, w: World, steps: seq<Step>): World
    requires Runs(c, t, w, steps)
    decreases |steps|
  {
    if steps == [] then w else Run(c, t, Next(c, t, w, steps[0]), steps[1..])
  }

  const EMPTY: World := World(map[], map[], 0, {}, {}, {}, {}, map[])

  // ---------- The invariant ----------

  predicate Settled(w: World, id: nat) { id in w.handled || id in w.dlq || id in w.native || id in w.dropped }

  predicate HeldFrom(w: World, id: nat, tag: nat) { exists k :: k in w.held && k >= tag && w.held[k].id == id }

  /** The message is settled, or a copy at least as young as `tag` is still on the queue. */
  predicate Covered(w: World, id: nat, tag: nat) { Settled(w, id) || HeldFrom(w, id, tag) }

  predicate TagsInv(w: World) {
    && (forall k :: k in w.held ==> k < w.next && w.held[k].id in w.accepted)
    && (forall n :: n in w.consumers ==> w.consumers[n].tag < w.next && w.consumers[n].id in w.accepted)
    && (forall n :: n in w.consumers && w.consumers[n].tag in w.held ==>
        w.held[w.consumers[n].tag].id == w.consumers[n].id)
  }

  predicate AcceptedInv(w: World) { forall id :: id in w.accepted ==> Covered(w, id, 0) }

  /** The call just made justifies an ack: the message is covered without the delivered copy. */
  predicate Justified(c: Config, t: Capabilities, d: Delivery) {
    MessageOk(d.message) && 0 < d.done <= |Calls(c, t, d)| && JustifiesAck(Calls(c, t, d)[d.done - 1])
  }

  predicate ConsumersInv(c: Config, t: Capabilities, w: World) {
    && (forall n :: n in w.consumers ==> MessageOk(w.consumers[n].message))
    && (forall n :: n in w.consumers && Justified(c, t, w.consumers[n]) ==>
        Covered(w, w.consumers[n].id, w.consumers[n].tag + 1))
  }

  predicate Inv(c: Config, t: Capabilities, w: World) { TagsInv(w) && AcceptedInv(w) && ConsumersInv(c, t, w) }

  /** v covers everything w does. */
  ghost predicate CoversAll(w: World, v: World) { forall id, tag :: Covered(w, id, tag) ==> Covered(v, id, tag) }

  lemma PutCovers(w: World, id: nat, body: Body)
    requires TagsInv(w)
    ensures CoversAll(w, Put(w, id, body)) && HeldFrom(Put(w, id, body), id, w.next)
  {
    var v := Put(w, id, body);
    assert w.next in v.held && v.held[w.next].id == id;
    forall i, tag | HeldFrom(w, i, tag) ensures HeldFrom(v, i, tag) {
      var k :| k in w.held && k >= tag && w.held[k].id == i;
      assert k in v.held && v.held[k].id == i;
    }
  }

  /** A copy whose message is covered without it may go: whoever leaned on it leans on the younger one. */
  lemma RemoveCovers(w: World, tag: nat)
    requires tag in w.held ==> Covered(w, w.held[tag].id, tag + 1)
    ensures CoversAll(w, Remove(w, tag))
  {
    var v := Remove(w, tag);
    forall i, u | HeldFrom(w, i, u) ensures Covered(v, i, u) {
      var k :| k in w.held && k >= u && w.held[k].id == i;
      if k != tag {
        assert k in v.held && v.held[k].id == i;
      } else if !Settled(w, i) {
        var j :| j in w.held && j >= tag + 1 && w.held[j].id == i;
        assert j in v.held && j >= u && v.held[j].id == i;
      }
    }
  }

  lemma RemoveSettledCovers(w: World, tag: nat)
    requires tag in w.held ==> Settled(w, w.held[tag].id)
    ensures CoversAll(w, Remove(w, tag))
  {
    RemoveCovers(w, tag);
  }

  /** An acked delivery is covered without its copy, or its message is dropped by configuration. */
  lemma AckCovers(c: Config, t: Capabilities, w: World, d: Delivery)
    requires MessageOk(d.message) && d.done < |Calls(c, t, d)| && Calls(c, t, d)[d.done].Acked?
    requires d.tag in w.held ==> w.held[d.tag].id == d.id
    requires Justified(c, t, d) ==> Covered(w, d.id, d.tag + 1)
    ensures CoversAll(w, Effect(c, t, w, d, Calls(c, t, d)[d.done]))
  {
    AckIsJustified(c, t, d.message, d.outcome, d.done);
    hide Plan, Trace;
    if IsDrop(c, t, d) {
      var u := w.(dropped := w.dropped + {d.id});
      assert CoversAll(w, u) by {
        forall i, k | HeldFrom(w, i, k) ensures HeldFrom(u, i, k) {
          var j :| j in w.held && j >= k && w.held[j].id == i;
          assert j in u.held;
        }
      }
      RemoveCovers(u, d.tag);
    } else {
      RemoveCovers(w, d.tag);
    }
  }

  /** No other call uncovers anything, whatever led to it. */
  lemma OtherCallCovers(c: Config, t: Capabilities, w: World, d: Delivery, e: Event)
    requires MessageOk(d.message) && TagsInv(w) && !e.Acked?
    requires d.tag in w.held ==> w.held[d.tag].id == d.id
    ensures CoversAll(w, Effect(c, t, w, d, e))
  {
    hide Covered, HeldFrom, IsDrop;
    match e
    case Handled(_) => SettlingCovers(w, Effect(c, t, w, d, e));
    case Published(q, p, _) =>
      if q == Own {
        PutCovers(w, d.id, Rewritten(d.message.body, p));
      } else {
        SettlingCovers(w, Effect(c, t, w, d, e));
      }
    case GatedDeadLetter(_, _) =>
      var u := w.(dlq := w.dlq + {d.id});
      SettlingCovers(w, u);
      RemoveSettledCovers(u, d.tag);
    case NativeSettle(_) =>
      var u := w.(native := w.native + {d.id});
      SettlingCovers(w, u);
      RemoveSettledCovers(u, d.tag);
    case ReleasedInPlace(_) =>
    case Rewound(_) =>
  }

  lemma SettlingCovers(w: World, v: World)
    requires v.held == w.held && w.handled <= v.handled && w.dlq <= v.dlq && w.native <= v.native
    requires w.dropped <= v.dropped
    ensures CoversAll(w, v)
  {
    forall i, k | HeldFrom(w, i, k) ensures HeldFrom(v, i, k) {
      var j :| j in w.held && j >= k && w.held[j].id == i;
      assert j in v.held;
    }
  }

  /** A justifying call that landed leaves the message covered by something younger. */
  lemma JustifyingCovers(c: Config, t: Capabilities, w: World, d: Delivery, e: Event)
    requires MessageOk(d.message) && TagsInv(w) && d.tag < w.next && JustifiesAck(e)
    ensures Covered(Effect(c, t, w, d, e), d.id, d.tag + 1)
  {
    if e.Published? && e.queue == Own {
      PutCovers(w, d.id, Rewritten(d.message.body, e.payload));
      var v := Put(w, d.id, Rewritten(d.message.body, e.payload));
      assert w.next in v.held && v.held[w.next].id == d.id;
    }
  }

  // ---------- Every step keeps it ----------

  lemma CoverCarries(c: Config, t: Capabilities, w: World, v: World)
    requires ConsumersInv(c, t, w) && AcceptedInv(w) && CoversAll(w, v)
    requires v.accepted == w.accepted && v.consumers == w.consumers
    ensures AcceptedInv(v) && ConsumersInv(c, t, v)
  {
  }

  /** The call lands: everything is kept, and what it justifies is covered. */
  lemma LandingKeeps(c: Config, t: Capabilities, w: World, n: nat)
    requires Inv(c, t, w) && n in w.consumers && w.consumers[n].done < |Calls(c, t, w.consumers[n])|
    ensures var d := w.consumers[n]; var e := Calls(c, t, d)[d.done]; var u := Effect(c, t, w, d, e);
      && Inv(c, t, u) && u.consumers == w.consumers
      && (JustifiesAck(e) ==> Covered(u, d.id, d.tag + 1))
  {
    var d := w.consumers[n];
    var e := Calls(c, t, d)[d.done];
    CallKeepsTags(c, t, w, d, e);
    if e.Acked? {
      AckCovers(c, t, w, d);
    } else {
      OtherCallCovers(c, t, w, d, e);
    }
    if JustifiesAck(e) {
      JustifyingCovers(c, t, w, d, e);
    }
    hide Effect, Calls, JustifiesAck;
    CoverCarries(c, t, w, Effect(c, t, w, d, e));
  }

  lemma AdvanceKeepsTags(u: World, n: nat)
    requires TagsInv(u) && n in u.consumers
    ensures TagsInv(Advance(u, n))
  {
  }

  lemma AdvanceKeepsConsumers(c: Config, t: Capabilities, u: World, n: nat)
    requires ConsumersInv(c, t, u) && n in u.consumers && u.consumers[n].done < |Calls(c, t, u.consumers[n])|
    requires var d := u.consumers[n]; JustifiesAck(Calls(c, t, d)[d.done]) ==> Covered(u, d.id, d.tag + 1)
    ensures ConsumersInv(c, t, Advance(u, n))
  {
    hide Trace, JustifiesAck, Covered, CoversAll;
    var d := u.consumers[n];
    var v := Advance(u, n);
    assert Calls(c, t, d.(done := d.done + 1)) == Calls(c, t, d);
    SameBrokerCovers(u, v);
    forall k | k in v.consumers && Justified(c, t, v.consumers[k])
      ensures Covered(u, v.consumers[k].id, v.consumers[k].tag + 1)
    {
      if k != n { assert Justified(c, t, u.consumers[k]); }
    }
    SameCovers(u, v);
  }

  lemma SameCovers(u: World, v: World)
    requires CoversAll(u, v)
    ensures forall id, tag :: Covered(u, id, tag) ==> Covered(v, id, tag)
  {
  }

  /** The consumer goes on to its next call. */
  lemma AdvanceKeeps(c: Config, t: Capabilities, u: World, n: nat)
    requires Inv(c, t, u) && n in u.consumers && u.consumers[n].done < |Calls(c, t, u.consumers[n])|
    requires var d := u.consumers[n]; JustifiesAck(Calls(c, t, d)[d.done]) ==> Covered(u, d.id, d.tag + 1)
    ensures Inv(c, t, Advance(u, n))
  {
    AdvanceKeepsTags(u, n);
    AdvanceKeepsConsumers(c, t, u, n);
    SameBrokerCovers(u, Advance(u, n));
    SameCovers(u, Advance(u, n));
    hide ConsumersInv, TagsInv, Calls, JustifiesAck, Covered, CoversAll;
  }

  lemma CallKeeps(c: Config, t: Capabilities, w: World, s: Step)
    requires s.Call? && Enabled(c, t, w, s) && Inv(c, t, w)
    ensures Inv(c, t, Next(c, t, w, s))
  {
    var d := w.consumers[s.consumer];
    var e := Calls(c, t, d)[d.done];
    hide Inv, Calls, Effect, Covered, JustifiesAck, Advance;
    if s.lands || e == Handled(true) {
      LandingKeeps(c, t, w, s.consumer);
      AdvanceKeeps(c, t, Effect(c, t, w, d, e), s.consumer);
    } else {
      AdvanceKeeps(c, t, w, s.consumer);
    }
  }

  lemma SameBrokerCovers(u: World, v: World)
    requires v.(consumers := u.consumers) == u
    ensures CoversAll(u, v) && CoversAll(v, u)
  {
    SettlingCovers(u, v);
    SettlingCovers(v, u);
  }

  lemma CallKeepsTags(c: Config, t: Capabilities, w: World, d: Delivery, e: Event)
    requires MessageOk(d.message) && TagsInv(w) && d.id in w.accepted
    ensures TagsInv(Effect(c, t, w, d, e))
    ensures Effect(c, t, w, d, e).next >= w.next
    ensures Effect(c, t, w, d, e).accepted == w.accepted && Effect(c, t, w, d, e).consumers == w.consumers
    ensures forall k :: k in Effect(c, t, w, d, e).held && k < w.next ==>
      k in w.held && Effect(c, t, w, d, e).held[k] == w.held[k]
  {
    hide Plan;
  }

  lemma AcceptKeeps(c: Config, t: Capabilities, w: World, s: Step)
    requires s.Accept? && Enabled(c, t, w, s) && Inv(c, t, w)
    ensures Inv(c, t, Next(c, t, w, s))
  {
    hide Calls;
    var u := w.(accepted := w.accepted[s.id := s.body]);
    SettlingCovers(w, u);
    PutCovers(u, s.id, s.body);
  }

  lemma DeliverKeeps(c: Config, t: Capabilities, w: World, s: Step)
    requires (s.Deliver? || s.Stop?) && Enabled(c, t, w, s) && Inv(c, t, w)
    ensures Inv(c, t, Next(c, t, w, s))
  {
    hide Calls;
    var v := Next(c, t, w, s);
    SameBrokerCovers(w, v);
  }

  lemma StepKeeps(c: Config, t: Capabilities, w: World, s: Step)
    requires Enabled(c, t, w, s) && Inv(c, t, w)
    ensures Inv(c, t, Next(c, t, w, s))
  {
    match s
    case Accept(_, _) => AcceptKeeps(c, t, w, s);
    case Deliver(_, _, _, _) => DeliverKeeps(c, t, w, s);
    case Call(_, _) => CallKeeps(c, t, w, s);
    case Stop(_) => DeliverKeeps(c, t, w, s);
  }

  // ---------- What a configuration keeps out ----------

  predicate BodiesInv(w: World) {
    && (forall k :: k in w.held ==> w.held[k].id in w.accepted && SameMessage(w.accepted[w.held[k].id], w.held[k].body))
    && (forall n :: n in w.consumers ==>
        w.consumers[n].id in w.accepted && SameMessage(w.accepted[w.consumers[n].id], w.consumers[n].message.body))
  }

  predicate ConfigInv(c: Config, t: Capabilities, w: World) {
    && (forall n :: n in w.consumers ==> MessageOk(w.consumers[n].message))
    && (!Lossy(c, t) ==> w.dropped == {})
    && (c.deadLetter ==> w.native == {})
    && (WritesDeadLetters(c) ==> BodiesInv(w))
  }

  /** A call drops only where the configuration says so. */
  lemma LandingKeepsDropped(c: Config, t: Capabilities, w: World, d: Delivery)
    requires MessageOk(d.message) && d.done < |Calls(c, t, d)| && !Lossy(c, t)
    ensures Effect(c, t, w, d, Calls(c, t, d)[d.done]).dropped == w.dropped
  {
    if IsDrop(c, t, d) {
      NeverDrops(c, t, d.message, d.outcome.handler);
    }
    hide Calls, Lossy, Rewritten, IsDrop;
  }

  /** It settles natively only without dead-lettering of its own. */
  lemma LandingKeepsNative(c: Config, t: Capabilities, w: World, d: Delivery)
    requires MessageOk(d.message) && d.done < |Calls(c, t, d)| && c.deadLetter
    ensures Effect(c, t, w, d, Calls(c, t, d)[d.done]).native == w.native
  {
    if Calls(c, t, d)[d.done].NativeSettle? {
      NativeIsPlanned(c, t, d.message, d.outcome, d.done);
    }
    hide Plan, Trace, Rewritten, IsDrop;
  }

  /** What is put back on the queue is the same message. */
  lemma LandingKeepsBodies(c: Config, t: Capabilities, w: World, d: Delivery)
    requires MessageOk(d.message) && d.done < |Calls(c, t, d)| && WritesDeadLetters(c) && BodiesInv(w)
    requires d.id in w.accepted && SameMessage(w.accepted[d.id], d.message.body)
    ensures BodiesInv(Effect(c, t, w, d, Calls(c, t, d)[d.done]))
  {
    var e := Calls(c, t, d)[d.done];
    if e.Published? && e.queue == Own {
      CopyReplaces(c, t, d.message, d.outcome, d.done);
      CopyIsSame(w.accepted[d.id], d.message.body, Rewritten(d.message.body, e.payload), c);
    }
    hide Plan, Calls, SameMessage, Rewritten;
  }

  lemma CopyIsSame(first: Body, body: Body, copy: Body, c: Config)
    requires WritesDeadLetters(c) && SameMessage(first, body) && Replaces(c, body, copy)
    ensures SameMessage(first, copy)
  {
    SameIsTransitive(first, body, copy);
  }

  lemma LandingKeepsConfig(c: Config, t: Capabilities, w: World, n: nat)
    requires ConfigInv(c, t, w) && n in w.consumers && w.consumers[n].done < |Calls(c, t, w.consumers[n])|
    ensures var d := w.consumers[n]; var u := Effect(c, t, w, d, Calls(c, t, d)[d.done]);
      ConfigInv(c, t, u) && u.consumers == w.consumers
  {
    if !Lossy(c, t) {
      LandingKeepsDropped(c, t, w, w.consumers[n]);
    }
    if c.deadLetter {
      LandingKeepsNative(c, t, w, w.consumers[n]);
    }
    if WritesDeadLetters(c) {
      LandingKeepsBodies(c, t, w, w.consumers[n]);
    }
    hide Effect, Calls, BodiesInv, Lossy;
  }

  lemma CallKeepsConfig(c: Config, t: Capabilities, w: World, s: Step)
    requires s.Call? && Enabled(c, t, w, s) && ConfigInv(c, t, w)
    ensures ConfigInv(c, t, Next(c, t, w, s))
  {
    LandingKeepsConfig(c, t, w, s.consumer);
    var d := w.consumers[s.consumer];
    var e := Calls(c, t, d)[d.done];
    AdvanceKeepsConfig(c, t, if s.lands || e == Handled(true) then Effect(c, t, w, d, e) else w, s.consumer);
    hide Calls, Effect, ConfigInv, Advance;
  }

  lemma AdvanceKeepsConfig(c: Config, t: Capabilities, u: World, n: nat)
    requires ConfigInv(c, t, u) && n in u.consumers
    ensures ConfigInv(c, t, Advance(u, n))
  {
    hide Lossy, SameMessage, WritesDeadLetters;
  }

  lemma StepKeepsConfig(c: Config, t: Capabilities, w: World, s: Step)
    requires Enabled(c, t, w, s) && ConfigInv(c, t, w)
    ensures ConfigInv(c, t, Next(c, t, w, s))
  {
    if s.Call? {
      CallKeepsConfig(c, t, w, s);
    } else {
      hide Lossy, Calls;
    }
  }

  // ---------- Over every run ----------

  lemma {:induction false} RunKeeps(c: Config, t: Capabilities, w: World, steps: seq<Step>)
    requires Runs(c, t, w, steps) && Inv(c, t, w) && ConfigInv(c, t, w)
    ensures Inv(c, t, Run(c, t, w, steps)) && ConfigInv(c, t, Run(c, t, w, steps))
    decreases |steps|
  {
    if steps != [] {
      StepKeeps(c, t, w, steps[0]);
      StepKeepsConfig(c, t, w, steps[0]);
      RunKeeps(c, t, Next(c, t, w, steps[0]), steps[1..]);
    }
  }

  predicate Queued(w: World, id: nat) { exists k :: k in w.held && w.held[k].id == id }

  /** In every run every accepted message is accounted for. */
  lemma EveryMessageIsAccountedFor(c: Config, t: Capabilities, steps: seq<Step>, id: nat)
    requires Runs(c, t, EMPTY, steps)
    requires id in Run(c, t, EMPTY, steps).accepted
    ensures var w := Run(c, t, EMPTY, steps);
      Queued(w, id) || id in w.handled || id in w.dlq || id in w.native || id in w.dropped
  {
    hide Lossy, Calls;
    RunKeeps(c, t, EMPTY, steps);
    var w := Run(c, t, EMPTY, steps);
    assert Covered(w, id, 0);
  }

  /** With dead-lettering on and a strategy other than delete nothing is lost, and what is still queued
      carries the accepted message. */
  lemma NothingIsLost(c: Config, t: Capabilities, steps: seq<Step>, id: nat)
    requires c.deadLetter && !c.strategy.Delete?
    requires Runs(c, t, EMPTY, steps)
    requires id in Run(c, t, EMPTY, steps).accepted
    ensures var w := Run(c, t, EMPTY, steps);
      && (Queued(w, id) || id in w.handled || id in w.dlq)
      && (forall k :: k in w.held && w.held[k].id == id ==> SameMessage(w.accepted[id], w.held[k].body))
  {
    RunKeeps(c, t, EMPTY, steps);
    EveryMessageIsAccountedFor(c, t, steps, id);
  }

  /** The same for every configuration that cannot drop, the broker's own mechanism included. */
  lemma NothingIsDropped(c: Config, t: Capabilities, steps: seq<Step>, id: nat)
    requires !Lossy(c, t)
    requires Runs(c, t, EMPTY, steps)
    requires id in Run(c, t, EMPTY, steps).accepted
    ensures var w := Run(c, t, EMPTY, steps); Queued(w, id) || id in w.handled || id in w.dlq || id in w.native
  {
    RunKeeps(c, t, EMPTY, steps);
    EveryMessageIsAccountedFor(c, t, steps, id);
  }

  lemma RunCons(c: Config, t: Capabilities, w: World, s: Step, rest: seq<Step>)
    requires Enabled(c, t, w, s) && Runs(c, t, Next(c, t, w, s), rest)
    ensures Runs(c, t, w, [s] + rest) && Run(c, t, w, [s] + rest) == Run(c, t, Next(c, t, w, s), rest)
  {
    assert ([s] + rest)[1..] == rest;
  }

  /** And every lossy configuration does lose one: accepted, delivered once, acknowledged, gone. */
  lemma LossyLoses(c: Config, t: Capabilities) returns (steps: seq<Step>)
    requires IsInt(c.maxAttempts) && Lossy(c, t)
    ensures Runs(c, t, EMPTY, steps)
    ensures var w := Run(c, t, EMPTY, steps);
      0 in w.accepted && !Queued(w, 0) && 0 !in w.handled && 0 !in w.dlq && 0 !in w.native
  {
    var m := DroppedMessage(c, t);
    var o := Outcome(false, true, Unsupported, true, true, true, true, true);
    var d := Delivery(0, 0, m, o, 0);
    assert IsDrop(c, t, d);
    hide Lossy, Plan;
    var w1 := Next(c, t, EMPTY, Accept(0, m.body));
    var w2 := Next(c, t, w1, Deliver(0, 0, m, o));
    assert w2.consumers[0] == d;
    steps := [Call(0, true)];
    if RunsHandler(c, m) {
      assert Calls(c, t, d) == [Handled(false), Acked(true)];
      var w3 := Next(c, t, w2, Call(0, true));
      RunCons(c, t, w3, Call(0, true), []);
      RunCons(c, t, w2, Call(0, true), [Call(0, true)]);
      steps := [Call(0, true), Call(0, true)];
    } else {
      assert Calls(c, t, d) == [Acked(true)];
      RunCons(c, t, w2, Call(0, true), []);
    }
    RunCons(c, t, w1, Deliver(0, 0, m, o), steps);
    RunCons(c, t, EMPTY, Accept(0, m.body), [Deliver(0, 0, m, o)] + steps);
    steps := [Accept(0, m.body)] + ([Deliver(0, 0, m, o)] + steps);
  }
}
