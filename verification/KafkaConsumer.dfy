/** The App over the offset-committing consumer of kafka/kafka.go. */
module KafkaConsumer {
  // A commit is cumulative: it covers every lower offset of its partition. Rewind drops the reader, so every
  // partition goes back to what is committed. Any call may fail, a failing call may still have landed, and the
  // consumer may rebalance or crash between any two calls.

  import opened Wrappers
  import opened Dispatch
  import opened Settlement

  /** A rewinder that neither releases, nor dead-letters in one step, nor settles natively. */
  const KAFKA: Capabilities := Capabilities(false, false, true, false)

  datatype Record = Record(id: nat, body: Body)

  /** committed and position are the next offset to read, for the group and for the reader. */
  datatype Partition = Partition(log: seq<Record>, committed: nat, position: nat)

  function Read(topic: seq<Partition>, p: nat): seq<Partition>
    requires p < |topic|
  {
    topic[p := topic[p].(position := topic[p].position + 1)]
  }

  function Committed(topic: seq<Partition>, at: Place): seq<Partition>
    requires at.partition < |topic|
  {
    topic[at.partition := topic[at.partition].(committed := at.offset + 1)]
  }

  function Resumed(topic: seq<Partition>): seq<Partition> {
    seq(|topic|, p requires 0 <= p < |topic| => topic[p].(position := topic[p].committed))
  }

  function Partitions(log: seq<seq<Record>>, committed: seq<nat>, positions: seq<nat>): seq<Partition>
    requires |committed| == |log| == |positions|
  {
    seq(|log|, p requires 0 <= p < |log| => Partition(log[p], committed[p], positions[p]))
  }

  /** The transport's side of it: the broker's log and commits, and a reader that Rewind drops and the next
      Pop or Ack builds again. */
  class Consumer {
    var log: seq<seq<Record>>
    var committed: seq<nat>
    var reader: Option<seq<nat>>

    ghost predicate Valid()
      reads this
    {
      |committed| == |log| && (reader.Some? ==> |reader.value| == |log|)
    }

    function Topic(): (topic: seq<Partition>)
      reads this
      requires Valid()
      ensures |topic| == |log|
    {
      Partitions(log, committed, if reader.Some? then reader.value else committed)
    }

    method Reader()
      requires Valid()
      modifies this`reader
      ensures Valid() && reader.Some? && Topic() == old(Topic())
    {
      if reader.None? {
        reader := Some(committed);
      }
    }

    /** FetchMessage when the broker has something from partition p, or nothing. */
    method Pop(p: nat) returns (r: Option<(Place, Record)>)
      requires Valid() && p < |log|
      modifies this`reader
      ensures Valid()
      ensures var before := old(Topic());
        if before[p].position < |before[p].log| then
          r == Some((Place(p, before[p].position), before[p].log[before[p].position])) && Topic() == Read(before, p)
        else r == None && Topic() == before
    {
      ghost var before := Topic();
      Reader();
      var k := reader.value[p];
      assert before[p] == Partition(log[p], committed[p], k);
      if k >= |log[p]| {
        return None;
      }
      reader := Some(reader.value[p := k + 1]);
      assert Topic() == Read(before, p);
      return Some((Place(p, k), log[p][k]));
    }

    method Ack(at: Place)
      requires Valid() && at.partition < |log|
      modifies this`reader, this`committed
      ensures Valid() && Topic() == Committed(old(Topic()), at)
    {
      ghost var before := Topic();
      Reader();
      committed := committed[at.partition := at.offset + 1];
      assert Topic() == Committed(before, at);
    }

    /** The reader is gone whether or not closing it succeeds. */
    method Rewind()
      requires Valid()
      modifies this`reader
      ensures Valid() && Topic() == Resumed(old(Topic()))
    {
      ghost var before := Topic();
      reader := None;
      assert Topic() == Resumed(before);
    }
  }

  datatype Place = Place(partition: nat, offset: nat)

  /** Why a record need not be delivered again. */
  datatype How = ByHandler | ByRetry(copy: Place) | ByDeadLetter(index: nat) | ByDrop

  /** The record being dispatched; `done` calls of its trace have been made. */
  datatype Delivery = Delivery(at: Place, message: Message, outcome: Outcome, done: nat)

  datatype World = World(
    topic: seq<Partition>, dlq: seq<Record>, handled: set<nat>, settled: map<Place, How>, current: Option<Delivery>)

  datatype Step =
    | Produce(partition: nat, id: nat, body: Body)
    | Fetch(partition: nat, message: Message, outcome: Outcome)
    | Call(lands: bool, target: nat)      // target is the partition a copy goes to
    | Return
    | Rebalance
    | Crash

  predicate HasPlace(w: World, at: Place) { at.partition < |w.topic| && at.offset < |w.topic[at.partition].log| }

  function At(w: World, at: Place): Record
    requires HasPlace(w, at)
  {
    w.topic[at.partition].log[at.offset]
  }

  function Calls(c: Config, d: Delivery): seq<Event>
    requires MessageOk(d.message)
  {
    Trace(c, KAFKA, d.message, d.outcome)
  }

  predicate DeliveryOk(w: World, d: Delivery) {
    MessageOk(d.message) && HasPlace(w, d.at) && d.message.body == At(w, d.at).body
  }

  predicate Enabled(c: Config, w: World, s: Step) {
    match s
    case Produce(p, _, _) => p < |w.topic|
    case Fetch(p, m, _) =>
      && w.current.None? && p < |w.topic| && w.topic[p].position < |w.topic[p].log|
      && DeliveryOk(w, Delivery(Place(p, w.topic[p].position), m, s.outcome, 0))
    case Call(lands, target) =>
      && w.current.Some? && target < |w.topic|
      && var d := w.current.value;
      && DeliveryOk(w, d) && d.done < |Calls(c, d)|
      && (Calls(c, d)[d.done].Published? && Calls(c, d)[d.done].ok ==> lands)
    case Return => w.current.Some? && MessageOk(w.current.value.message)
      && w.current.value.done == |Calls(c, w.current.value)|
    case Rebalance => true
    case Crash => true
  }

  function Append(w: World, p: nat, r: Record): World
    requires p < |w.topic|
  {
    w.(topic := w.topic[p := w.topic[p].(log := w.topic[p].log + [r])])
  }

  function Commit(w: World, at: Place): World
    requires at.partition < |w.topic|
  {
    w.(topic := Committed(w.topic, at))
  }

  /** A new reader resumes every partition at what is committed. */
  function DropReader(w: World): World {
    w.(topic := Resumed(w.topic))
  }

  function Settle(w: World, at: Place, how: How): World { w.(settled := w.settled[at := how]) }

  function Effect(c: Config, w: World, d: Delivery, e: Event, lands: bool, target: nat): World
    requires DeliveryOk(w, d) && target < |w.topic|
  {
    match e
    case Handled(ok) => if ok then Settle(w.(handled := w.handled + {At(w, d.at).id}), d.at, ByHandler) else w
    case Acked(_) =>
      var u := if Plan(c, KAFKA, d.message, d.outcome.handler) == Drop then Settle(w, d.at, ByDrop) else w;
      if lands then Commit(u, d.at) else u
    case Published(q, p, ok) =>
      if !lands then w
      else
        var r := Record(At(w, d.at).id, Rewritten(d.message.body, p));
        if q == Own then
          var u := Append(w, target, r);
          if ok then Settle(u, d.at, ByRetry(Place(target, |w.topic[target].log|))) else u
        else
          var u := w.(dlq := w.dlq + [r]);
          if ok then Settle(u, d.at, ByDeadLetter(|w.dlq|)) else u
    case Rewound(_) => DropReader(w)
    case _ => w
  }

  function Next(c: Config, w: World, s: Step): World
    requires Enabled(c, w, s)
  {
    match s
    case Produce(p, id, body) => Append(w, p, Record(id, body))
    case Fetch(p, m, o) =>
      w.(topic := Read(w.topic, p),
         current := Some(Delivery(Place(p, w.topic[p].position), m, o, 0)))
    case Call(lands, target) =>
      var d := w.current.value;
      Effect(c, w, d, Calls(c, d)[d.done], lands, target).(current := Some(d.(done := d.done + 1)))
    case Return => w.(current := None)
    case Rebalance => DropReader(w)
    case Crash => DropReader(w).(current := None)
  }

  predicate Runs(c: Config, w: World, steps: seq<Step>)
    decreases |steps|
  {
    steps == [] || (Enabled(c, w, steps[0]) && Runs(c, Next(c, w, steps[0]), steps[1..]))
  }

  function Run(c: Config, w: World, steps: seq<Step>): World
    requires Runs(c, w, steps)
    decreases |steps|
  {
    if steps == [] then w else Run(c, Next(c, w, steps[0]), steps[1..])
  }

  function Empty(partitions: nat): World {
    World(seq(partitions, _ => Partition([], 0, 0)), [], {}, map[], None)
  }

  // ---------- The invariant ----------

  /** What settled a record is still there, under the record's id. */
  predicate Evident(c: Config, w: World, at: Place) {
    && HasPlace(w, at) && at in w.settled
    && match w.settled[at]
       case ByHandler => At(w, at).id in w.handled
       case ByRetry(copy) =>
         HasPlace(w, copy) && At(w, copy).id == At(w, at).id && Replaces(c, At(w, at).body, At(w, copy).body)
       case ByDeadLetter(i) => i < |w.dlq| && w.dlq[i].id == At(w, at).id
       case ByDrop => Lossy(c, KAFKA)
  }

  predicate SettledInv(c: Config, w: World) { forall at :: at in w.settled ==> Evident(c, w, at) }

  predicate IsCurrent(w: World, at: Place) { w.current.Some? && w.current.value.at == at }

  /** Everything below a commit is settled; everything read is settled or in hand. */
  predicate OffsetsInv(c: Config, w: World) {
    && (forall p, k :: 0 <= p < |w.topic| && 0 <= k < w.topic[p].committed ==> Place(p, k) in w.settled)
    && (forall p, k :: 0 <= p < |w.topic| && 0 <= k < w.topic[p].position ==>
        Place(p, k) in w.settled || (IsCurrent(w, Place(p, k)) && InHand(c, w)))
  }

  /** The current dispatch still has calls to make. */
  predicate InHand(c: Config, w: World) {
    w.current.Some? && MessageOk(w.current.value.message) && w.current.value.done < |Calls(c, w.current.value)|
  }

  /** Everything before the current record is settled, and so is the record once an ack may follow. */
  predicate CurrentInv(c: Config, w: World) {
    w.current.Some? ==>
      && var d := w.current.value;
      && DeliveryOk(w, d) && d.done <= |Calls(c, d)|
      && (forall k :: 0 <= k < d.at.offset ==> Place(d.at.partition, k) in w.settled)
      && (d.done > 0 && JustifiesAck(Calls(c, d)[d.done - 1]) ==> d.at in w.settled)
  }

  predicate Inv(c: Config, w: World) { SettledInv(c, w) && OffsetsInv(c, w) && CurrentInv(c, w) }

  // ---------- What one call does ----------

  /** Logs only grow and nothing settled is forgotten. */
  predicate Extends(w: World, v: World) {
    && |v.topic| == |w.topic|
    && (forall p :: 0 <= p < |w.topic| ==> w.topic[p].log <= v.topic[p].log)
    && w.dlq <= v.dlq && w.handled <= v.handled && w.settled.Keys <= v.settled.Keys
  }

  lemma EffectExtends(c: Config, w: World, d: Delivery, e: Event, lands: bool, target: nat)
    requires DeliveryOk(w, d) && target < |w.topic|
    ensures Extends(w, Effect(c, w, d, e, lands, target))
    ensures Effect(c, w, d, e, lands, target).current == w.current
  {
    hide Plan;
  }

  /** The evidence for a record settled in w survives. */
  lemma EvidenceStays(c: Config, w: World, v: World, at: Place)
    requires Extends(w, v) && Evident(c, w, at) && at in v.settled && v.settled[at] == w.settled[at]
    ensures Evident(c, v, at)
  {
    hide Lossy;
    RecordStays(w, v, at);
    if w.settled[at].ByRetry? {
      RecordStays(w, v, w.settled[at].copy);
    }
  }

  lemma RecordStays(w: World, v: World, at: Place)
    requires Extends(w, v) && HasPlace(w, at)
    ensures HasPlace(v, at) && At(v, at) == At(w, at)
  {
    assert w.topic[at.partition].log <= v.topic[at.partition].log;
  }

  /** A call settles at most the current record, and leaves the evidence for it. */
  predicate Settles(c: Config, w: World, d: Delivery, v: World) {
    || v.settled == w.settled
    || (d.at in v.settled && v.settled == w.settled[d.at := v.settled[d.at]] && Evident(c, v, d.at))
  }

  lemma AckEvidence(c: Config, w: World, d: Delivery, lands: bool, target: nat)
    requires DeliveryOk(w, d) && target < |w.topic| && d.done < |Calls(c, d)| && Calls(c, d)[d.done].Acked?
    ensures Settles(c, w, d, Effect(c, w, d, Calls(c, d)[d.done], lands, target))
  {
    if Plan(c, KAFKA, d.message, d.outcome.handler) == Drop && !Lossy(c, KAFKA) {
      NeverDrops(c, KAFKA, d.message, d.outcome.handler);
    }
    hide Plan, Lossy, Calls;
  }

  lemma PublishEvidence(c: Config, w: World, d: Delivery, lands: bool, target: nat)
    requires DeliveryOk(w, d) && target < |w.topic| && d.done < |Calls(c, d)| && Calls(c, d)[d.done].Published?
    ensures Settles(c, w, d, Effect(c, w, d, Calls(c, d)[d.done], lands, target))
  {
    var e := Calls(c, d)[d.done];
    EffectExtends(c, w, d, e, lands, target);
    RecordStays(w, Effect(c, w, d, e, lands, target), d.at);
    if e.queue == Own {
      CopyReplaces(c, KAFKA, d.message, d.outcome, d.done);
    }
    hide Plan, Lossy, Calls, Replaces, Extends, Rewritten;
  }

  lemma OtherEvidence(c: Config, w: World, d: Delivery, e: Event, lands: bool, target: nat)
    requires DeliveryOk(w, d) && target < |w.topic| && !e.Acked? && !e.Published?
    ensures Settles(c, w, d, Effect(c, w, d, e, lands, target))
  {
    hide Lossy, Replaces;
  }

  lemma CallEvidence(c: Config, w: World, d: Delivery, lands: bool, target: nat)
    requires DeliveryOk(w, d) && target < |w.topic| && d.done < |Calls(c, d)|
    ensures Settles(c, w, d, Effect(c, w, d, Calls(c, d)[d.done], lands, target))
  {
    match Calls(c, d)[d.done] {
      case Acked(_) => AckEvidence(c, w, d, lands, target);
      case Published(_, _, _) => PublishEvidence(c, w, d, lands, target);
      case e => OtherEvidence(c, w, d, e, lands, target);
    }
    hide Settles, Effect, Calls, DeliveryOk;
  }

  lemma CallEvident(c: Config, w: World, d: Delivery, lands: bool, target: nat)
    requires DeliveryOk(w, d) && target < |w.topic| && SettledInv(c, w) && d.done < |Calls(c, d)|
    ensures SettledInv(c, Effect(c, w, d, Calls(c, d)[d.done], lands, target))
  {
    var e := Calls(c, d)[d.done];
    var v := Effect(c, w, d, e, lands, target);
    EffectExtends(c, w, d, e, lands, target);
    CallEvidence(c, w, d, lands, target);
    hide Effect, Evident, Calls, Extends, DeliveryOk;
    forall at | at in v.settled ensures Evident(c, v, at) {
      if at != d.at || v.settled == w.settled {
        EvidenceStays(c, w, v, at);
      }
    }
  }

  /** An ack is only called for a record that is settled, or is settled by it as a configured drop. */
  lemma AckSettles(c: Config, w: World, d: Delivery, lands: bool, target: nat)
    requires w.current == Some(d) && CurrentInv(c, w) && d.done < |Calls(c, d)| && Calls(c, d)[d.done].Acked?
    requires target < |w.topic|
    ensures d.at in Effect(c, w, d, Calls(c, d)[d.done], lands, target).settled
  {
    AckIsJustified(c, KAFKA, d.message, d.outcome, d.done);
    hide Plan, Trace;
  }

  /** The call before an ack is confirmed, and settles. */
  lemma JustifyingSettles(c: Config, w: World, d: Delivery, e: Event, lands: bool, target: nat)
    requires DeliveryOk(w, d) && target < |w.topic| && JustifiesAck(e) && (e.Published? ==> lands)
    ensures d.at in Effect(c, w, d, e, lands, target).settled
  {
  }

  predicate CommitsSettled(w: World) {
    forall p, k :: 0 <= p < |w.topic| && 0 <= k < w.topic[p].committed ==> Place(p, k) in w.settled
  }

  lemma CallKeepsCommits(c: Config, w: World, d: Delivery, lands: bool, target: nat)
    requires Inv(c, w) && w.current == Some(d) && d.done < |Calls(c, d)| && target < |w.topic|
    ensures CommitsSettled(Effect(c, w, d, Calls(c, d)[d.done], lands, target))
  {
    var e := Calls(c, d)[d.done];
    var v := Effect(c, w, d, e, lands, target);
    EffectExtends(c, w, d, e, lands, target);
    if e.Acked? {
      AckSettles(c, w, d, lands, target);
      CommitCovers(w, v, d.at);
    } else {
      CommitsStay(w, v);
    }
    hide Plan, Calls, SettledInv;
  }

  lemma CommitCovers(w: World, v: World, at: Place)
    requires CommitsSettled(w) && w.settled.Keys <= v.settled.Keys && |v.topic| == |w.topic|
    requires at in v.settled && forall k :: 0 <= k < at.offset ==> Place(at.partition, k) in w.settled
    requires forall p :: 0 <= p < |w.topic| ==>
      v.topic[p].committed == w.topic[p].committed || (p == at.partition && v.topic[p].committed == at.offset + 1)
    ensures CommitsSettled(v)
  {
    forall p, k | 0 <= p < |v.topic| && 0 <= k < v.topic[p].committed ensures Place(p, k) in v.settled {
      if v.topic[p].committed == at.offset + 1 && k == at.offset && p == at.partition {
        assert Place(p, k) == at;
      } else {
        assert Place(p, k) in w.settled;
      }
    }
  }

  lemma CommitsStay(w: World, v: World)
    requires CommitsSettled(w) && w.settled.Keys <= v.settled.Keys && |v.topic| == |w.topic|
    requires forall p :: 0 <= p < |w.topic| ==> v.topic[p].committed == w.topic[p].committed
    ensures CommitsSettled(v)
  {
    forall p, k | 0 <= p < |v.topic| && 0 <= k < v.topic[p].committed ensures Place(p, k) in v.settled {
      assert k < w.topic[p].committed;
    }
  }

  /** The last call settles the record, or everything is read again from the commit. */
  lemma LastCall(c: Config, w: World, d: Delivery, lands: bool, target: nat)
    requires Inv(c, w) && w.current == Some(d) && d.done == |Calls(c, d)| - 1 && target < |w.topic|
    ensures var v := Effect(c, w, d, Calls(c, d)[d.done], lands, target);
      d.at in v.settled || (forall p :: 0 <= p < |v.topic| ==> v.topic[p].position == v.topic[p].committed)
  {
    AckedOrRewound(c, KAFKA, d.message, d.outcome);
    var e := Calls(c, d)[d.done];
    if e.Acked? {
      AckSettles(c, w, d, lands, target);
    } else {
      RewindsAll(c, w, d, e, lands, target);
    }
    hide Plan, Calls, Effect, SettledInv, OffsetsInv;
  }

  lemma RewindsAll(c: Config, w: World, d: Delivery, e: Event, lands: bool, target: nat)
    requires DeliveryOk(w, d) && target < |w.topic|
    ensures var v := Effect(c, w, d, e, lands, target);
      e.Rewound? ==> forall p :: 0 <= p < |v.topic| ==> v.topic[p].position == v.topic[p].committed
  {
    hide Plan;
  }

  predicate ReadSettled(w: World, except: Option<Place>) {
    forall p, k :: 0 <= p < |w.topic| && 0 <= k < w.topic[p].position ==>
      Place(p, k) in w.settled || except == Some(Place(p, k))
  }

  /** What has been read stays settled or in hand while a call is made. */
  lemma CallKeepsRead(c: Config, w: World, d: Delivery, e: Event, lands: bool, target: nat)
    requires DeliveryOk(w, d) && target < |w.topic| && ReadSettled(w, Some(d.at)) && CommitsSettled(w)
    ensures ReadSettled(Effect(c, w, d, e, lands, target), Some(d.at))
  {
    var v := Effect(c, w, d, e, lands, target);
    EffectExtends(c, w, d, e, lands, target);
    forall p, k | 0 <= p < |v.topic| && 0 <= k < v.topic[p].position
      ensures Place(p, k) in v.settled || d.at == Place(p, k)
    {
      PositionsFallBack(c, w, d, e, lands, target, p);
      hide Effect;
      assert k < w.topic[p].position || k < w.topic[p].committed;
    }
  }

  lemma PositionsFallBack(c: Config, w: World, d: Delivery, e: Event, lands: bool, target: nat, p: nat)
    requires DeliveryOk(w, d) && target < |w.topic| && p < |w.topic|
    ensures var v := Effect(c, w, d, e, lands, target);
      |v.topic| == |w.topic| && v.topic[p].position == if e.Rewound? then w.topic[p].committed else w.topic[p].position
  {
    hide Plan;
  }

  /** The dispatch goes on to its next call. */
  function Advanced(u: World, d: Delivery): World { u.(current := Some(d.(done := d.done + 1))) }

  lemma AdvanceKeepsEvidence(c: Config, u: World, d: Delivery)
    requires SettledInv(c, u)
    ensures SettledInv(c, Advanced(u, d))
  {
    hide Replaces, Lossy;
    forall at | at in u.settled ensures Evident(c, Advanced(u, d), at) {
      assert Evident(c, u, at);
    }
  }

  lemma AdvanceKeepsOffsets(c: Config, u: World, d: Delivery)
    requires CommitsSettled(u) && ReadSettled(u, Some(d.at)) && DeliveryOk(u, d) && d.done < |Calls(c, d)|
    requires d.done == |Calls(c, d)| - 1 ==>
      d.at in u.settled || (forall p :: 0 <= p < |u.topic| ==> u.topic[p].position == u.topic[p].committed)
    ensures OffsetsInv(c, Advanced(u, d))
  {
    var v := Advanced(u, d);
    assert Calls(c, d.(done := d.done + 1)) == Calls(c, d);
    hide Calls;
    forall p, k | 0 <= p < |v.topic| && 0 <= k < v.topic[p].position
      ensures Place(p, k) in v.settled || (IsCurrent(v, Place(p, k)) && InHand(c, v))
    {
      if d.done == |Calls(c, d)| - 1 && d.at !in u.settled {
        assert k < u.topic[p].committed;
      }
    }
  }

  lemma AdvanceKeepsCurrent(c: Config, u: World, d: Delivery)
    requires DeliveryOk(u, d) && d.done < |Calls(c, d)|
    requires forall k :: 0 <= k < d.at.offset ==> Place(d.at.partition, k) in u.settled
    requires JustifiesAck(Calls(c, d)[d.done]) ==> d.at in u.settled
    ensures CurrentInv(c, Advanced(u, d))
  {
    assert Calls(c, d.(done := d.done + 1)) == Calls(c, d);
    hide Calls, JustifiesAck;
  }

  /** What the call of a delivery changes. */
  function Called(c: Config, w: World, s: Step): World
    requires s.Call? && Enabled(c, w, s)
  {
    Effect(c, w, w.current.value, Calls(c, w.current.value)[w.current.value.done], s.lands, s.target)
  }

  lemma CallKeepsOffsets(c: Config, w: World, s: Step)
    requires Inv(c, w) && s.Call? && Enabled(c, w, s)
    ensures OffsetsInv(c, Advanced(Called(c, w, s), w.current.value))
  {
    var d := w.current.value;
    var u := Called(c, w, s);
    EffectExtends(c, w, d, Calls(c, d)[d.done], s.lands, s.target);
    CallKeepsCommits(c, w, d, s.lands, s.target);
    ReadIsSettled(c, w, d);
    CallKeepsRead(c, w, d, Calls(c, d)[d.done], s.lands, s.target);
    RecordStays(w, u, d.at);
    if d.done == |Calls(c, d)| - 1 {
      LastCall(c, w, d, s.lands, s.target);
    }
    hide Effect, SettledInv, ReadSettled, Calls, JustifiesAck, CurrentInv, Extends, OffsetsInv;
    AdvanceKeepsOffsets(c, u, d);
  }

  lemma CallKeepsCurrent(c: Config, w: World, s: Step)
    requires Inv(c, w) && s.Call? && Enabled(c, w, s)
    ensures CurrentInv(c, Advanced(Called(c, w, s), w.current.value))
  {
    var d := w.current.value;
    var e := Calls(c, d)[d.done];
    var u := Called(c, w, s);
    EffectExtends(c, w, d, e, s.lands, s.target);
    RecordStays(w, u, d.at);
    if JustifiesAck(e) {
      JustifyingSettles(c, w, d, e, s.lands, s.target);
    }
    forall k | 0 <= k < d.at.offset ensures Place(d.at.partition, k) in u.settled {
      assert Place(d.at.partition, k) in w.settled;
    }
    hide Effect, SettledInv, Calls, OffsetsInv, CurrentInv;
    AdvanceKeepsCurrent(c, u, d);
  }

  lemma CallKeeps(c: Config, w: World, s: Step)
    requires Inv(c, w) && s.Call? && Enabled(c, w, s)
    ensures Inv(c, Next(c, w, s))
  {
    var d := w.current.value;
    CallEvident(c, w, d, s.lands, s.target);
    AdvanceKeepsEvidence(c, Called(c, w, s), d);
    CallKeepsOffsets(c, w, s);
    CallKeepsCurrent(c, w, s);
    hide Effect, SettledInv, OffsetsInv, CurrentInv, Calls, DeliveryOk;
  }

  lemma ReadIsSettled(c: Config, w: World, d: Delivery)
    requires OffsetsInv(c, w) && w.current == Some(d)
    ensures ReadSettled(w, Some(d.at))
  {
    hide InHand;
  }

  // ---------- The other steps ----------

  lemma FetchKeeps(c: Config, w: World, s: Step)
    requires Inv(c, w) && s.Fetch? && Enabled(c, w, s)
    ensures Inv(c, Next(c, w, s))
  {
    var v := Next(c, w, s);
    var d := v.current.value;
    AckedOrRewound(c, KAFKA, d.message, d.outcome);
    assert |Calls(c, d)| > 0;
    hide Calls, Lossy, Replaces;
    FetchExtends(c, w, s);
    RecordStays(w, v, d.at);
    forall at | at in v.settled ensures Evident(c, v, at) {
      EvidenceStays(c, w, v, at);
    }
    hide Evident;
  }

  lemma FetchExtends(c: Config, w: World, s: Step)
    requires s.Fetch? && Enabled(c, w, s)
    ensures Extends(w, Next(c, w, s))
  {
  }

  lemma ProduceKeeps(c: Config, w: World, s: Step)
    requires Inv(c, w) && s.Produce? && Enabled(c, w, s)
    ensures Inv(c, Next(c, w, s))
  {
    hide Calls, Lossy, Replaces;
    var v := Next(c, w, s);
    assert Extends(w, v);
    if w.current.Some? {
      RecordStays(w, v, w.current.value.at);
    }
    forall at | at in v.settled ensures Evident(c, v, at) {
      EvidenceStays(c, w, v, at);
    }
    hide Evident;
  }

  lemma ResumeKeeps(c: Config, w: World, s: Step)
    requires Inv(c, w) && (s.Return? || s.Rebalance? || s.Crash?) && Enabled(c, w, s)
    ensures Inv(c, Next(c, w, s))
  {
    hide Calls, Lossy, Replaces;
    var v := Next(c, w, s);
    assert Extends(w, v);
    if v.current.Some? {
      RecordStays(w, v, v.current.value.at);
    }
    forall at | at in v.settled ensures Evident(c, v, at) {
      EvidenceStays(c, w, v, at);
    }
    hide Evident;
  }

  lemma StepKeeps(c: Config, w: World, s: Step)
    requires Inv(c, w) && Enabled(c, w, s)
    ensures Inv(c, Next(c, w, s))
  {
    hide Inv;
    match s
    case Produce(_, _, _) => ProduceKeeps(c, w, s);
    case Fetch(_, _, _) => FetchKeeps(c, w, s);
    case Call(_, _) => CallKeeps(c, w, s);
    case _ => ResumeKeeps(c, w, s);
  }

  lemma {:induction false} RunKeeps(c: Config, w: World, steps: seq<Step>)
    requires Inv(c, w) && Runs(c, w, steps)
    ensures Inv(c, Run(c, w, steps))
    decreases |steps|
  {
    hide Inv, Enabled, Next;
    if steps != [] {
      StepKeeps(c, w, steps[0]);
      RunKeeps(c, Next(c, w, steps[0]), steps[1..]);
    }
  }

  lemma EmptyInv(c: Config, partitions: nat)
    ensures Inv(c, Empty(partitions))
  {
  }

  // ---------- Over every run ----------

  /** No commit ever passes a record that was not handled, replaced by a copy still there, dead-lettered,
      or dropped by a configuration that can drop. */
  lemma CommittedIsSettled(c: Config, partitions: nat, steps: seq<Step>, at: Place)
    requires Runs(c, Empty(partitions), steps)
    ensures var w := Run(c, Empty(partitions), steps);
      HasPlace(w, at) && at.offset < w.topic[at.partition].committed ==> Evident(c, w, at)
  {
    EmptyInv(c, partitions);
    RunKeeps(c, Empty(partitions), steps);
    hide Evident, Calls;
    var w := Run(c, Empty(partitions), steps);
    if HasPlace(w, at) && at.offset < w.topic[at.partition].committed {
      assert Place(at.partition, at.offset) in w.settled;
    }
  }

  /** Between two dispatches the reader has not passed any unsettled record, and nor has the commit. */
  lemma UnsettledIsAhead(c: Config, partitions: nat, steps: seq<Step>, at: Place)
    requires Runs(c, Empty(partitions), steps)
    ensures var w := Run(c, Empty(partitions), steps);
      HasPlace(w, at) && at !in w.settled && w.current.None? ==>
        w.topic[at.partition].position <= at.offset && w.topic[at.partition].committed <= at.offset
  {
    EmptyInv(c, partitions);
    RunKeeps(c, Empty(partitions), steps);
    hide Evident, Calls;
    var w := Run(c, Empty(partitions), steps);
    if HasPlace(w, at) && at !in w.settled && w.current.None? {
      assert Place(at.partition, at.offset) !in w.settled;
    }
  }

  /** Some step of the run reads this record. */
  predicate Fetched(c: Config, w: World, steps: seq<Step>, at: Place)
    requires Runs(c, w, steps)
    decreases |steps|
  {
    steps != [] &&
    ((steps[0].Fetch? && Place(steps[0].partition, w.topic[steps[0].partition].position) == at)
     || Fetched(c, Next(c, w, steps[0]), steps[1..], at))
  }

  lemma OnlyItsDispatchSettles(c: Config, w: World, s: Step, at: Place)
    requires Inv(c, w) && Enabled(c, w, s) && at !in w.settled && !IsCurrent(w, at)
    requires !(s.Fetch? && Place(s.partition, w.topic[s.partition].position) == at)
    ensures var v := Next(c, w, s); at !in v.settled && !IsCurrent(v, at)
  {
    if s.Call? {
      var d := w.current.value;
      CallEvidence(c, w, d, s.lands, s.target);
    }
    hide Effect, Calls, SettledInv, OffsetsInv, Evident;
  }

  /** An unsettled record is read again before the reader or a commit gets past it, whatever happens. */
  lemma {:induction false} NeverSkipped(c: Config, w: World, steps: seq<Step>, at: Place)
    requires Inv(c, w) && Runs(c, w, steps) && HasPlace(w, at) && at !in w.settled && !IsCurrent(w, at)
    requires !Fetched(c, w, steps, at)
    ensures var v := Run(c, w, steps);
      at.partition < |v.topic| ==>
        at !in v.settled && v.topic[at.partition].position <= at.offset && v.topic[at.partition].committed <= at.offset
    decreases |steps|
  {
    if steps == [] {
      hide Evident, Calls;
      assert Place(at.partition, at.offset) !in w.settled;
    } else {
      StepKeeps(c, w, steps[0]);
      OnlyItsDispatchSettles(c, w, steps[0], at);
      PlacesStay(c, w, steps[0], at);
      hide Inv, Enabled, Next;
      NeverSkipped(c, Next(c, w, steps[0]), steps[1..], at);
    }
  }

  lemma PlacesStay(c: Config, w: World, s: Step, at: Place)
    requires Enabled(c, w, s) && HasPlace(w, at)
    ensures HasPlace(Next(c, w, s), at)
  {
    if s.Call? {
      var d := w.current.value;
      var e := Calls(c, d)[d.done];
      EffectExtends(c, w, d, e, s.lands, s.target);
      RecordStays(w, Effect(c, w, d, e, s.lands, s.target), at);
      hide Effect, Calls;
    } else {
      hide Calls;
    }
  }
}
