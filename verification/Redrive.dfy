/** The dead-letter redrive of redrive.go. */
module Redrive {
  // Drain a batch, then re-publish or restore each message, and acknowledge it only when that write succeeded. The
  // results of the broker's calls are parameters.

  import opened Wrappers
  import opened Arithmetic
  import EnvelopeDecode

  type Envelope = EnvelopeDecode.Envelope

  /** Decode and Encode, as far as they matter here. */
  datatype Codec = Codec(decode: string -> Option<Envelope>, encode: Envelope -> Option<string>)

  datatype Options = Options(toQueue: string, max: int, dryRun: bool, select: Option<Envelope -> bool>, bypass: bool)

  datatype Capabilities = Capabilities(rewinder: bool, headers: bool)

  datatype Call =
    | Popped(from: nat)
    | PopFailed
    | PoppedNothing
    | Wrote(queue: string, body: string, from: nat, bypass: bool, ok: bool)
    | Acked(from: nat, ok: bool)
    | Rewound

  /** The results for one message: its re-publish, its restore and its ack. */
  datatype Results = Results(publish: bool, restore: bool, ack: bool)

  /** A dead-lettered body, and how the calls made for it will go. */
  datatype Entry = Entry(body: string, results: Results)

  /** What is reported of one message: ids, urn and reason are those of the decoded envelope, if any. */
  datatype Item = Item(envelope: Option<Envelope>, to: Option<string>, redriven: bool, bypassed: bool)

  datatype Summary = Summary(redriven: nat, skipped: nat, items: seq<Item>)

  // ---------- What is decided for one message ----------

  datatype Decision =
    | Restore(item: Item)
    | Reset(queue: string, body: string, item: Item)
    | Unencodable

  function SourceQueue(e: Envelope): string {
    if e.deadLetter.Some? && e.deadLetter.value.originalQueue != "" then e.deadLetter.value.originalQueue
    else e.meta.queue
  }

  function Target(o: Options, e: Envelope): string { if o.toQueue != "" then o.toQueue else SourceQueue(e) }

  /** The copy that is sent back: no dead_letter, no attempts, nothing else touched. */
  function Cleared(e: Envelope): Envelope { e.(deadLetter := None, attempts := 0) }

  predicate Selected(o: Options, e: Envelope) { o.select.Some? ==> o.select.value(e) }

  predicate Stamps(o: Options, t: Capabilities) { o.bypass && t.headers }

  function Decide(codec: Codec, o: Options, t: Capabilities, body: string): Decision {
    match codec.decode(body)
    case None => Restore(Item(None, None, false, false))
    case Some(e) =>
      if !Selected(o, e) then Restore(Item(Some(e), None, false, false))
      else if o.dryRun then Restore(Item(Some(e), Some(Target(o, e)), false, false))
      else
        match codec.encode(Cleared(e))
        case None => Unencodable
        case Some(b) => Reset(Target(o, e), b, Item(Some(e), Some(Target(o, e)), true, Stamps(o, t)))
  }

  // ---------- What is called for it ----------

  function Rewind(t: Capabilities): seq<Call> { if t.rewinder then [Rewound] else [] }

  function RestoreCalls(t: Capabilities, dlq: string, body: string, i: nat, r: Results): seq<Call> {
    [Wrote(dlq, body, i, false, r.restore)] + if r.restore then [Acked(i, r.ack)] else Rewind(t)
  }

  /** abortRedrive: restoreToDLQ has rewound already when it failed. */
  function AbortCalls(t: Capabilities, dlq: string, body: string, i: nat, r: Results): seq<Call> {
    RestoreCalls(t, dlq, body, i, r) + if r.restore then Rewind(t) else []
  }

  function Calls(t: Capabilities, dlq: string, d: Decision, body: string, i: nat, r: Results): seq<Call> {
    match d
    case Restore(_) => RestoreCalls(t, dlq, body, i, r)
    case Unencodable => AbortCalls(t, dlq, body, i, r)
    case Reset(queue, b, item) =>
      [Wrote(queue, b, i, item.bypassed, r.publish)]
      + if r.publish then [Acked(i, r.ack)] else AbortCalls(t, dlq, body, i, r)
  }

  predicate Stops(d: Decision, r: Results) {
    match d
    case Restore(_) => !r.restore
    case Unencodable => true
    case Reset(_, _, _) => !r.publish
  }

  datatype Processed = Processed(calls: seq<Call>, summary: Summary, failed: bool)

  function Counted(s: Summary, d: Decision): Summary {
    match d
    case Restore(item) => s.(skipped := s.skipped + 1, items := s.items + [item])
    case Reset(_, _, item) => s.(redriven := s.redriven + 1, items := s.items + [item])
    case Unencodable => s
  }

  /** A drained message, what is decided for it, and how its calls will go. */
  datatype Planned = Planned(body: string, decision: Decision, results: Results)

  function Plan(codec: Codec, o: Options, t: Capabilities, e: Entry): Planned {
    Planned(e.body, Decide(codec, o, t, e.body), e.results)
  }

  function PlanAll(codec: Codec, o: Options, t: Capabilities, batch: seq<Entry>): (plan: seq<Planned>)
    ensures |plan| == |batch|
  {
    seq(|batch|, i requires 0 <= i < |batch| => Plan(codec, o, t, batch[i]))
  }

  lemma PlanAt(codec: Codec, o: Options, t: Capabilities, batch: seq<Entry>, k: nat)
    requires k < |batch|
    ensures PlanAll(codec, o, t, batch)[k] == Plan(codec, o, t, batch[k])
  {
  }

  /** Message i, unless the run has stopped. */
  function Extended(t: Capabilities, dlq: string, p: Processed, m: Planned, i: nat): Processed {
    if p.failed then p
    else
      Processed(
        p.calls + Calls(t, dlq, m.decision, m.body, i, m.results),
        if Stops(m.decision, m.results) then p.summary else Counted(p.summary, m.decision),
        Stops(m.decision, m.results))
  }

  const NOTHING: Summary := Summary(0, 0, [])

  /** The processing loop over the first n messages of the batch; base is the offset of its first message. */
  function ProcessFrom(start: Processed, t: Capabilities, dlq: string, batch: seq<Planned>, base: nat,
      n: nat): Processed
    requires n <= |batch|
  {
    if n == 0 then start
    else Extended(t, dlq, ProcessFrom(start, t, dlq, batch, base, n - 1), batch[n - 1], base + n - 1)
  }

  function Process(t: Capabilities, dlq: string, batch: seq<Planned>, base: nat, n: nat): Processed
    requires n <= |batch|
  {
    ProcessFrom(Processed([], NOTHING, false), t, dlq, batch, base, n)
  }

  // ---------- The broker ----------

  /** An offset-committing broker: an ack commits everything up to it, a rewind resumes at the commit. */
  datatype Offsets = Offsets(committed: nat, position: nat)

  function Moved(s: Offsets, c: Call): Offsets {
    match c
    case Popped(i) => s.(position := i + 1)
    case Acked(i, ok) => if ok then s.(committed := i + 1) else s
    case Rewound => s.(position := s.committed)
    case _ => s
  }

  function After(s: Offsets, calls: seq<Call>): Offsets {
    if calls == [] then s else Moved(After(s, calls[..|calls| - 1]), calls[|calls| - 1])
  }

  function PopCall(log: seq<Entry>, popFails: bool, position: nat): Call {
    if position < |log| then Popped(position) else if popFails then PopFailed else PoppedNothing
  }

  class Broker {
    const log: seq<Entry>          // the dead-letter queue
    const popFails: bool            // a Pop beyond the log fails instead of finding nothing
    const caps: Capabilities
    const start: Offsets
    var offsets: Offsets
    var calls: seq<Call>            // every call so far

    ghost predicate Valid()
      reads this
    {
      offsets == After(start, calls)
    }

    method Record(c: Call)
      requires Valid()
      modifies this
      ensures Valid() && calls == old(calls) + [c] && offsets == Moved(old(offsets), c)
    {
      calls := calls + [c];
      offsets := Moved(offsets, c);
    }

    method Pop() returns (found: Option<Entry>, failed: bool)
      requires Valid()
      modifies this
      ensures Valid() && calls == old(calls) + [PopCall(log, popFails, old(offsets.position))]
      ensures offsets == Moved(old(offsets), PopCall(log, popFails, old(offsets.position)))
      ensures found == if old(offsets.position) < |log| then Some(log[old(offsets.position)]) else None
      ensures failed <==> PopCall(log, popFails, old(offsets.position)).PopFailed?
    {
      var i := offsets.position;
      Record(PopCall(log, popFails, i));
      found := if i < |log| then Some(log[i]) else None;
      failed := i >= |log| && popFails;
    }

    /** restoreToDLQ: true when it was written. */
    method RestoreToDlq(dlq: string, body: string, i: nat, r: Results) returns (ok: bool)
      requires Valid()
      modifies this
      ensures Valid() && ok == r.restore
      ensures calls == old(calls) + RestoreCalls(caps, dlq, body, i, r)
    {
      hide Valid;
      ok := r.restore;
      Record(Wrote(dlq, body, i, false, ok));
      if ok {
        Record(Acked(i, r.ack));
      } else if caps.rewinder {
        Record(Rewound);
      }
    }

    method Abort(dlq: string, body: string, i: nat, r: Results)
      requires Valid()
      modifies this
      ensures Valid() && calls == old(calls) + AbortCalls(caps, dlq, body, i, r)
    {
      hide RestoreCalls, Valid;
      var ok := RestoreToDlq(dlq, body, i, r);
      if ok && caps.rewinder {
        Record(Rewound);
      }
    }

    method Handle(d: Decision, dlq: string, body: string, i: nat, r: Results) returns (failed: bool)
      requires Valid()
      modifies this
      ensures Valid() && failed == Stops(d, r)
      ensures calls == old(calls) + Calls(caps, dlq, d, body, i, r)
    {
      hide AbortCalls, RestoreCalls, Valid;
      match d {
        case Restore(_) =>
          var ok := RestoreToDlq(dlq, body, i, r);
          failed := !ok;
        case Unencodable =>
          Abort(dlq, body, i, r);
          failed := true;
        case Reset(queue, b, item) =>
          var ok := r.publish;
          Record(Wrote(queue, b, i, item.bypassed, ok));
          if ok {
            Record(Acked(i, r.ack));
          } else {
            Abort(dlq, body, i, r);
          }
          failed := !ok;
      }
    }
  }

  lemma {:induction false} AfterConcat(s: Offsets, a: seq<Call>, b: seq<Call>)
    ensures After(s, a + b) == After(After(s, a), b)
  {
    if b == [] {
      assert a + b == a;
    } else {
      var n := |b| - 1;
      assert (a + b)[..|a + b| - 1] == a + b[..n];
      AfterConcat(s, a, b[..n]);
    }
  }

  // ---------- Redrive ----------

  /** How many messages a run drains: what there is, or max of it; a negative max drains nothing. */
  function Drains(o: Options, available: nat): nat {
    if o.max == 0 then available else if o.max < 0 then 0 else Min(o.max, available)
  }

  /** As many as are asked for and as there are; all of them for 0. */
  lemma DrainsExactly(o: Options, available: nat)
    ensures var n := Drains(o, available);
      && n <= available && (o.max > 0 ==> n <= o.max) && (o.max < 0 ==> n == 0)
      && (n < available ==> o.max != 0 && n == if o.max < 0 then 0 else o.max)
  {
  }

  function PopCalls(base: nat, n: nat): seq<Call> { seq(n, i requires 0 <= i < n => Popped(base + i)) }

  /** The draining loop's last call: none when max was reached. */
  function DrainCalls(o: Options, log: seq<Entry>, popFails: bool, base: nat): seq<Call>
    requires base <= |log|
  {
    var n := Drains(o, |log| - base);
    PopCalls(base, n) + if o.max == 0 || n < o.max then [if popFails then PopFailed else PoppedNothing] else []
  }

  predicate DrainFails(o: Options, log: seq<Entry>, popFails: bool, base: nat)
    requires base <= |log|
  {
    popFails && (o.max == 0 || Drains(o, |log| - base) < o.max)
  }

  method DrainBatch(b: Broker, o: Options) returns (batch: seq<Entry>, failed: bool)
    requires b.Valid() && b.offsets.position <= |b.log|
    modifies b
    ensures b.Valid()
    ensures var base := old(b.offsets.position);
      && b.calls == old(b.calls) + DrainCalls(o, b.log, b.popFails, base)
      && batch == b.log[base..base + Drains(o, |b.log| - base)]
      && (failed <==> DrainFails(o, b.log, b.popFails, base))
  {
    ghost var base, before := b.offsets.position, b.calls;
    batch := [];
    NoneDrained(b.log, base, before);
    hide PopCalls, Drains, DrainFails, DrainCalls;
    while o.max == 0 || |batch| < o.max
      invariant b.Valid() && base + |batch| <= |b.log| && (|batch| <= o.max || o.max <= 0)
      invariant o.max < 0 ==> batch == []
      invariant b.offsets.position == base + |batch| && batch == b.log[base..base + |batch|]
      invariant b.calls == before + PopCalls(base, |batch|)
      decreases |b.log| - |batch|
    {
      OnePopMore(before, base, |batch|);
      DrainEnds(o, b.log, b.popFails, base, |batch|, before);
      var found, popFailed := b.Pop();
      if popFailed {
        return batch, true;
      }
      if found.None? {
        return batch, false;
      }
      batch := batch + [found.value];
    }
    DrainEnds(o, b.log, b.popFails, base, |batch|, before);
    failed := false;
  }

  lemma NoneDrained(log: seq<Entry>, base: nat, before: seq<Call>)
    requires base <= |log|
    ensures log[base..base] == [] && before + PopCalls(base, 0) == before
  {
  }

  lemma OnePopMore(before: seq<Call>, base: nat, n: nat)
    ensures before + PopCalls(base, n + 1) == before + PopCalls(base, n) + [Popped(base + n)]
  {
    assert PopCalls(base, n + 1) == PopCalls(base, n) + [Popped(base + n)];
  }

  /** Draining ends with enough messages, or with a pop that finds none or fails. */
  lemma DrainEnds(o: Options, log: seq<Entry>, popFails: bool, base: nat, n: nat, before: seq<Call>)
    requires base + n <= |log| && (n <= o.max || o.max <= 0) && (o.max < 0 ==> n == 0)
    ensures o.max != 0 && n >= o.max ==>
      && Drains(o, |log| - base) == n && !DrainFails(o, log, popFails, base)
      && before + DrainCalls(o, log, popFails, base) == before + PopCalls(base, n)
    ensures (o.max == 0 || n < o.max) && base + n == |log| ==>
      && Drains(o, |log| - base) == n && (DrainFails(o, log, popFails, base) <==> popFails)
      && before + DrainCalls(o, log, popFails, base)
        == before + PopCalls(base, n) + [if popFails then PopFailed else PoppedNothing]
  {
    hide PopCalls;
    var last := if popFails then PopFailed else PoppedNothing;
    assert before + (PopCalls(base, n) + [last]) == before + PopCalls(base, n) + [last];
    assert PopCalls(base, n) + [] == PopCalls(base, n);
  }

  lemma Assoc(a: seq<Call>, b: seq<Call>, c: seq<Call>)
    ensures a + b + c == a + (b + c)
  {
  }

  method ProcessOne(b: Broker, dlq: string, m: Planned, i: nat, before: Summary)
      returns (summary: Summary, failed: bool)
    requires b.Valid()
    modifies b
    ensures b.Valid()
    ensures Processed(b.calls, summary, failed) == Extended(b.caps, dlq, Processed(old(b.calls), before, false), m, i)
  {
    hide Calls, Stops, Counted, b.Valid;
    failed := b.Handle(m.decision, dlq, m.body, i, m.results);
    summary := if failed then before else Counted(before, m.decision);
  }

  /** One more message, when the loop has not stopped. */
  lemma ProcessFromNext(start: Processed, t: Capabilities, dlq: string, plan: seq<Planned>, base: nat, k: nat,
      p: Processed)
    requires k < |plan| && p == ProcessFrom(start, t, dlq, plan, base, k)
    ensures ProcessFrom(start, t, dlq, plan, base, k + 1) == Extended(t, dlq, p, plan[k], base + k)
  {
  }

  /** The next message of the batch, while none has failed. */
  method ProcessNext(codec: Codec, b: Broker, dlq: string, o: Options, batch: seq<Entry>, first: nat, k: nat,
      before: Summary, ghost start: Processed, ghost plan: seq<Planned>)
    returns (summary: Summary, failed: bool)
    requires b.Valid() && k < |batch| && plan == PlanAll(codec, o, b.caps, batch) && |plan| == |batch|
    requires Processed(b.calls, before, false) == ProcessFrom(start, b.caps, dlq, plan, first, k)
    modifies b
    ensures b.Valid() && Processed(b.calls, summary, failed) == ProcessFrom(start, b.caps, dlq, plan, first, k + 1)
  {
    hide *;
    ghost var next := ProcessFrom(start, b.caps, dlq, plan, first, k + 1);
    PlanAt(codec, o, b.caps, batch, k);
    ProcessFromNext(start, b.caps, dlq, plan, first, k, Processed(b.calls, before, false));
    var m := Plan(codec, o, b.caps, batch[k]);
    assert next == Extended(b.caps, dlq, Processed(b.calls, before, false), m, first + k);
    summary, failed := ProcessOne(b, dlq, m, first + k, before);
  }

  method ProcessBatch(codec: Codec, b: Broker, dlq: string, o: Options, batch: seq<Entry>, first: nat)
    returns (summary: Summary, failed: bool)
    requires b.Valid()
    modifies b
    ensures b.Valid()
    ensures Processed(b.calls, summary, failed) ==
      ProcessFrom(Processed(old(b.calls), NOTHING, false), b.caps, dlq, PlanAll(codec, o, b.caps, batch),
        first, |batch|)
  {
    ghost var plan := PlanAll(codec, o, b.caps, batch);
    ghost var start := Processed(b.calls, NOTHING, false);
    summary, failed := NOTHING, false;
    var k := 0;
    assert start == ProcessFrom(start, b.caps, dlq, plan, first, 0);
    hide *;
    while k < |batch| && !failed
      invariant b.Valid() && k <= |batch| == |plan|
      invariant Processed(b.calls, summary, failed) == ProcessFrom(start, b.caps, dlq, plan, first, k)
      decreases |batch| - k
    {
      summary, failed := ProcessNext(codec, b, dlq, o, batch, first, k, summary, start, plan);
      k := k + 1;
    }
    StaysFailed(start, b.caps, dlq, plan, first, k);
  }

  /** The calls and the result of a whole run that starts to read at base. */
  function Outcome(codec: Codec, o: Options, t: Capabilities, dlq: string, log: seq<Entry>, popFails: bool,
      base: nat): Processed
    requires base <= |log|
  {
    var n := Drains(o, |log| - base);
    var drained := DrainCalls(o, log, popFails, base);
    if DrainFails(o, log, popFails, base) then Processed(drained, NOTHING, true)
    else
      var p := Process(t, dlq, PlanAll(codec, o, t, log[base..base + n]), base, n);
      p.(calls := drained + p.calls)
  }

  method Redrive(codec: Codec, b: Broker, dlq: string, o: Options)
    returns (summary: Summary, failed: bool)
    requires b.Valid() && b.offsets.position <= |b.log|
    modifies b
    ensures b.Valid()
    ensures var p := Outcome(codec, o, b.caps, dlq, b.log, b.popFails, old(b.offsets.position));
      failed == p.failed && summary == p.summary && b.calls == old(b.calls) + p.calls
  {
    hide ProcessFrom, DrainCalls, b.Valid;
    ghost var before := b.calls;
    var first := b.offsets.position;
    var batch, popFailed := DrainBatch(b, o);
    if popFailed {
      return NOTHING, true;
    }
    ghost var drained := b.calls;
    summary, failed := ProcessBatch(codec, b, dlq, o, batch, first);
    ghost var plan := PlanAll(codec, o, b.caps, batch);
    ProcessAppends(drained, b.caps, dlq, plan, first, |batch|);
    Assoc(before, DrainCalls(o, b.log, b.popFails, first), Process(b.caps, dlq, plan, first, |batch|).calls);
  }

  /** Once the loop stopped, nothing more is done. */
  lemma {:induction false} StaysFailed(start: Processed, t: Capabilities, dlq: string, batch: seq<Planned>,
      base: nat, k: nat)
    requires k <= |batch| && (k < |batch| ==> ProcessFrom(start, t, dlq, batch, base, k).failed)
    ensures ProcessFrom(start, t, dlq, batch, base, |batch|) == ProcessFrom(start, t, dlq, batch, base, k)
    decreases |batch| - k
  {
    hide Calls, Counted, Stops;
    if k < |batch| {
      StaysFailed(start, t, dlq, batch, base, k + 1);
    }
  }

  /** The calls made before only precede the run's own. */
  lemma {:induction false} ProcessAppends(before: seq<Call>, t: Capabilities, dlq: string, batch: seq<Planned>,
      base: nat, n: nat)
    requires n <= |batch|
    ensures var p := Process(t, dlq, batch, base, n);
      ProcessFrom(Processed(before, NOTHING, false), t, dlq, batch, base, n) == p.(calls := before + p.calls)
  {
    hide Calls, Counted, Stops;
    if n > 0 {
      var p := Process(t, dlq, batch, base, n - 1);
      var m := batch[n - 1];
      ProcessAppends(before, t, dlq, batch, base, n - 1);
      Assoc(before, p.calls, Calls(t, dlq, m.decision, m.body, base + n - 1, m.results));
    } else {
      assert before + [] == before;
    }
  }

  // ---------- What every run keeps ----------

  /** A confirmed write of message i. */
  predicate Confirms(c: Call, i: nat) { c.Wrote? && c.from == i && c.ok }

  predicate Settled(calls: seq<Call>, i: nat) { exists j :: 0 <= j < |calls| && Confirms(calls[j], i) }

  lemma SettledConcat(a: seq<Call>, b: seq<Call>, i: nat)
    ensures Settled(a + b, i) <==> Settled(a, i) || Settled(b, i)
  {
    if Settled(a, i) {
      var j :| 0 <= j < |a| && Confirms(a[j], i);
      assert Confirms((a + b)[j], i);
    }
    if Settled(b, i) {
      var j :| 0 <= j < |b| && Confirms(b[j], i);
      assert Confirms((a + b)[|a| + j], i);
    }
  }

  lemma AfterSnoc(s: Offsets, a: seq<Call>, c: Call)
    ensures After(s, a + [c]) == Moved(After(s, a), c)
  {
    assert (a + [c])[..|a|] == a;
  }

  lemma AfterOne(s: Offsets, c: Call)
    ensures After(s, [c]) == Moved(s, c)
  {
    assert [c][..0] == [];
  }

  lemma AfterTwo(s: Offsets, c: Call, d: Call)
    ensures After(s, [c, d]) == Moved(Moved(s, c), d)
  {
    AfterOne(s, c);
    assert [c, d][..1] == [c];
  }

  /** What the calls of message i do: commit it after a confirmed write or leave the commit alone, and go
      back to the commit when the run stops. */
  predicate Advances(t: Capabilities, s: Offsets, calls: seq<Call>, i: nat, stops: bool) {
    var v := After(s, calls);
    && (v.committed == s.committed || (v.committed == i + 1 && Settled(calls, i)))
    && (!stops ==> v.position == s.position && Settled(calls, i))
    && (stops && t.rewinder ==> v.position == v.committed)
    && (stops && t.rewinder ==> calls != [] && calls[|calls| - 1].Rewound?)
  }

  lemma RestoreAdvances(t: Capabilities, dlq: string, body: string, i: nat, r: Results, s: Offsets)
    ensures Advances(t, s, RestoreCalls(t, dlq, body, i, r), i, !r.restore)
  {
    var c := Wrote(dlq, body, i, false, r.restore);
    AfterOne(s, c);
    AfterTwo(s, c, if r.restore then Acked(i, r.ack) else Rewound);
    var calls := RestoreCalls(t, dlq, body, i, r);
    assert calls[0] == c;
    assert calls == if r.restore then [c, Acked(i, r.ack)] else if t.rewinder then [c, Rewound] else [c];
  }

  lemma AbortAdvances(t: Capabilities, dlq: string, body: string, i: nat, r: Results, s: Offsets)
    ensures Advances(t, s, AbortCalls(t, dlq, body, i, r), i, true)
  {
    RestoreAdvances(t, dlq, body, i, r, s);
    var a := RestoreCalls(t, dlq, body, i, r);
    hide RestoreCalls, Settled, After;
    if r.restore && t.rewinder {
      AfterSnoc(s, a, Rewound);
      SettledConcat(a, [Rewound], i);
    } else {
      assert a + [] == a;
    }
  }

  lemma CallsAdvance(t: Capabilities, dlq: string, d: Decision, body: string, i: nat, r: Results, s: Offsets)
    ensures Advances(t, s, Calls(t, dlq, d, body, i, r), i, Stops(d, r))
  {
    match d
    case Restore(_) => RestoreAdvances(t, dlq, body, i, r, s);
    case Unencodable => AbortAdvances(t, dlq, body, i, r, s);
    case Reset(queue, b, item) =>
      var c := Wrote(queue, b, i, item.bypassed, r.publish);
      AfterOne(s, c);
      if r.publish {
        AfterTwo(s, c, Acked(i, r.ack));
        assert Calls(t, dlq, d, body, i, r) == [c, Acked(i, r.ack)];
        assert Confirms([c, Acked(i, r.ack)][0], i);
      } else {
        var rest := AbortCalls(t, dlq, body, i, r);
        AbortAdvances(t, dlq, body, i, r, s);
        AfterConcat(s, [c], rest);
        SettledConcat([c], rest, i);
        hide AbortCalls;
        assert Calls(t, dlq, d, body, i, r) == [c] + rest;
      }
  }

  /** What the first n messages do: everything they commit is settled, a loop that goes on settled them
      all, and a loop that stopped is back at the commit. */
  predicate Progress(t: Capabilities, s: Offsets, calls: seq<Call>, failed: bool, base: nat, n: nat) {
    var v := After(s, calls);
    && (v.committed == s.committed
        || (base < v.committed <= base + n && forall i :: base <= i < v.committed ==> Settled(calls, i)))
    && (!failed ==> v.position == s.position && forall i :: base <= i < base + n ==> Settled(calls, i))
    && (failed && t.rewinder ==> v.position == v.committed && calls != [] && calls[|calls| - 1].Rewound?)
  }

  lemma OneMoreProgresses(t: Capabilities, s: Offsets, calls: seq<Call>, made: seq<Call>, stops: bool,
      base: nat, n: nat)
    requires Progress(t, s, calls, false, base, n)
    requires Advances(t, After(s, calls), made, base + n, stops)
    ensures Progress(t, s, calls + made, stops, base, n + 1)
  {
    AfterConcat(s, calls, made);
    forall k: nat ensures Settled(calls + made, k) <==> Settled(calls, k) || Settled(made, k) {
      SettledConcat(calls, made, k);
    }
    if stops && t.rewinder {
      assert (calls + made)[|calls + made| - 1] == made[|made| - 1];
    }
    hide After, Settled;
    var v := After(s, calls + made);
    forall i | base <= i < v.committed && v.committed != s.committed ensures Settled(calls + made, i) {
      assert i < base + n || i == base + n;
    }
  }

  lemma ExtendedProgresses(t: Capabilities, dlq: string, p: Processed, m: Planned, base: nat, n: nat, s: Offsets)
    requires Progress(t, s, p.calls, p.failed, base, n)
    ensures var v := Extended(t, dlq, p, m, base + n); Progress(t, s, v.calls, v.failed, base, n + 1)
  {
    hide Calls, After, Progress, Advances, Counted, Stops;
    if p.failed {
      StopsForGood(t, s, p.calls, base, n);
    } else {
      CallsAdvance(t, dlq, m.decision, m.body, base + n, m.results, After(s, p.calls));
      OneMoreProgresses(t, s, p.calls, Calls(t, dlq, m.decision, m.body, base + n, m.results),
        Stops(m.decision, m.results), base, n);
    }
  }

  lemma {:induction false} ProcessProgresses(t: Capabilities, dlq: string, batch: seq<Planned>, base: nat, n: nat,
      s: Offsets)
    requires n <= |batch|
    ensures var p := Process(t, dlq, batch, base, n); Progress(t, s, p.calls, p.failed, base, n)
  {
    hide *;
    if n == 0 {
      NothingProgresses(t, dlq, batch, s, base);
    } else {
      var before := Process(t, dlq, batch, base, n - 1);
      ProcessProgresses(t, dlq, batch, base, n - 1, s);
      ProcessNextIs(t, dlq, batch, base, n - 1);
      ExtendedProgresses(t, dlq, before, batch[n - 1], base, n - 1, s);
    }
  }

  lemma NothingProgresses(t: Capabilities, dlq: string, batch: seq<Planned>, s: Offsets, base: nat)
    ensures var p := Process(t, dlq, batch, base, 0); Progress(t, s, p.calls, p.failed, base, 0)
  {
  }

  lemma ProcessNextIs(t: Capabilities, dlq: string, batch: seq<Planned>, base: nat, n: nat)
    requires n < |batch|
    ensures Process(t, dlq, batch, base, n + 1) == Extended(t, dlq, Process(t, dlq, batch, base, n), batch[n], base + n)
  {
  }

  lemma StopsForGood(t: Capabilities, s: Offsets, calls: seq<Call>, base: nat, n: nat)
    requires Progress(t, s, calls, true, base, n)
    ensures Progress(t, s, calls, true, base, n + 1)
  {
    hide After, Settled;
  }

  /** The counts: every message of a run that succeeds is reported, redriven or skipped. */
  predicate Counts(p: Processed, n: nat) {
    && p.summary.redriven + p.summary.skipped == |p.summary.items|
    && (if p.failed then |p.summary.items| < n else |p.summary.items| == n)
  }

  lemma ExtendedCounts(t: Capabilities, dlq: string, p: Processed, m: Planned, n: nat, i: nat)
    requires Counts(p, n)
    ensures Counts(Extended(t, dlq, p, m, i), n + 1)
  {
    hide Calls;
  }

  lemma {:induction false} ProcessCounts(t: Capabilities, dlq: string, batch: seq<Planned>, base: nat, n: nat)
    requires n <= |batch|
    ensures Counts(Process(t, dlq, batch, base, n), n)
  {
    assert Counts(Processed([], NOTHING, false), 0);
    hide Counts, Extended;
    if n > 0 {
      ProcessCounts(t, dlq, batch, base, n - 1);
      ExtendedCounts(t, dlq, Process(t, dlq, batch, base, n - 1), batch[n - 1], n - 1, base + n - 1);
    }
  }

  // ---------- Every write and every ack ----------

  /** Where a message goes: to the queue that is asked for; or else to the one it was dead-lettered from, if its block
      names one; or else to the one its meta names. */
  predicate GoesTo(o: Options, e: Envelope, queue: string) {
    && (o.toQueue != "" ==> queue == o.toQueue)
    && (o.toQueue == "" && e.deadLetter.Some? && e.deadLetter.value.originalQueue != "" ==>
        queue == e.deadLetter.value.originalQueue)
    && (o.toQueue == "" && (e.deadLetter == None || e.deadLetter.value.originalQueue == "") ==> queue == e.meta.queue)
  }

  /** The same envelope without a dead_letter and with no attempts. */
  predicate IsReset(e: Envelope, copy: Envelope) {
    && copy.deadLetter == None && copy.attempts == 0
    && copy.job == e.job && copy.traceId == e.traceId && copy.data == e.data && copy.meta == e.meta
    && copy.extras == e.extras && copy.metaExtras == e.metaExtras && copy.warnings == e.warnings
  }

  /** What may be written for message i: its own body back to the DLQ, or, for a decoded and selected one outside a dry
      run, its reset copy to where it goes, with the bypass header where that is asked for and can be written. */
  ghost predicate Faithful(codec: Codec, o: Options, t: Capabilities, dlq: string, body: string, c: Call)
    requires c.Wrote?
  {
    || (c.queue == dlq && c.body == body && !c.bypass)
    || (&& codec.decode(body).Some? && !o.dryRun
        && var e := codec.decode(body).value;
        && Selected(o, e) && GoesTo(o, e, c.queue) && (c.bypass <==> o.bypass && t.headers)
        && exists copy :: IsReset(e, copy) && codec.encode(copy) == Some(c.body))
  }

  /** One message's calls: writes are faithful, at most one is confirmed, and an ack comes right after it. */
  ghost predicate Orderly(codec: Codec, o: Options, t: Capabilities, dlq: string, body: string, i: nat,
      calls: seq<Call>) {
    && (forall j :: 0 <= j < |calls| && calls[j].Wrote? ==>
      calls[j].from == i && Faithful(codec, o, t, dlq, body, calls[j]))
    && (forall j, k :: 0 <= j < k < |calls| && calls[j].Wrote? && calls[k].Wrote? ==> !(calls[j].ok && calls[k].ok))
    && (forall j :: 0 <= j < |calls| && calls[j].Acked? ==> j > 0 && Confirms(calls[j - 1], i) && calls[j].from == i)
  }

  lemma ResetIsFaithful(codec: Codec, o: Options, t: Capabilities, dlq: string, body: string, i: nat, ok: bool)
    ensures var d := Decide(codec, o, t, body);
      d.Reset? ==> Faithful(codec, o, t, dlq, body, Wrote(d.queue, d.body, i, d.item.bypassed, ok))
  {
    if codec.decode(body).Some? {
      assert IsReset(codec.decode(body).value, Cleared(codec.decode(body).value));
    }
  }

  /** What is decided, and what is reported of it. */
  lemma DecidedExactlyWhen(codec: Codec, o: Options, t: Capabilities, body: string)
    ensures var d := Decide(codec, o, t, body); var e := codec.decode(body);
      && (d.Restore? <==> e == None || !Selected(o, e.value) || o.dryRun)
      && (d.Restore? ==>
          && d.item.envelope == e && !d.item.redriven && !d.item.bypassed
          && if e == None || !Selected(o, e.value) then d.item.to == None
             else d.item.to.Some? && GoesTo(o, e.value, d.item.to.value))
      && (d.Reset? ==>
          && GoesTo(o, e.value, d.queue) && d.item.envelope == e && d.item.to == Some(d.queue) && d.item.redriven
          && (d.item.bypassed <==> o.bypass && t.headers))
      && (d.Unencodable? ==> exists copy :: IsReset(e.value, copy) && codec.encode(copy) == None)
  {
    if codec.decode(body).Some? {
      assert IsReset(codec.decode(body).value, Cleared(codec.decode(body).value));
    }
  }

  lemma CallsAreOrderly(codec: Codec, o: Options, t: Capabilities, dlq: string, body: string, i: nat, r: Results)
    ensures Orderly(codec, o, t, dlq, body, i, Calls(t, dlq, Decide(codec, o, t, body), body, i, r))
  {
    ResetIsFaithful(codec, o, t, dlq, body, i, r.publish);
    RestoreIsOrderly(codec, o, t, dlq, body, i, r);
    match Decide(codec, o, t, body) {
      case Restore(_) =>
      case Unencodable =>
      case Reset(queue, b, item) => ResetIsOrderly(codec, o, t, dlq, body, i, r, queue, b, item);
    }
    hide Decide, Faithful, Orderly, RestoreCalls, AbortCalls;
  }

  lemma RestoreIsOrderly(codec: Codec, o: Options, t: Capabilities, dlq: string, body: string, i: nat, r: Results)
    ensures Orderly(codec, o, t, dlq, body, i, RestoreCalls(t, dlq, body, i, r))
    ensures Orderly(codec, o, t, dlq, body, i, AbortCalls(t, dlq, body, i, r))
  {
    RestoredIsFaithful(codec, o, t, dlq, body, i, r.restore);
    hide Faithful;
  }

  lemma ResetIsOrderly(codec: Codec, o: Options, t: Capabilities, dlq: string, body: string, i: nat, r: Results,
      queue: string, b: string, item: Item)
    requires Faithful(codec, o, t, dlq, body, Wrote(queue, b, i, item.bypassed, r.publish))
    ensures Orderly(codec, o, t, dlq, body, i, Calls(t, dlq, Reset(queue, b, item), body, i, r))
  {
    hide Faithful;
    var w := Wrote(queue, b, i, item.bypassed, r.publish);
    if !r.publish {
      RestoreIsOrderly(codec, o, t, dlq, body, i, r);
      FailedFirst(codec, o, t, dlq, body, i, w, AbortCalls(t, dlq, body, i, r));
    }
    hide AbortCalls;
  }

  /** A write that failed, before other calls. */
  lemma FailedFirst(codec: Codec, o: Options, t: Capabilities, dlq: string, body: string, i: nat, w: Call,
      calls: seq<Call>)
    requires w.Wrote? && !w.ok && w.from == i && Faithful(codec, o, t, dlq, body, w)
    requires Orderly(codec, o, t, dlq, body, i, calls)
    ensures Orderly(codec, o, t, dlq, body, i, [w] + calls)
  {
    hide Faithful, Confirms;
    var all := [w] + calls;
    forall j | 0 <= j < |all| && all[j].Acked? ensures j > 0 && Confirms(all[j - 1], i) && all[j].from == i {
      assert all[j] == calls[j - 1] && all[j - 1] == calls[j - 2];
    }
    forall j, k | 0 <= j < k < |all| && all[j].Wrote? && all[k].Wrote? ensures !(all[j].ok && all[k].ok) {
      assert all[k] == calls[k - 1];
      if j > 0 { assert all[j] == calls[j - 1]; }
    }
  }

  lemma RestoredIsFaithful(codec: Codec, o: Options, t: Capabilities, dlq: string, body: string, i: nat, ok: bool)
    ensures Faithful(codec, o, t, dlq, body, Wrote(dlq, body, i, false, ok))
  {
  }

  /** Call j, if it is a write, is a faithful one of a drained message. */
  ghost predicate WriteIsFaithful(codec: Codec, o: Options, t: Capabilities, dlq: string, batch: seq<Entry>,
      base: nat, calls: seq<Call>, j: nat)
    requires j < |calls|
  {
    calls[j].Wrote? ==>
      base <= calls[j].from < base + |batch| && Faithful(codec, o, t, dlq, batch[calls[j].from - base].body, calls[j])
  }

  /** Call j, if it is an ack, comes right after the confirmed write of its message. */
  predicate AckFollowsWrite(calls: seq<Call>, j: nat)
    requires j < |calls|
  {
    calls[j].Acked? ==> j > 0 && Confirms(calls[j - 1], calls[j].from)
  }

  /** Of two confirmed writes the second is of a later message. */
  predicate WritesMoveOn(calls: seq<Call>, j: nat, k: nat)
    requires j < |calls| && k < |calls|
  {
    j < k && calls[j].Wrote? && calls[j].ok && calls[k].Wrote? && calls[k].ok ==> calls[j].from < calls[k].from
  }

  predicate Below(calls: seq<Call>, j: nat, base: nat, n: nat)
    requires j < |calls|
  {
    calls[j].Wrote? ==> calls[j].from < base + n
  }

  ghost predicate OrderlyRun(codec: Codec, o: Options, t: Capabilities, dlq: string, batch: seq<Entry>, base: nat,
      n: nat, calls: seq<Call>) {
    && (forall j: nat :: j < |calls| ==> WriteIsFaithful(codec, o, t, dlq, batch, base, calls, j))
    && (forall j: nat :: j < |calls| ==> Below(calls, j, base, n))
    && (forall j: nat :: j < |calls| ==> AckFollowsWrite(calls, j))
    && (forall j: nat, k: nat :: j < |calls| && k < |calls| ==> WritesMoveOn(calls, j, k))
  }

  lemma OrderlyAt(codec: Codec, o: Options, t: Capabilities, dlq: string, batch: seq<Entry>, base: nat, n: nat,
      calls: seq<Call>, made: seq<Call>, j: nat)
    requires n < |batch| && OrderlyRun(codec, o, t, dlq, batch, base, n, calls)
    requires Orderly(codec, o, t, dlq, batch[n].body, base + n, made)
    requires j < |calls + made|
    ensures var all := calls + made;
      WriteIsFaithful(codec, o, t, dlq, batch, base, all, j) && Below(all, j, base, n + 1) && AckFollowsWrite(all, j)
  {
    hide Faithful;
    if j < |calls| {
      assert WriteIsFaithful(codec, o, t, dlq, batch, base, calls, j) && Below(calls, j, base, n)
        && AckFollowsWrite(calls, j);
    } else {
      var i := j - |calls|;
      assert (calls + made)[j] == made[i];
      assert made[i].Acked? ==> i > 0 && (calls + made)[j - 1] == made[i - 1];
    }
  }

  lemma OrderlyPair(codec: Codec, o: Options, t: Capabilities, dlq: string, batch: seq<Entry>, base: nat, n: nat,
      calls: seq<Call>, made: seq<Call>, j: nat, k: nat)
    requires n < |batch| && OrderlyRun(codec, o, t, dlq, batch, base, n, calls)
    requires Orderly(codec, o, t, dlq, batch[n].body, base + n, made)
    requires j < |calls + made| && k < |calls + made|
    ensures WritesMoveOn(calls + made, j, k)
  {
    hide Faithful;
    var all := calls + made;
    if j < k < |calls| {
      assert WritesMoveOn(calls, j, k);
    } else if j < |calls| {
      assert Below(calls, j, base, n);
      assert k >= |calls| ==> all[k] == made[k - |calls|];
    } else {
      assert all[j] == made[j - |calls|];
      assert k >= |calls| ==> all[k] == made[k - |calls|];
    }
  }

  lemma OrderlyAppend(codec: Codec, o: Options, t: Capabilities, dlq: string, batch: seq<Entry>, base: nat, n: nat,
      calls: seq<Call>, made: seq<Call>)
    requires n < |batch| && OrderlyRun(codec, o, t, dlq, batch, base, n, calls)
    requires Orderly(codec, o, t, dlq, batch[n].body, base + n, made)
    ensures OrderlyRun(codec, o, t, dlq, batch, base, n + 1, calls + made)
  {
    hide Orderly, WriteIsFaithful, Below, AckFollowsWrite, WritesMoveOn;
    var all := calls + made;
    forall j: nat | j < |all| ensures WriteIsFaithful(codec, o, t, dlq, batch, base, all, j) {
      OrderlyAt(codec, o, t, dlq, batch, base, n, calls, made, j);
    }
    var next := n + 1;
    forall j: nat | j < |all| ensures Below(all, j, base, next) {
      OrderlyAt(codec, o, t, dlq, batch, base, n, calls, made, j);
    }
    forall j: nat | j < |all| ensures AckFollowsWrite(all, j) {
      OrderlyAt(codec, o, t, dlq, batch, base, n, calls, made, j);
    }
    forall j: nat, k: nat | j < |all| && k < |all| ensures WritesMoveOn(all, j, k) {
      OrderlyPair(codec, o, t, dlq, batch, base, n, calls, made, j, k);
    }
  }

  lemma ExtendedIsOrderly(codec: Codec, o: Options, t: Capabilities, dlq: string, batch: seq<Entry>, base: nat,
      n: nat, p: Processed)
    requires n < |batch| && OrderlyRun(codec, o, t, dlq, batch, base, n, p.calls)
    ensures OrderlyRun(codec, o, t, dlq, batch, base, n + 1,
      Extended(t, dlq, p, Plan(codec, o, t, batch[n]), base + n).calls)
  {
    hide Decide, Calls, Counted, Stops, WriteIsFaithful, Below, AckFollowsWrite, WritesMoveOn, Orderly;
    if p.failed {
      NothingIsOrderly(codec, o, t, dlq, batch[n].body, base + n);
      OrderlyAppend(codec, o, t, dlq, batch, base, n, p.calls, []);
      assert p.calls + [] == p.calls;
    } else {
      var m := Plan(codec, o, t, batch[n]);
      CallsAreOrderly(codec, o, t, dlq, m.body, base + n, m.results);
      OrderlyAppend(codec, o, t, dlq, batch, base, n, p.calls, Calls(t, dlq, m.decision, m.body, base + n, m.results));
    }
  }

  lemma NothingIsOrderly(codec: Codec, o: Options, t: Capabilities, dlq: string, body: string, i: nat)
    ensures Orderly(codec, o, t, dlq, body, i, [])
  {
  }

  /** Each drained message is still unacknowledged, or was acknowledged after its one successful write. */
  lemma {:induction false} ProcessIsOrderly(codec: Codec, o: Options, t: Capabilities, dlq: string, batch: seq<Entry>,
      base: nat, n: nat)
    requires n <= |batch|
    ensures OrderlyRun(codec, o, t, dlq, batch, base, n, Process(t, dlq, PlanAll(codec, o, t, batch), base, n).calls)
  {
    hide Extended, Plan, WriteIsFaithful, Below, AckFollowsWrite, WritesMoveOn;
    if n > 0 {
      ProcessIsOrderly(codec, o, t, dlq, batch, base, n - 1);
      ExtendedIsOrderly(codec, o, t, dlq, batch, base, n - 1,
        Process(t, dlq, PlanAll(codec, o, t, batch), base, n - 1));
    }
  }

  // ---------- What is reported was done ----------

  /** The confirmed write an item reports: the reset copy where it goes, exactly for a decoded and selected message
      outside a dry run, and otherwise the identical body back on the DLQ. */
  ghost predicate Reports(codec: Codec, o: Options, t: Capabilities, dlq: string, body: string, i: nat, item: Item,
      c: Call) {
    var e := codec.decode(body);
    && Confirms(c, i) && item.envelope == e
    && (item.redriven <==> e.Some? && Selected(o, e.value) && !o.dryRun)
    && if item.redriven then
         && GoesTo(o, e.value, c.queue) && item.to == Some(c.queue)
         && c.bypass == item.bypassed == (o.bypass && t.headers)
         && exists copy :: IsReset(e.value, copy) && codec.encode(copy) == Some(c.body)
       else c.queue == dlq && c.body == body && !c.bypass && !item.bypassed
  }

  /** Some call is that write, and the next one acknowledges the message. */
  ghost predicate IsReported(codec: Codec, o: Options, t: Capabilities, dlq: string, body: string, i: nat, item: Item,
      calls: seq<Call>) {
    exists j: nat :: j + 1 < |calls| && Reports(codec, o, t, dlq, body, i, item, calls[j]) && IsAckOf(calls[j + 1], i)
  }

  predicate IsAckOf(c: Call, i: nat) { c.Acked? && c.from == i }

  ghost predicate AreReported(codec: Codec, o: Options, t: Capabilities, dlq: string, batch: seq<Entry>, base: nat,
      p: Processed) {
    && |p.summary.items| <= |batch|
    && forall k: nat :: k < |p.summary.items| ==>
         IsReported(codec, o, t, dlq, batch[k].body, base + k, p.summary.items[k], p.calls)
  }

  lemma ReportedStays(codec: Codec, o: Options, t: Capabilities, dlq: string, body: string, i: nat, item: Item,
      calls: seq<Call>, more: seq<Call>)
    requires IsReported(codec, o, t, dlq, body, i, item, calls)
    ensures IsReported(codec, o, t, dlq, body, i, item, calls + more)
  {
    hide Reports, IsAckOf;
    var j: nat :|
      j + 1 < |calls| && Reports(codec, o, t, dlq, body, i, item, calls[j]) && IsAckOf(calls[j + 1], i);
    assert (calls + more)[j] == calls[j] && (calls + more)[j + 1] == calls[j + 1];
  }

  lemma MadeIsReported(codec: Codec, o: Options, t: Capabilities, dlq: string, e: Entry, i: nat, calls: seq<Call>)
    requires var d := Decide(codec, o, t, e.body); !Stops(d, e.results) && !d.Unencodable?
    ensures var d := Decide(codec, o, t, e.body);
      IsReported(codec, o, t, dlq, e.body, i, d.item, calls + Calls(t, dlq, d, e.body, i, e.results))
  {
    var d := Decide(codec, o, t, e.body);
    var made := Calls(t, dlq, d, e.body, i, e.results);
    assert |made| == 2 && (calls + made)[|calls|] == made[0] && (calls + made)[|calls| + 1] == made[1];
    if codec.decode(e.body).Some? {
      assert IsReset(codec.decode(e.body).value, Cleared(codec.decode(e.body).value));
    }
    assert Reports(codec, o, t, dlq, e.body, i, d.item, made[0]) && IsAckOf(made[1], i);
  }

  lemma ExtendedIsReported(codec: Codec, o: Options, t: Capabilities, dlq: string, batch: seq<Entry>, base: nat,
      n: nat, p: Processed)
    requires n < |batch| && Counts(p, n) && AreReported(codec, o, t, dlq, batch, base, p)
    ensures AreReported(codec, o, t, dlq, batch, base,
      Extended(t, dlq, p, Plan(codec, o, t, batch[n]), base + n))
  {
    var m := Plan(codec, o, t, batch[n]);
    var v := Extended(t, dlq, p, m, base + n);
    var made := Calls(t, dlq, m.decision, m.body, base + n, m.results);
    hide Decide, Calls, IsReported;
    if !p.failed {
      if !Stops(m.decision, m.results) { MadeIsReported(codec, o, t, dlq, batch[n], base + n, p.calls); }
      forall k: nat | k < |v.summary.items|
        ensures IsReported(codec, o, t, dlq, batch[k].body, base + k, v.summary.items[k], v.calls) {
        if k < |p.summary.items| {
          ReportedStays(codec, o, t, dlq, batch[k].body, base + k, p.summary.items[k], p.calls, made);
        }
      }
    }
  }

  /** In every run each reported item is that of its drained message, and reports what was written for it. */
  lemma {:induction false} WhatIsReportedWasDone(codec: Codec, o: Options, t: Capabilities, dlq: string,
      batch: seq<Entry>, base: nat, n: nat)
    requires n <= |batch|
    ensures AreReported(codec, o, t, dlq, batch, base, Process(t, dlq, PlanAll(codec, o, t, batch), base, n))
  {
    hide Extended, Plan, IsReported, Counts;
    if n > 0 {
      WhatIsReportedWasDone(codec, o, t, dlq, batch, base, n - 1);
      ProcessCounts(t, dlq, PlanAll(codec, o, t, batch), base, n - 1);
      ExtendedIsReported(codec, o, t, dlq, batch, base, n - 1,
        Process(t, dlq, PlanAll(codec, o, t, batch), base, n - 1));
    }
  }

  function RedrivenIn(items: seq<Item>): nat {
    if items == [] then 0
    else RedrivenIn(items[..|items| - 1]) + if items[|items| - 1].redriven then 1 else 0
  }

  lemma RedrivenSnoc(items: seq<Item>, item: Item)
    ensures RedrivenIn(items + [item]) == RedrivenIn(items) + if item.redriven then 1 else 0
  {
    assert (items + [item])[..|items|] == items;
  }

  lemma ExtendedCountsRedriven(codec: Codec, o: Options, t: Capabilities, dlq: string, e: Entry, i: nat, p: Processed)
    requires p.summary.redriven == RedrivenIn(p.summary.items)
    ensures var s := Extended(t, dlq, p, Plan(codec, o, t, e), i).summary; s.redriven == RedrivenIn(s.items)
  {
    hide Calls, RedrivenIn;
    var d := Decide(codec, o, t, e.body);
    DecidedExactlyWhen(codec, o, t, e.body);
    if !d.Unencodable? { RedrivenSnoc(p.summary.items, d.item); }
    hide Decide;
  }

  /** Counted as redriven are the items that report a redrive. */
  lemma {:induction false} RedrivenIsCounted(codec: Codec, o: Options, t: Capabilities, dlq: string,
      batch: seq<Entry>, base: nat, n: nat)
    requires n <= |batch|
    ensures var s := Process(t, dlq, PlanAll(codec, o, t, batch), base, n).summary; s.redriven == RedrivenIn(s.items)
  {
    hide Extended, Plan;
    if n > 0 {
      RedrivenIsCounted(codec, o, t, dlq, batch, base, n - 1);
      ExtendedCountsRedriven(codec, o, t, dlq, batch[n - 1], base + n - 1,
        Process(t, dlq, PlanAll(codec, o, t, batch), base, n - 1));
    }
  }

  // ---------- Runs one after another ----------

  /** Nothing below the commit is unsettled. */
  predicate Sound(h: seq<Call>) { forall i :: 0 <= i < After(Offsets(0, 0), h).committed ==> Settled(h, i) }

  /** Nothing the reader has passed is unsettled: what the next run commits stays sound. */
  predicate Level(h: seq<Call>) { forall i :: 0 <= i < After(Offsets(0, 0), h).position ==> Settled(h, i) }

  lemma {:induction false} AfterPops(s: Offsets, n: nat)
    ensures After(s, PopCalls(s.position, n)) == s.(position := s.position + n)
    ensures forall i :: !Settled(PopCalls(s.position, n), i)
  {
    if n > 0 {
      AfterPops(s, n - 1);
      assert PopCalls(s.position, n) == PopCalls(s.position, n - 1) + [Popped(s.position + n - 1)];
      AfterSnoc(s, PopCalls(s.position, n - 1), Popped(s.position + n - 1));
    }
  }

  lemma AfterDrain(o: Options, log: seq<Entry>, popFails: bool, s: Offsets)
    requires s.position <= |log|
    ensures After(s, DrainCalls(o, log, popFails, s.position)) ==
      s.(position := s.position + Drains(o, |log| - s.position))
    ensures forall i :: !Settled(DrainCalls(o, log, popFails, s.position), i)
  {
    hide After, PopCalls, Settled, Drains;
    var n := Drains(o, |log| - s.position);
    var pops := PopCalls(s.position, n);
    AfterPops(s, n);
    AfterSnoc(s, pops, if popFails then PopFailed else PoppedNothing);
    assert pops + [] == pops;
    forall i: nat ensures !Settled(DrainCalls(o, log, popFails, s.position), i) {
      DrainSettlesNothing(o, log, popFails, s, i);
    }
  }

  lemma DrainSettlesNothing(o: Options, log: seq<Entry>, popFails: bool, s: Offsets, i: nat)
    requires s.position <= |log|
    ensures !Settled(DrainCalls(o, log, popFails, s.position), i)
  {
    var n := Drains(o, |log| - s.position);
    var last := if popFails then PopFailed else PoppedNothing;
    var pops := PopCalls(s.position, n);
    AfterPops(s, n);
    SettledConcat(pops, [last], i);
    NothingSettles(last, i);
    hide After, PopCalls, Settled, Drains;
    assert pops + [] == pops;
  }

  lemma NothingSettles(c: Call, i: nat)
    requires !c.Wrote?
    ensures !Settled([c], i)
  {
  }

  function Base(h: seq<Call>): Offsets { After(Offsets(0, 0), h) }

  /** A run that ended well settled every message it drained, and reported each as redriven or skipped. */
  lemma SuccessSettlesAll(codec: Codec, o: Options, t: Capabilities, dlq: string, log: seq<Entry>, popFails: bool,
      base: nat)
    requires base <= |log| && !Outcome(codec, o, t, dlq, log, popFails, base).failed
    ensures var p := Outcome(codec, o, t, dlq, log, popFails, base); var n := Drains(o, |log| - base);
      && (forall i :: base <= i < base + n ==> Settled(p.calls, i))
      && p.summary.redriven + p.summary.skipped == |p.summary.items| == n
  {
    var n := Drains(o, |log| - base);
    var plan := PlanAll(codec, o, t, log[base..base + n]);
    ProcessProgresses(t, dlq, plan, base, n, Offsets(base, base));
    ProcessCounts(t, dlq, plan, base, n);
    var made := Process(t, dlq, plan, base, n).calls;
    var drained := DrainCalls(o, log, popFails, base);
    hide Process, DrainCalls, Settled, PlanAll;
    forall i: nat | base <= i < base + n ensures Settled(drained + made, i) {
      SettledConcat(drained, made, i);
    }
  }

  /** A run that stopped after draining has handed the rest back: its last call is the rewind. */
  lemma FailureRewinds(codec: Codec, o: Options, t: Capabilities, dlq: string, log: seq<Entry>, popFails: bool,
      base: nat)
    requires base <= |log| && t.rewinder && Outcome(codec, o, t, dlq, log, popFails, base).failed
    requires !DrainFails(o, log, popFails, base)
    ensures var p := Outcome(codec, o, t, dlq, log, popFails, base); p.calls != [] && p.calls[|p.calls| - 1].Rewound?
  {
    var n := Drains(o, |log| - base);
    var plan := PlanAll(codec, o, t, log[base..base + n]);
    ProcessProgresses(t, dlq, plan, base, n, Offsets(base, base));
    hide Process, DrainCalls, Settled, PlanAll;
  }

  lemma SettledAll(h: seq<Call>, drained: seq<Call>, made: seq<Call>)
    requires forall i :: !Settled(drained, i)
    ensures forall i: nat :: Settled(h + (drained + made), i) <==> Settled(h, i) || Settled(made, i)
  {
    forall i: nat ensures Settled(h + (drained + made), i) <==> Settled(h, i) || Settled(made, i) {
      SettledConcat(h, drained + made, i);
      SettledConcat(drained, made, i);
    }
  }

  lemma LevelAfterDrain(o: Options, log: seq<Entry>, popFails: bool, h: seq<Call>)
    requires Sound(h) && Base(h).position <= |log|
    ensures var base := Base(h).position; var h' := h + DrainCalls(o, log, popFails, base);
      && Sound(h')
      && (Level(h') <==> Level(h) && forall i :: base <= i < base + Drains(o, |log| - base) ==> Settled(h, i))
  {
    var s := Base(h);
    var drained := DrainCalls(o, log, popFails, s.position);
    AfterDrain(o, log, popFails, s);
    AfterConcat(Offsets(0, 0), h, drained);
    SettledAll(h, drained, []);
    assert h + (drained + []) == h + drained;
    hide DrainCalls, After, Settled;
  }

  /** One more run by the same consumer. Its commits are sound, and the next run may start: unless a Pop
      failed while messages that nothing settled were already drained, for that exit does not rewind. */
  lemma RunStaysSound(codec: Codec, o: Options, t: Capabilities, dlq: string, log: seq<Entry>, popFails: bool,
      h: seq<Call>)
    requires t.rewinder && Sound(h) && Level(h) && Base(h).position <= |log|
    ensures var base := Base(h).position; var n := Drains(o, |log| - base);
      var h' := h + Outcome(codec, o, t, dlq, log, popFails, base).calls;
      && Sound(h')
      && (Level(h') <==> !DrainFails(o, log, popFails, base) || forall i :: base <= i < base + n ==> Settled(h, i))
  {
    hide Process, DrainCalls, After, Settled, PlanAll, Sound, Level;
    var s := Base(h);
    var n := Drains(o, |log| - s.position);
    if DrainFails(o, log, popFails, s.position) {
      LevelAfterDrain(o, log, popFails, h);
    } else {
      var plan := PlanAll(codec, o, t, log[s.position..s.position + n]);
      var p := Process(t, dlq, plan, s.position, n);
      var drained := DrainCalls(o, log, popFails, s.position);
      ProcessProgresses(t, dlq, plan, s.position, n, s.(position := s.position + n));
      AfterDrain(o, log, popFails, s);
      AfterConcat(Offsets(0, 0), h, drained + p.calls);
      AfterConcat(s, drained, p.calls);
      SettledAll(h, drained, p.calls);
      LevelAfter(s, n, p, t, h, h + (drained + p.calls));
    }
  }

  lemma LevelAfter(s: Offsets, n: nat, p: Processed, t: Capabilities, h: seq<Call>, h': seq<Call>)
    requires t.rewinder && Sound(h) && Level(h) && s == Base(h)
    requires Base(h') == After(s.(position := s.position + n), p.calls)
    requires Progress(t, s.(position := s.position + n), p.calls, p.failed, s.position, n)
    requires forall i: nat :: Settled(h', i) <==> Settled(h, i) || Settled(p.calls, i)
    ensures Sound(h') && Level(h')
  {
    hide After, Settled;
    var v := Base(h');
    forall i: nat | i < v.committed ensures Settled(h', i) {
      if v.committed == s.committed || i < s.position {
        assert Settled(h, i);
      } else {
        assert Settled(p.calls, i);
      }
    }
    forall i: nat | i < v.position ensures Settled(h', i) {
      if !p.failed {
        assert i < s.position ==> Settled(h, i);
        assert s.position <= i ==> Settled(p.calls, i);
      }
    }
  }

  lemma FirstRun(codec: Codec, o: Options, t: Capabilities, results: Results)
    requires o.max == 0
    ensures Outcome(codec, o, t, "dlq", [Entry("a", results)], true, 0).calls == [Popped(0), PopFailed]
    ensures Base([Popped(0), PopFailed]) == Offsets(0, 1)
  {
    AfterTwo(Offsets(0, 0), Popped(0), PopFailed);
    assert PopCalls(0, 1) == [Popped(0)];
  }

  lemma SecondRun(codec: Codec, o: Options, t: Capabilities, results: Results)
    requires o == Options("", 0, false, None, false) && results == Results(true, true, true)
      && codec.decode("b") == None
    ensures Outcome(codec, o, t, "dlq", [Entry("a", results), Entry("b", results)], false, 1).calls
      == [Popped(1), PoppedNothing, Wrote("dlq", "b", 1, false, true), Acked(1, true)]
  {
    var log := [Entry("a", results), Entry("b", results)];
    var batch := log[1..1 + 1];
    assert batch == [Entry("b", results)];
    assert PopCalls(1, 1) == [Popped(1)];
    var plan := PlanAll(codec, o, t, batch);
    PlanAt(codec, o, t, batch, 0);
    var start := Processed([], NOTHING, false);
    assert ProcessFrom(start, t, "dlq", plan, 1, 0) == start;
    assert ProcessFrom(start, t, "dlq", plan, 1, 1) == Extended(t, "dlq", start, plan[0], 1);
  }

  /** What that exit costs: two undecodable messages; the first run drains one and its next Pop fails, the
      second run restores the other one, and its ack commits the first, which was never restored. */
  lemma PopErrorLosesAMessage(codec: Codec, t: Capabilities)
    requires codec.decode("a") == None && codec.decode("b") == None
    ensures var o := Options("", 0, false, None, false);
      var results := Results(true, true, true);
      var first := Outcome(codec, o, t, "dlq", [Entry("a", results)], true, 0).calls;
      && Base(first).position == 1
      && var second := Outcome(codec, o, t, "dlq", [Entry("a", results), Entry("b", results)], false, 1).calls;
      Base(first + second).committed == 2 && !Settled(first + second, 0)
  {
    var o := Options("", 0, false, None, false);
    var results := Results(true, true, true);
    FirstRun(codec, o, t, results);
    SecondRun(codec, o, t, results);
    hide Outcome;
    var pops, made := [Popped(1), PoppedNothing], [Wrote("dlq", "b", 1, false, true), Acked(1, true)];
    assert pops + made == [Popped(1), PoppedNothing, Wrote("dlq", "b", 1, false, true), Acked(1, true)];
    AfterConcat(Offsets(0, 0), [Popped(0), PopFailed], pops + made);
    AfterConcat(Offsets(0, 1), pops, made);
    AfterTwo(Offsets(0, 1), Popped(1), PoppedNothing);
    AfterTwo(Offsets(0, 2), made[0], made[1]);
  }
}
