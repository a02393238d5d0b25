/** The re-injector of kafka/reinject.go for one retry topic. */
module Reinjector {
  // The interleaving of its fetch loop and its partition workers: fetches, waits, writes and commits that fail
  // or succeed, rebalances, crashes and restarts.

  import opened Wrappers
  import opened KafkaRecords

  const QUEUE_DEPTH := 64

  // ---------- The wait ----------

  /** waitFor: the time until timestamp + tier, clamped to [now, now + tier]. */
  function WaitFor(time: int, tier: int, now: int): (d: int)
    ensures tier >= 0 ==> 0 <= d <= tier && now + d >= (if time < now then time else now) + tier
    ensures tier >= 0 && time + tier <= now ==> d == 0
    ensures tier >= 0 && time >= now ==> d == tier
    ensures tier >= 0 && time < now < time + tier ==> now + d == time + tier
    ensures tier < 0 ==> d == tier
  {
    var target := time + tier;
    var atLeastNow := if target < now then now else target;
    var atMostTier := if atLeastNow > now + tier then now + tier else atLeastNow;
    atMostTier - now
  }

  /** The pause before attempt n + 2, in milliseconds. */
  function Pause(n: nat): (p: nat)
    ensures 100 <= p <= 5000
  {
    if n == 0 then 100 else if 2 * Pause(n - 1) > 5000 then 5000 else 2 * Pause(n - 1)
  }

  /** In milliseconds: the pauses double, up to five seconds. */
  lemma PausesAre(n: nat)
    ensures n < 6 ==> Pause(n) == [100, 200, 400, 800, 1600, 3200][n]
    ensures n >= 6 ==> Pause(n) == 5000
  {
    if n >= 6 {
      LongPause(n);
    } else {
      assert Pause(0) == 100 && Pause(1) == 200 && Pause(2) == 400;
      assert Pause(3) == 800 && Pause(4) == 1600 && Pause(5) == 3200;
    }
  }

  lemma {:induction false} LongPause(n: nat)
    requires n >= 6
    ensures Pause(n) == 5000
  {
    if n > 6 {
      LongPause(n - 1);
    } else {
      assert Pause(2) == 400 && Pause(4) == 1600 && Pause(5) == 3200;
    }
  }

  /** retryUntilDone over the results of its attempts; the context ends after `attempts` of them. */
  method RetryUntilDone(op: nat -> bool, attempts: nat) returns (done: bool, tries: nat, pauses: seq<nat>)
    ensures tries <= attempts && |pauses| <= tries
    ensures done ==> 0 < tries && op(tries - 1) && |pauses| == tries - 1
    ensures !done ==> tries == attempts == |pauses|
    ensures forall i :: 0 <= i < tries && !(done && i == tries - 1) ==> !op(i)
    ensures forall i :: 0 <= i < |pauses| ==> pauses[i] == Pause(i)
  {
    var pause := 100;
    tries, pauses := 0, [];
    while tries < attempts
      invariant tries <= attempts && |pauses| == tries && pause == Pause(tries)
      invariant forall i :: 0 <= i < tries ==> !op(i)
      invariant forall i :: 0 <= i < |pauses| ==> pauses[i] == Pause(i)
    {
      var ok := op(tries);
      tries := tries + 1;
      if ok {
        return true, tries, pauses;
      }
      pauses := pauses + [pause];
      pause := pause * 2;
      if pause > 5000 {
        pause := 5000;
      }
    }
    return false, tries, pauses;
  }

  // ---------- The system ----------

  datatype Stage = Waiting | Writing | Committing

  /** The record a worker holds: its offset, when its wait began and when it ends. */
  datatype Held = Held(offset: nat, start: int, until: int, stage: Stage)

  /** One retry-topic partition, its fetch position, its buffer and its worker. */
  datatype Partition = Partition(log: seq<Record>, committed: nat, position: nat, buffer: seq<nat>,
      worker: Option<Held>)

  /** A record on its work topic. */
  datatype Carried = Carried(partition: nat, offset: nat, record: Record, start: int, time: int)

  datatype World = World(now: int, partitions: seq<Partition>, carried: seq<Carried>)

  datatype Step =
    | Tick(now: int)
    | Append(p: nat, record: Record)
    | Fetch(p: nat)
    | Take(p: nat)                        // the worker takes the next buffered record and starts to wait
    | Wake(p: nat)
    | Write(p: nat, ok: bool, lands: bool, record: Record)
    | Commit(p: nat, ok: bool, lands: bool)
    | Rebalance(p: nat)                   // the group reader resumes at the commit, the worker goes on
    | Restart                             // cancelled or crashed, and run again

  function TimeOf(r: Record): int { if r.time.Some? then r.time.value else 0 }

  ghost predicate Enabled(w: World, s: Step) {
    match s
    case Tick(now) => now >= w.now
    case Append(p, _) => p < |w.partitions|
    case Fetch(p) =>
      && p < |w.partitions| && w.partitions[p].position < |w.partitions[p].log|
      && |w.partitions[p].buffer| < QUEUE_DEPTH
    case Take(p) => p < |w.partitions| && w.partitions[p].worker == None && w.partitions[p].buffer != []
      && w.partitions[p].buffer[0] < |w.partitions[p].log|
    case Wake(p) => p < |w.partitions| && w.partitions[p].worker.Some? && w.partitions[p].worker.value.stage == Waiting
      && w.now >= w.partitions[p].worker.value.until
    case Write(p, ok, lands, record) =>
      && p < |w.partitions| && w.partitions[p].worker.Some? && w.partitions[p].worker.value.stage == Writing
      && w.partitions[p].worker.value.offset < |w.partitions[p].log|
      && (ok ==> lands) && IsReinjected(w.partitions[p].log[w.partitions[p].worker.value.offset], record)
    case Commit(p, ok, lands) =>
      p < |w.partitions| && w.partitions[p].worker.Some? && w.partitions[p].worker.value.stage == Committing
        && (ok ==> lands)
    case Rebalance(p) => p < |w.partitions|
    case Restart => true
  }

  function Put(w: World, p: nat, q: Partition): World
    requires p < |w.partitions|
  {
    w.(partitions := w.partitions[p := q])
  }

  function Restarted(q: Partition): Partition { q.(position := q.committed, buffer := [], worker := None) }

  function RestartAll(qs: seq<Partition>): (r: seq<Partition>)
    ensures |r| == |qs| && forall p :: 0 <= p < |qs| ==> r[p] == Restarted(qs[p])
  {
    if qs == [] then [] else RestartAll(qs[..|qs| - 1]) + [Restarted(qs[|qs| - 1])]
  }

  ghost function Next(w: World, s: Step, tier: int): World
    requires Enabled(w, s)
  {
    match s
    case Tick(now) => w.(now := now)
    case Append(p, record) => Put(w, p, w.partitions[p].(log := w.partitions[p].log + [record]))
    case Fetch(p) =>
      var q := w.partitions[p];
      Put(w, p, q.(buffer := q.buffer + [q.position], position := q.position + 1))
    case Take(p) =>
      var q := w.partitions[p];
      var k := q.buffer[0];
      Put(w, p, q.(buffer := q.buffer[1..],
                   worker := Some(Held(k, w.now, w.now + WaitFor(TimeOf(q.log[k]), tier, w.now), Waiting))))
    case Wake(p) => Put(w, p, w.partitions[p].(worker := Some(w.partitions[p].worker.value.(stage := Writing))))
    case Write(p, ok, lands, record) =>
      var q := w.partitions[p];
      var h := q.worker.value;
      var v := if ok then Put(w, p, q.(worker := Some(h.(stage := Committing)))) else w;
      if lands then v.(carried := v.carried + [Carried(p, h.offset, record, h.start, w.now)]) else v
    case Commit(p, ok, lands) =>
      var q := w.partitions[p];
      var c := if lands then q.(committed := q.worker.value.offset + 1) else q;
      Put(w, p, if ok then c.(worker := None) else c)
    case Rebalance(p) => Put(w, p, w.partitions[p].(position := w.partitions[p].committed))
    case Restart => w.(partitions := RestartAll(w.partitions))
  }

  ghost predicate Runs(w: World, steps: seq<Step>, tier: int)
    decreases |steps|
  {
    steps == [] || (Enabled(w, steps[0]) && Runs(Next(w, steps[0], tier), steps[1..], tier))
  }

  ghost function Run(w: World, steps: seq<Step>, tier: int): World
    requires Runs(w, steps, tier)
    decreases |steps|
  {
    if steps == [] then w else Run(Next(w, steps[0], tier), steps[1..], tier)
  }

  // ---------- The invariant ----------

  /** The offsets of partition p that were written to their work topic. */
  function Done(carried: seq<Carried>, p: nat): set<nat> {
    if carried == [] then {}
    else
      var last := carried[|carried| - 1];
      Done(carried[..|carried| - 1], p) + if last.partition == p then {last.offset} else {}
  }

  lemma DoneAppend(carried: seq<Carried>, c: Carried, p: nat)
    ensures Done(carried + [c], p) == Done(carried, p) + if c.partition == p then {c.offset} else {}
  {
    assert (carried + [c])[..|carried|] == carried;
  }

  /** The offsets in hand, in the order they will be written. */
  function Pending(q: Partition): seq<nat> { (if q.worker.Some? then [q.worker.value.offset] else []) + q.buffer }

  predicate Below(k: nat, done: set<nat>, pending: seq<nat>) { forall j :: 0 <= j < k ==> j in done || j in pending }

  /** Commits cover written records only, and whatever lies before an offset that was fetched or is in hand
      was written or comes before it. */
  predicate PartitionInv(q: Partition, done: set<nat>) {
    && Below(q.committed, done, [])
    && Below(q.position, done, Pending(q))
    && (forall i :: 0 <= i < |Pending(q)| ==> Below(Pending(q)[i], done, Pending(q)[..i]))
    && (q.worker.Some? && q.worker.value.stage == Committing ==> q.worker.value.offset in done)
  }

  /** First copies are in offset order: whatever lies before a carried offset was carried before it. */
  predicate InOrder(carried: seq<Carried>) {
    forall i :: 0 <= i < |carried| ==> Below(carried[i].offset, Done(carried[..i], carried[i].partition), [])
  }

  predicate Inv(w: World) {
    InOrder(w.carried) && forall p :: 0 <= p < |w.partitions| ==> PartitionInv(w.partitions[p], Done(w.carried, p))
  }

  // ---------- One partition ----------

  lemma FetchKeeps(q: Partition, done: set<nat>)
    requires PartitionInv(q, done)
    ensures PartitionInv(q.(buffer := q.buffer + [q.position], position := q.position + 1), done)
  {
    var v := q.(buffer := q.buffer + [q.position], position := q.position + 1);
    var n := |Pending(q)|;
    assert Pending(v) == Pending(q) + [q.position];
    assert Pending(v)[..n] == Pending(q);
    forall i | 0 <= i < |Pending(v)| ensures Below(Pending(v)[i], done, Pending(v)[..i]) {
      if i < n {
        assert Pending(v)[..i] == Pending(q)[..i];
      }
    }
    assert Pending(v)[n] == q.position;
  }

  lemma TakeKeeps(q: Partition, done: set<nat>, h: Held)
    requires PartitionInv(q, done) && q.worker == None && q.buffer != []
    requires h.offset == q.buffer[0] && h.stage == Waiting
    ensures PartitionInv(q.(buffer := q.buffer[1..], worker := Some(h)), done)
  {
    assert Pending(q.(buffer := q.buffer[1..], worker := Some(h))) == Pending(q);
  }

  lemma CommitKeeps(q: Partition, done: set<nat>, ok: bool, lands: bool)
    requires PartitionInv(q, done) && q.worker.Some? && q.worker.value.stage == Committing && (ok ==> lands)
    ensures var c := if lands then q.(committed := q.worker.value.offset + 1) else q;
      PartitionInv(if ok then c.(worker := None) else c, done)
  {
    var k := q.worker.value.offset;
    assert Pending(q)[0] == k && Pending(q)[..0] == [];
    assert Below(k, done, []);
    var v := q.(worker := None);
    assert Pending(q) == [k] + Pending(v);
    forall i | 0 <= i < |Pending(v)| ensures Below(Pending(v)[i], done, Pending(v)[..i]) {
      assert Pending(v)[i] == Pending(q)[i + 1];
      assert Pending(q)[..i + 1] == [k] + Pending(v)[..i];
    }
  }

  lemma MoreDoneKeeps(q: Partition, done: set<nat>, more: set<nat>)
    requires PartitionInv(q, done) && done <= more
    ensures PartitionInv(q, more)
  {
  }

  // ---------- Every step keeps it ----------

  lemma LandingKeepsOrder(w: World, p: nat, c: Carried)
    requires Inv(w) && p < |w.partitions| && w.partitions[p].worker.Some?
    requires c.partition == p && c.offset == w.partitions[p].worker.value.offset
    ensures InOrder(w.carried + [c])
  {
    var q := w.partitions[p];
    var all := w.carried + [c];
    assert Pending(q)[0] == c.offset && Pending(q)[..0] == [];
    assert Below(c.offset, Done(w.carried, p), []);
    forall i | 0 <= i < |all| ensures Below(all[i].offset, Done(all[..i], all[i].partition), []) {
      assert all[..i] == if i < |w.carried| then w.carried[..i] else w.carried;
    }
  }

  lemma WriteKeeps(w: World, s: Step, tier: int)
    requires Inv(w) && s.Write? && Enabled(w, s)
    ensures Inv(Next(w, s, tier))
  {
    hide IsReinjected;
    var v := Next(w, s, tier);
    if s.lands {
      var h := w.partitions[s.p].worker.value;
      var c := Carried(s.p, h.offset, s.record, h.start, w.now);
      LandingKeepsOrder(w, s.p, c);
      forall p | 0 <= p < |v.partitions| ensures PartitionInv(v.partitions[p], Done(v.carried, p)) {
        DoneAppend(w.carried, c, p);
        MoreDoneKeeps(w.partitions[p], Done(w.carried, p), Done(v.carried, p));
        assert Pending(v.partitions[p]) == Pending(w.partitions[p]);
      }
    }
  }

  lemma StepKeeps(w: World, s: Step, tier: int)
    requires Inv(w) && Enabled(w, s)
    ensures Inv(Next(w, s, tier))
  {
    match s
    case Tick(_) =>
    case Append(_, _) => QuietStepKeeps(w, s, tier);
    case Wake(_) => QuietStepKeeps(w, s, tier);
    case Rebalance(_) => QuietStepKeeps(w, s, tier);
    case Fetch(p) => FetchKeeps(w.partitions[p], Done(w.carried, p));
    case Take(p) =>
      hide PartitionInv, WaitFor;
      var v := Next(w, s, tier);
      TakeKeeps(w.partitions[p], Done(w.carried, p), v.partitions[p].worker.value);
    case Write(_, _, _, _) => WriteKeeps(w, s, tier);
    case Commit(p, ok, lands) =>
      hide PartitionInv;
      CommitKeeps(w.partitions[p], Done(w.carried, p), ok, lands);
    case Restart =>
  }

  /** A record comes in, a wait ends, or the reader goes back to the commit: what is in hand is the same. */
  lemma QuietStepKeeps(w: World, s: Step, tier: int)
    requires Inv(w) && Enabled(w, s) && (s.Append? || s.Wake? || s.Rebalance?)
    ensures Inv(Next(w, s, tier))
  {
    var v := Next(w, s, tier);
    assert Pending(v.partitions[s.p]) == Pending(w.partitions[s.p]);
    hide Done, InOrder, WaitFor;
  }

  // ---------- The clock ----------

  /** Waits are measured from the record's own tier start; nothing is past its wait before it has ended. */
  predicate HeldInv(w: World, p: nat, tier: int)
    requires p < |w.partitions|
  {
    var q := w.partitions[p];
    && (forall i :: 0 <= i < |q.buffer| ==> q.buffer[i] < |q.log|) && q.position <= |q.log| && q.committed <= |q.log|
    && (q.worker.Some? ==>
        var h := q.worker.value;
        && h.offset < |q.log| && h.start <= w.now
        && h.until == h.start + WaitFor(TimeOf(q.log[h.offset]), tier, h.start)
        && (h.stage != Waiting ==> h.until <= w.now))
  }

  /** What was carried is the record's re-injection, after its wait. */
  ghost predicate CarriedOk(w: World, c: Carried, tier: int) {
    && c.partition < |w.partitions| && c.offset < |w.partitions[c.partition].log|
    && var m := w.partitions[c.partition].log[c.offset];
    IsReinjected(m, c.record) && c.time >= c.start + WaitFor(TimeOf(m), tier, c.start)
  }

  ghost predicate TimeInv(w: World, tier: int) {
    && (forall p :: 0 <= p < |w.partitions| ==> HeldInv(w, p, tier))
    && (forall i :: 0 <= i < |w.carried| ==> CarriedOk(w, w.carried[i], tier))
  }

  lemma LogsStay(w: World, v: World, c: Carried, tier: int)
    requires CarriedOk(w, c, tier) && |v.partitions| == |w.partitions|
    requires forall p :: 0 <= p < |w.partitions| ==> w.partitions[p].log <= v.partitions[p].log
    ensures CarriedOk(v, c, tier)
  {
    assert w.partitions[c.partition].log <= v.partitions[c.partition].log;
  }

  lemma NextKeepsLogs(w: World, s: Step, tier: int)
    requires Enabled(w, s)
    ensures var v := Next(w, s, tier);
      && |v.partitions| == |w.partitions|
      && (forall p :: 0 <= p < |w.partitions| ==> w.partitions[p].log <= v.partitions[p].log)
      && w.now <= v.now && w.carried <= v.carried
  {
    hide IsReinjected, WaitFor;
  }

  lemma StepKeepsHeld(w: World, s: Step, tier: int, p: nat)
    requires Enabled(w, s) && TimeInv(w, tier) && p < |w.partitions|
    ensures HeldInv(Next(w, s, tier), p, tier)
  {
    hide IsReinjected, WaitFor;
    assert HeldInv(w, p, tier);
  }

  lemma StepKeepsTime(w: World, s: Step, tier: int)
    requires Enabled(w, s) && TimeInv(w, tier)
    ensures TimeInv(Next(w, s, tier), tier)
  {
    var v := Next(w, s, tier);
    NextKeepsLogs(w, s, tier);
    forall p: nat | p < |v.partitions| ensures HeldInv(v, p, tier) {
      StepKeepsHeld(w, s, tier, p);
    }
    forall i | 0 <= i < |v.carried| ensures CarriedOk(v, v.carried[i], tier) {
      if i < |w.carried| {
        LogsStay(w, v, w.carried[i], tier);
      } else {
        assert HeldInv(w, s.p, tier);
      }
    }
  }

  // ---------- Over every run ----------

  function Start(partitions: nat, now: int): World {
    World(now, seq(partitions, _ => Partition([], 0, 0, [], None)), [])
  }

  lemma {:induction false} RunKeeps(w: World, steps: seq<Step>, tier: int)
    requires Runs(w, steps, tier) && Inv(w) && TimeInv(w, tier)
    ensures Inv(Run(w, steps, tier)) && TimeInv(Run(w, steps, tier), tier)
    decreases |steps|
  {
    hide Inv, TimeInv, Enabled, Next;
    if steps != [] {
      StepKeeps(w, steps[0], tier);
      StepKeepsTime(w, steps[0], tier);
      RunKeeps(Next(w, steps[0], tier), steps[1..], tier);
    }
  }

  /** In every run: a committed offset was carried, and first copies appear in partition offset order. */
  lemma CommittedIsCarried(partitions: nat, now: int, steps: seq<Step>, tier: int)
    requires Runs(Start(partitions, now), steps, tier)
    ensures var w := Run(Start(partitions, now), steps, tier);
      && InOrder(w.carried)
      && forall p, k :: 0 <= p < |w.partitions| && 0 <= k < w.partitions[p].committed ==> k in Done(w.carried, p)
  {
    RunKeeps(Start(partitions, now), steps, tier);
    hide InOrder;
    var w := Run(Start(partitions, now), steps, tier);
    forall p, k | 0 <= p < |w.partitions| && 0 <= k < w.partitions[p].committed ensures k in Done(w.carried, p) {
      assert PartitionInv(w.partitions[p], Done(w.carried, p));
    }
  }

  /** In every run: what is carried is the re-injection of its own record, no earlier than a tier after the
      smaller of its timestamp and the start of its wait; and the wait is at most a tier. */
  lemma CarriedAfterItsTier(partitions: nat, now: int, steps: seq<Step>, tier: int, i: nat)
    requires tier >= 0
    requires Runs(Start(partitions, now), steps, tier)
    requires i < |Run(Start(partitions, now), steps, tier).carried|
    ensures var w := Run(Start(partitions, now), steps, tier);
      var c := w.carried[i];
      && c.partition < |w.partitions| && c.offset < |w.partitions[c.partition].log|
      && var m := w.partitions[c.partition].log[c.offset];
      && IsReinjected(m, c.record)
      && c.time >= (if TimeOf(m) < c.start then TimeOf(m) else c.start) + tier
      && c.time >= c.start && WaitFor(TimeOf(m), tier, c.start) <= tier
  {
    RunKeeps(Start(partitions, now), steps, tier);
    hide IsReinjected, Inv;
    var w := Run(Start(partitions, now), steps, tier);
    assert CarriedOk(w, w.carried[i], tier);
  }
}
