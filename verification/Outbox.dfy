/** The transactional outbox: the in-memory store of outbox.go and the relay of relay.go that drains it. */
module Outbox {
  // Whether the transport accepts a publish is a parameter, and the process may stop in the middle of a pass.

  import opened Wrappers
  import opened Decimal
  import opened Arithmetic

  datatype Row = Row(id: string, body: string, queue: string, attempts: nat, published: bool, lastError: string)

  datatype Record = Record(id: string, body: string, queue: string, attempts: nat)

  datatype Publish = Publish(queue: string, body: string, ok: bool)

  const DRAIN_CEILING := 10000

  // ---------- Rows ----------

  function RowId(n: nat): string { "ob-" + Itoa(n) }

  lemma RowIdsDiffer(m: nat, n: nat)
    requires RowId(m) == RowId(n)
    ensures m == n
  {
    ValueOfDigits(m);
    ValueOfDigits(n);
    assert RowId(m)[3..] == Itoa(m) && RowId(n)[3..] == Itoa(n);
  }

  predicate Numbered(rows: seq<Row>) { forall i :: 0 <= i < |rows| ==> rows[i].id == RowId(i + 1) }

  lemma NumberedDiffer(rows: seq<Row>, i: nat, j: nat)
    requires Numbered(rows) && i < |rows| && j < |rows| && rows[i].id == rows[j].id
    ensures i == j
  {
    RowIdsDiffer(i + 1, j + 1);
  }

  lemma OnlyRow(rows: seq<Row>, i: nat, id: string)
    requires Numbered(rows) && i < |rows| && rows[i].id == id
    ensures forall j :: 0 <= j < |rows| && j != i ==> rows[j].id != id
  {
    forall j | 0 <= j < |rows| && j != i ensures rows[j].id != id {
      if rows[j].id == id { NumberedDiffer(rows, i, j); }
    }
  }

  function RecordOf(r: Row): Record { Record(r.id, r.body, r.queue, r.attempts) }

  /** The pending rows, oldest first. */
  function Pending(rows: seq<Row>): seq<Record> {
    if rows == [] then []
    else
      var last := rows[|rows| - 1];
      Pending(rows[..|rows| - 1]) + if last.published then [] else [RecordOf(last)]
  }

  function Take<T>(s: seq<T>, n: int): seq<T> { if n <= 0 then [] else if n < |s| then s[..n] else s }

  lemma {:induction false} PendingAre(rows: seq<Row>, j: nat)
    requires j < |Pending(rows)|
    ensures exists i :: 0 <= i < |rows| && !rows[i].published && RecordOf(rows[i]) == Pending(rows)[j]
  {
    var n := |rows| - 1;
    var before := Pending(rows[..n]);
    if j < |before| {
      PendingAre(rows[..n], j);
      var i :| 0 <= i < n && !rows[..n][i].published && RecordOf(rows[..n][i]) == before[j];
      assert rows[i] == rows[..n][i];
    } else {
      assert RecordOf(rows[n]) == Pending(rows)[j];
    }
  }

  lemma {:induction false} EveryPendingIsThere(rows: seq<Row>, i: nat)
    requires i < |rows| && !rows[i].published
    ensures RecordOf(rows[i]) in Pending(rows)
  {
    var n := |rows| - 1;
    if i < n {
      EveryPendingIsThere(rows[..n], i);
      assert rows[..n][i] == rows[i];
    }
  }

  /** Publishing one pending row takes exactly one off. */
  lemma {:induction false} PublishingTakesOneOff(rows: seq<Row>, i: nat)
    requires i < |rows| && !rows[i].published
    ensures |Pending(rows[i := rows[i].(published := true)])| == |Pending(rows)| - 1
  {
    var n := |rows| - 1;
    var v := rows[i := rows[i].(published := true)];
    if i < n {
      PublishingTakesOneOff(rows[..n], i);
      assert v[..n] == rows[..n][i := rows[..n][i].(published := true)];
    } else {
      assert v[..n] == rows[..n];
    }
  }

  /** The number of pending rows depends on nothing but the published marks. */
  lemma {:induction false} SameMarksSamePending(rows: seq<Row>, v: seq<Row>)
    requires |rows| == |v| && forall i :: 0 <= i < |rows| ==> rows[i].published == v[i].published
    ensures |Pending(rows)| == |Pending(v)|
  {
    if rows != [] {
      SameMarksSamePending(rows[..|rows| - 1], v[..|v| - 1]);
    }
  }

  /** Pending rows have different ids, since all rows do. */
  lemma {:induction false} PendingIdsDiffer(rows: seq<Row>)
    requires Numbered(rows)
    ensures forall j, k :: 0 <= j < k < |Pending(rows)| ==> Pending(rows)[j].id != Pending(rows)[k].id
  {
    hide RowId;
    if rows != [] {
      var n := |rows| - 1;
      var before := Pending(rows[..n]);
      PendingIdsDiffer(rows[..n]);
      forall j | 0 <= j < |before| ensures before[j].id != rows[n].id {
        PendingAre(rows[..n], j);
        var i :| 0 <= i < n && !rows[..n][i].published && RecordOf(rows[..n][i]) == before[j];
        assert rows[..n][i] == rows[i];
        if rows[i].id == rows[n].id { NumberedDiffer(rows, i, n); }
      }
    }
  }

  function MarkedPublished(rows: seq<Row>, ids: seq<string>): (v: seq<Row>)
    ensures |v| == |rows|
    ensures forall i :: 0 <= i < |rows| ==> v[i] == rows[i].(published := rows[i].published || rows[i].id in ids)
  {
    seq(|rows|, i requires 0 <= i < |rows| => rows[i].(published := rows[i].published || rows[i].id in ids))
  }

  function MarkedFailed(rows: seq<Row>, id: string, reason: string): (v: seq<Row>)
    ensures |v| == |rows|
    ensures forall i :: 0 <= i < |rows| ==>
      v[i] == if rows[i].id == id then rows[i].(attempts := rows[i].attempts + 1, lastError := reason) else rows[i]
  {
    seq(|rows|, i requires 0 <= i < |rows| =>
      if rows[i].id == id then rows[i].(attempts := rows[i].attempts + 1, lastError := reason) else rows[i])
  }

  // ---------- The store ----------

  class InMemoryStore {
    var rows: seq<Row>
    var sequence: nat

    ghost predicate Valid()
      reads this
    {
      sequence == |rows| && Numbered(rows)
    }

    constructor ()
      ensures Valid() && rows == []
    {
      rows, sequence := [], 0;
    }

    method Save(encoded: string, queue: string) returns (id: string)
      requires Valid()
      modifies this
      ensures Valid() && rows == old(rows) + [Row(id, encoded, queue, 0, false, "")]
      ensures forall i :: 0 <= i < |old(rows)| ==> old(rows)[i].id != id
    {
      hide RowId;
      sequence := sequence + 1;
      id := RowId(sequence);
      forall i | 0 <= i < |rows| ensures rows[i].id != id {
        if rows[i].id == id { RowIdsDiffer(i + 1, sequence); }
      }
      rows := rows + [Row(id, encoded, queue, 0, false, "")];
    }

    method FetchUnpublished(limit: int) returns (out: seq<Record>)
      ensures out == Take(Pending(rows), limit)
    {
      out := [];
      if limit <= 0 {
        return;
      }
      for i := 0 to |rows|
        invariant out == Pending(rows[..i]) && |out| < limit
      {
        assert rows[..i + 1][..i] == rows[..i];
        if rows[i].published {
          continue;
        }
        out := out + [RecordOf(rows[i])];
        if |out| >= limit {
          PendingPrefix(rows, i + 1);
          return;
        }
      }
      assert rows[..|rows|] == rows;
    }

    /** find: the row with this id, or |rows|. */
    method Find(id: string) returns (i: nat)
      ensures i <= |rows| && (i < |rows| ==> rows[i].id == id) && forall k :: 0 <= k < i ==> rows[k].id != id
    {
      i := 0;
      while i < |rows| && rows[i].id != id
        invariant i <= |rows| && forall k :: 0 <= k < i ==> rows[k].id != id
      {
        i := i + 1;
      }
    }

    method MarkPublished(ids: seq<string>)
      requires Valid()
      modifies this`rows
      ensures Valid() && rows == MarkedPublished(old(rows), ids)
    {
      hide RowId;
      for k := 0 to |ids|
        invariant Valid() && rows == MarkedPublished(old(rows), ids[..k])
      {
        assert ids[..k + 1] == ids[..k] + [ids[k]];
        var i := Find(ids[k]);
        if i < |rows| {
          OnlyRow(rows, i, ids[k]);
          rows := rows[i := rows[i].(published := true)];
        }
        assert rows == MarkedPublished(old(rows), ids[..k + 1]);
      }
      assert ids[..|ids|] == ids;
    }

    method MarkFailed(id: string, reason: string)
      requires Valid()
      modifies this`rows
      ensures Valid() && rows == MarkedFailed(old(rows), id, reason)
    {
      hide RowId;
      var i := Find(id);
      if i < |rows| {
        OnlyRow(rows, i, id);
        rows := rows[i := rows[i].(attempts := rows[i].attempts + 1, lastError := reason)];
      }
      assert rows == MarkedFailed(old(rows), id, reason);
    }

    method PendingCount() returns (n: nat)
      ensures n == |Pending(rows)|
    {
      n := 0;
      for i := 0 to |rows|
        invariant n == |Pending(rows[..i])|
      {
        assert rows[..i + 1][..i] == rows[..i];
        if !rows[i].published {
          n := n + 1;
        }
      }
      assert rows[..|rows|] == rows;
    }
  }

  lemma {:induction false} PendingPrefix(rows: seq<Row>, n: nat)
    requires n <= |rows|
    ensures Pending(rows[..n]) <= Pending(rows)
  {
    if n < |rows| {
      var m := |rows| - 1;
      PendingPrefix(rows[..m], n);
      assert rows[..m][..n] == rows[..n];
    } else {
      assert rows[..n] == rows;
    }
  }

  // ---------- One pass ----------

  /** How the transport answers its n-th publish: None accepts, Some is the reason it refuses. */
  type Answers = nat -> Option<string>

  /** The publishes of the first n records; the first of them is call `base` of the transport. */
  function Publishes(recs: seq<Record>, n: nat, answers: Answers, base: nat): (calls: seq<Publish>)
    requires n <= |recs|
    ensures |calls| == n
  {
    seq(n, j requires 0 <= j < n => Publish(recs[j].queue, recs[j].body, answers(base + j).None?))
  }

  function AcceptedIds(recs: seq<Record>, n: nat, answers: Answers, base: nat): (ids: seq<string>)
    requires n <= |recs|
    ensures |ids| <= n
  {
    if n == 0 then []
    else AcceptedIds(recs, n - 1, answers, base) + if answers(base + n - 1).None? then [recs[n - 1].id] else []
  }

  function RefusedRows(rows: seq<Row>, recs: seq<Record>, n: nat, answers: Answers, base: nat): (v: seq<Row>)
    requires n <= |recs|
    ensures |v| == |rows|
  {
    if n == 0 then rows
    else
      var before := RefusedRows(rows, recs, n - 1, answers, base);
      match answers(base + n - 1) case None => before case Some(reason) => MarkedFailed(before, recs[n - 1].id, reason)
  }

  lemma PassStart(rows: seq<Row>, recs: seq<Record>, answers: Answers, base: nat)
    ensures RefusedRows(rows, recs, 0, answers, base) == rows && AcceptedIds(recs, 0, answers, base) == []
    ensures Publishes(recs, 0, answers, base) == []
  {
  }

  /** One record more. */
  lemma PassNext(rows: seq<Row>, recs: seq<Record>, k: nat, answers: Answers, base: nat)
    requires k < |recs|
    ensures var before := RefusedRows(rows, recs, k, answers, base);
      RefusedRows(rows, recs, k + 1, answers, base) ==
        match answers(base + k) case None => before case Some(reason) => MarkedFailed(before, recs[k].id, reason)
    ensures AcceptedIds(recs, k + 1, answers, base) ==
      AcceptedIds(recs, k, answers, base) + if answers(base + k).None? then [recs[k].id] else []
    ensures Publishes(recs, k + 1, answers, base) ==
      Publishes(recs, k, answers, base) + [Publish(recs[k].queue, recs[k].body, answers(base + k).None?)]
  {
  }

  /** Where a pass that started from these rows and calls stands after n records. */
  predicate IsPassAt(rows: seq<Row>, calls: seq<Publish>, recs: seq<Record>, answers: Answers, n: nat, now: seq<Row>,
      made: seq<Publish>, ids: seq<string>)
    requires n <= |recs|
  {
    && made == calls + Publishes(recs, n, answers, |calls|)
    && now == RefusedRows(rows, recs, n, answers, |calls|)
    && ids == AcceptedIds(recs, n, answers, |calls|)
  }

  lemma PassIsAt(rows: seq<Row>, calls: seq<Publish>, recs: seq<Record>, answers: Answers, n: nat, now: seq<Row>,
      made: seq<Publish>, ids: seq<string>)
    requires n <= |recs| && IsPassAt(rows, calls, recs, answers, n, now, made, ids)
    ensures made == calls + Publishes(recs, n, answers, |calls|)
    ensures now == RefusedRows(rows, recs, n, answers, |calls|) && ids == AcceptedIds(recs, n, answers, |calls|)
  {
  }

  lemma PassAtNext(rows: seq<Row>, calls: seq<Publish>, recs: seq<Record>, answers: Answers, k: nat, now: seq<Row>,
      made: seq<Publish>, ids: seq<string>)
    requires k < |recs| && IsPassAt(rows, calls, recs, answers, k, now, made, ids)
    ensures var answer := answers(|made|); var r := recs[k];
      IsPassAt(rows, calls, recs, answers, k + 1,
        match answer case None => now case Some(reason) => MarkedFailed(now, r.id, reason),
        made + [Publish(r.queue, r.body, answer.None?)], if answer.None? then ids + [r.id] else ids)
  {
    PassNext(rows, recs, k, answers, |calls|);
    hide Publishes, RefusedRows, AcceptedIds, MarkedFailed;
    assert |made| == |calls| + k;
  }

  /** Rows only gain attempts, a reason and the published mark. */
  predicate Grown(rows: seq<Row>, v: seq<Row>) {
    |v| >= |rows| && forall i :: 0 <= i < |rows| ==>
      && v[i].id == rows[i].id && v[i].body == rows[i].body && v[i].queue == rows[i].queue
      && v[i].attempts >= rows[i].attempts && (rows[i].published ==> v[i].published)
  }

  lemma GrownTwice(a: seq<Row>, b: seq<Row>, c: seq<Row>)
    requires Grown(a, b) && Grown(b, c)
    ensures Grown(a, c)
  {
  }

  lemma {:induction false} RefusingOnlyCounts(rows: seq<Row>, recs: seq<Record>, n: nat, answers: Answers, base: nat)
    requires n <= |recs|
    ensures var v := RefusedRows(rows, recs, n, answers, base);
      Grown(rows, v) && forall i :: 0 <= i < |rows| ==> v[i].published == rows[i].published
  {
    if n > 0 {
      RefusingOnlyCounts(rows, recs, n - 1, answers, base);
    }
  }

  /** Every row that is marked published has an accepted publish of its queue and its bytes, one of its own. */
  ghost predicate Evident(rows: seq<Row>, calls: seq<Publish>) { exists own :: IsEvidence(rows, calls, own) }

  /** own gives each published row its call. */
  ghost predicate IsEvidence(rows: seq<Row>, calls: seq<Publish>, own: map<nat, nat>) {
    && (forall i: nat :: i in own <==> i < |rows| && rows[i].published)
    && (forall i: nat :: i in own ==> own[i] < |calls| && calls[own[i]] == Publish(rows[i].queue, rows[i].body, true))
    && (forall i: nat, j: nat :: i in own && j in own && i != j ==> own[i] != own[j])
  }

  lemma {:induction false} AcceptedIdsAre(recs: seq<Record>, n: nat, answers: Answers, base: nat, id: string)
    requires n <= |recs|
    ensures id in AcceptedIds(recs, n, answers, base) <==>
      exists j :: 0 <= j < n && answers(base + j).None? && recs[j].id == id
  {
    if n > 0 {
      AcceptedIdsAre(recs, n - 1, answers, base, id);
      if answers(base + n - 1).None? && recs[n - 1].id == id {
        var j := n - 1;
        assert answers(base + j).None? && recs[j].id == id;
      }
    }
  }

  predicate AllDiffer(ids: seq<string>) { forall j, k :: 0 <= j < k < |ids| ==> ids[j] != ids[k] }

  lemma {:induction false} AcceptedIdsDiffer(recs: seq<Record>, n: nat, answers: Answers, base: nat)
    requires n <= |recs| && forall j, k :: 0 <= j < k < |recs| ==> recs[j].id != recs[k].id
    ensures AllDiffer(AcceptedIds(recs, n, answers, base))
  {
    if n > 0 {
      AcceptedIdsDiffer(recs, n - 1, answers, base);
      var before := AcceptedIds(recs, n - 1, answers, base);
      forall j | 0 <= j < |before| ensures before[j] != recs[n - 1].id {
        AcceptedIdsAre(recs, n - 1, answers, base, before[j]);
        assert before[j] in before;
        var k :| 0 <= k < n - 1 && answers(base + k).None? && recs[k].id == before[j];
        assert recs[k].id != recs[n - 1].id;
      }
    }
  }

  predicate IsPending(rows: seq<Row>, id: string) {
    exists i :: 0 <= i < |rows| && rows[i].id == id && !rows[i].published
  }

  /** Marking n different pending rows takes exactly n off. */
  lemma {:induction false} MarkingTakesOff(rows: seq<Row>, ids: seq<string>)
    requires Numbered(rows) && AllDiffer(ids)
    requires forall j :: 0 <= j < |ids| ==> IsPending(rows, ids[j])
    ensures |Pending(MarkedPublished(rows, ids))| == |Pending(rows)| - |ids|
    decreases |ids|
  {
    hide RowId, Pending;
    if ids == [] {
      assert MarkedPublished(rows, ids) == rows;
    } else {
      var n := |ids| - 1;
      var v := MarkedPublished(rows, ids[..n]);
      MarkingTakesOff(rows, ids[..n]);
      assert IsPending(rows, ids[n]);
      var i :| 0 <= i < |rows| && rows[i].id == ids[n] && !rows[i].published;
      assert ids[n] !in ids[..n];
      OnlyRow(rows, i, ids[n]);
      assert ids == ids[..n] + [ids[n]];
      assert MarkedPublished(rows, ids) == v[i := v[i].(published := true)];
      PublishingTakesOneOff(v, i);
    }
  }

  /** The rows after a pass that was not stopped. */
  function PassedRows(rows: seq<Row>, recs: seq<Record>, answers: Answers, base: nat): (v: seq<Row>)
    ensures |v| == |rows|
  {
    MarkedPublished(RefusedRows(rows, recs, |recs|, answers, base), AcceptedIds(recs, |recs|, answers, base))
  }

  lemma OldestAre(rows: seq<Row>, limit: int, j: nat)
    requires j < |Take(Pending(rows), limit)|
    ensures exists i :: 0 <= i < |rows| && !rows[i].published && RecordOf(rows[i]) == Take(Pending(rows), limit)[j]
  {
    PendingAre(rows, j);
  }

  lemma PassTakesOff(rows: seq<Row>, limit: int, answers: Answers, base: nat)
    requires Numbered(rows)
    ensures var recs := Take(Pending(rows), limit);
      |Pending(PassedRows(rows, recs, answers, base))| == |Pending(rows)| - |AcceptedIds(recs, |recs|, answers, base)|
  {
    hide RowId, Pending, RefusedRows, AcceptedIds;
    var recs := Take(Pending(rows), limit);
    var ids := AcceptedIds(recs, |recs|, answers, base);
    var v := RefusedRows(rows, recs, |recs|, answers, base);
    RefusingOnlyCounts(rows, recs, |recs|, answers, base);
    SameMarksSamePending(rows, v);
    PendingIdsDiffer(rows);
    AcceptedIdsDiffer(recs, |recs|, answers, base);
    assert AllDiffer(ids);
    forall j | 0 <= j < |ids| ensures IsPending(v, ids[j]) {
      assert ids[j] in ids;
      AcceptedIdsAre(recs, |recs|, answers, base, ids[j]);
      var k :| 0 <= k < |recs| && answers(base + k).None? && recs[k].id == ids[j];
      OldestAre(rows, limit, k);
      var i :| 0 <= i < |rows| && !rows[i].published && RecordOf(rows[i]) == recs[k];
      assert v[i].id == ids[j] && !v[i].published;
    }
    assert Numbered(v);
    MarkingTakesOff(v, ids);
  }

  /** The record of a row, among those of a pass. */
  function RecordIndex(recs: seq<Record>, id: string): (k: nat)
    ensures k <= |recs| && (k < |recs| ==> recs[k].id == id)
    ensures (exists j :: 0 <= j < |recs| && recs[j].id == id) ==> k < |recs|
  {
    if recs == [] || recs[0].id == id then 0
    else
      assert forall j :: 0 < j < |recs| ==> recs[j] == recs[1..][j - 1];
      1 + RecordIndex(recs[1..], id)
  }

  /** The evidence after a pass: the rows it published have the publishes of this pass. */
  function Extended(rows: seq<Row>, v: seq<Row>, recs: seq<Record>, own: map<nat, nat>, base: nat): map<nat, nat>
    requires |v| == |rows|
  {
    map i: nat | i < |v| && v[i].published :: if i in own then own[i] else base + RecordIndex(recs, rows[i].id)
  }

  predicate WasAccepted(row: Row, recs: seq<Record>, answers: Answers, base: nat) {
    var k := RecordIndex(recs, row.id);
    k < |recs| && answers(base + k).None? && recs[k].queue == row.queue && recs[k].body == row.body
  }

  /** A row that a pass published was one of its records, and that record was accepted. */
  lemma {:induction false} NewlyPublished(rows: seq<Row>, limit: int, answers: Answers, base: nat, i: nat)
    requires Numbered(rows) && i < |rows| && !rows[i].published
    requires PassedRows(rows, Take(Pending(rows), limit), answers, base)[i].published
    ensures WasAccepted(rows[i], Take(Pending(rows), limit), answers, base)
  {
    hide RowId, Pending, RefusedRows, AcceptedIds, Take, RecordIndex;
    var recs := Take(Pending(rows), limit);
    RefusingOnlyCounts(rows, recs, |recs|, answers, base);
    AcceptedIdsAre(recs, |recs|, answers, base, rows[i].id);
    var m :| 0 <= m < |recs| && answers(base + m).None? && recs[m].id == rows[i].id;
    var k := RecordIndex(recs, rows[i].id);
    PendingIdsDiffer(rows);
    TakenDiffer(Pending(rows), limit, m, k);
    OldestAre(rows, limit, k);
    var j :| 0 <= j < |rows| && !rows[j].published && RecordOf(rows[j]) == recs[k];
    NumberedDiffer(rows, i, j);
  }

  lemma TakenDiffer(recs: seq<Record>, limit: int, m: nat, k: nat)
    requires forall a, b :: 0 <= a < b < |recs| ==> recs[a].id != recs[b].id
    requires m < |Take(recs, limit)| && k < |Take(recs, limit)| && Take(recs, limit)[m].id == Take(recs, limit)[k].id
    ensures m == k
  {
  }

  /** How many pending rows are older than row i. */
  function Older(rows: seq<Row>, i: nat): nat
    requires i <= |rows|
  {
    if i == 0 then 0 else Older(rows, i - 1) + if rows[i - 1].published then 0 else 1
  }

  /** A pending row comes right after the older ones. */
  lemma {:induction false} PendingAt(rows: seq<Row>, i: nat)
    requires i < |rows| && !rows[i].published
    ensures Older(rows, i) < |Pending(rows)| && Pending(rows)[Older(rows, i)] == RecordOf(rows[i])
  {
    var n := |rows| - 1;
    OlderPrefix(rows, n, i);
    if i < n {
      PendingAt(rows[..n], i);
    } else {
      OlderIsCount(rows[..n]);
      assert rows[..n][..n] == rows[..n];
    }
  }

  lemma {:induction false} OlderPrefix(rows: seq<Row>, n: nat, i: nat)
    requires i <= n <= |rows|
    ensures Older(rows[..n], i) == Older(rows, i)
  {
    if i > 0 { OlderPrefix(rows, n, i - 1); }
  }

  lemma {:induction false} OlderIsCount(rows: seq<Row>)
    ensures Older(rows, |rows|) == |Pending(rows)|
  {
    if rows != [] {
      var n := |rows| - 1;
      OlderIsCount(rows[..n]);
      OlderPrefix(rows, n, n);
    }
  }

  /** Row i is the k-th record of a pass, or none of them. */
  predicate IsRecord(recs: seq<Record>, k: nat, row: Row) {
    if k < |recs| then recs[k] == RecordOf(row) else forall j :: 0 <= j < |recs| ==> recs[j].id != row.id
  }

  /** A fetch takes the oldest pending rows, as many as the limit allows. */
  lemma FetchIsOldest(rows: seq<Row>, limit: int, i: nat)
    requires Numbered(rows) && i < |rows|
    ensures var recs := Take(Pending(rows), limit);
      if !rows[i].published && Older(rows, i) < limit then
        Older(rows, i) < |recs| && IsRecord(recs, Older(rows, i), rows[i])
      else IsRecord(recs, |recs|, rows[i])
  {
    hide RowId, Pending, Older;
    var all, recs := Pending(rows), Take(Pending(rows), limit);
    PendingIdsDiffer(rows);
    if !rows[i].published { PendingAt(rows, i); }
    if rows[i].published || Older(rows, i) >= limit {
      forall j | 0 <= j < |recs| ensures recs[j].id != rows[i].id {
        PendingAre(rows, j);
        var m :| 0 <= m < |rows| && !rows[m].published && RecordOf(rows[m]) == all[j];
        if rows[m].id == rows[i].id { NumberedDiffer(rows, m, i); }
      }
    }
  }

  lemma {:induction false} RefusedAt(rows: seq<Row>, recs: seq<Record>, n: nat, answers: Answers, base: nat, i: nat,
      k: nat)
    requires n <= |recs| && i < |rows| && IsRecord(recs, k, rows[i])
    requires forall a, b :: 0 <= a < b < |recs| ==> recs[a].id != recs[b].id
    ensures RefusedRows(rows, recs, n, answers, base)[i] ==
      if k < n && answers(base + k).Some? then
        rows[i].(attempts := rows[i].attempts + 1, lastError := answers(base + k).value)
      else rows[i]
  {
    if n > 0 {
      RefusedAt(rows, recs, n - 1, answers, base, i, k);
      assert k != n - 1 ==> recs[n - 1].id != rows[i].id;
    }
  }

  /** What a pass makes of each row: an accepted one is published, a refused one counts the failure and keeps the
      reason, and what was not fetched stays as it is. */
  lemma PassMakes(rows: seq<Row>, limit: int, answers: Answers, base: nat, i: nat)
    requires Numbered(rows) && i < |rows|
    ensures var v := PassedRows(rows, Take(Pending(rows), limit), answers, base); var k := Older(rows, i);
      v[i] ==
        if rows[i].published || k >= limit then rows[i]
        else match answers(base + k)
          case None => rows[i].(published := true)
          case Some(reason) => rows[i].(attempts := rows[i].attempts + 1, lastError := reason)
  {
    hide RowId, Pending, Older, Take, RefusedRows, AcceptedIds, Numbered;
    var recs := Take(Pending(rows), limit);
    var k := if rows[i].published || Older(rows, i) >= limit then |recs| else Older(rows, i);
    FetchIsOldest(rows, limit, i);
    RecordsDiffer(rows, limit);
    RefusedAt(rows, recs, |recs|, answers, base, i, k);
    AcceptedIdsAre(recs, |recs|, answers, base, rows[i].id);
    if k < |recs| && answers(base + k).None? { assert recs[k].id == rows[i].id; }
  }

  lemma RecordsDiffer(rows: seq<Row>, limit: int)
    requires Numbered(rows)
    ensures var recs := Take(Pending(rows), limit); forall a, b :: 0 <= a < b < |recs| ==> recs[a].id != recs[b].id
  {
    PendingIdsDiffer(rows);
  }

  lemma {:induction false} PassIsEvident(rows: seq<Row>, calls: seq<Publish>, limit: int, answers: Answers, base: nat)
    requires Numbered(rows) && Evident(rows, calls) && base == |calls|
    ensures var recs := Take(Pending(rows), limit);
      && Evident(PassedRows(rows, recs, answers, base), calls + Publishes(recs, |recs|, answers, base))
      && Grown(rows, PassedRows(rows, recs, answers, base))
  {
    var recs := Take(Pending(rows), limit);
    var v := PassedRows(rows, recs, answers, base);
    var own :| IsEvidence(rows, calls, own);
    PassGrows(rows, recs, answers, base);
    forall i: nat | i < |rows| && !rows[i].published && v[i].published
      ensures WasAccepted(rows[i], recs, answers, base)
    {
      NewlyPublished(rows, limit, answers, base, i);
    }
    ExtendedIsEvidence(rows, calls, v, recs, own, answers);
    assert IsEvidence(v, calls + Publishes(recs, |recs|, answers, base), Extended(rows, v, recs, own, base));
  }

  lemma {:induction false} ExtendedIsEvidence(rows: seq<Row>, calls: seq<Publish>, v: seq<Row>, recs: seq<Record>,
      own: map<nat, nat>, answers: Answers)
    requires Numbered(rows) && |v| == |rows| && Grown(rows, v) && IsEvidence(rows, calls, own)
    requires forall i: nat :: i < |rows| && !rows[i].published && v[i].published ==>
      WasAccepted(rows[i], recs, answers, |calls|)
    ensures IsEvidence(v, calls + Publishes(recs, |recs|, answers, |calls|), Extended(rows, v, recs, own, |calls|))
  {
    hide RowId, RecordIndex, Numbered, IsEvidence, Publishes, WasAccepted;
    var wider := Extended(rows, v, recs, own, |calls|);
    var all := calls + Publishes(recs, |recs|, answers, |calls|);
    forall i: nat | i in wider ensures wider[i] < |all| && all[wider[i]] == Publish(v[i].queue, v[i].body, true) {
      ExtendedCall(rows, calls, v, recs, own, answers, i);
    }
    forall i: nat, j: nat | i in wider && j in wider && i != j ensures wider[i] != wider[j] {
      ExtendedDiffer(rows, calls, v, recs, own, answers, i, j);
    }
    MakesEvidence(v, all, wider);
  }

  lemma MakesEvidence(rows: seq<Row>, calls: seq<Publish>, own: map<nat, nat>)
    requires forall i: nat :: i in own <==> i < |rows| && rows[i].published
    requires forall i: nat :: i in own ==>
      own[i] < |calls| && calls[own[i]] == Publish(rows[i].queue, rows[i].body, true)
    requires forall i: nat, j: nat :: i in own && j in own && i != j ==> own[i] != own[j]
    ensures IsEvidence(rows, calls, own)
  {
  }

  /** The call of a row: its own before, or else the publish of its record. */
  lemma {:induction false} ExtendedCall(rows: seq<Row>, calls: seq<Publish>, v: seq<Row>, recs: seq<Record>,
      own: map<nat, nat>, answers: Answers, i: nat)
    requires |v| == |rows| && Grown(rows, v) && IsEvidence(rows, calls, own) && i < |v| && v[i].published
    requires !rows[i].published ==> WasAccepted(rows[i], recs, answers, |calls|)
    ensures var all := calls + Publishes(recs, |recs|, answers, |calls|);
      var at := Extended(rows, v, recs, own, |calls|)[i];
      at < |all| && all[at] == Publish(v[i].queue, v[i].body, true)
  {
    hide RecordIndex;
    if i !in own {
      assert WasAccepted(rows[i], recs, answers, |calls|);
    }
  }

  lemma {:induction false} ExtendedDiffer(rows: seq<Row>, calls: seq<Publish>, v: seq<Row>, recs: seq<Record>,
      own: map<nat, nat>, answers: Answers, i: nat, j: nat)
    requires Numbered(rows) && |v| == |rows| && IsEvidence(rows, calls, own)
    requires i < |v| && v[i].published && j < |v| && v[j].published && i != j
    requires forall k: nat :: k < |rows| && !rows[k].published && v[k].published ==>
      WasAccepted(rows[k], recs, answers, |calls|)
    ensures var wider := Extended(rows, v, recs, own, |calls|); wider[i] != wider[j]
  {
    hide RecordIndex, Numbered;
    if i !in own && j !in own && RecordIndex(recs, rows[i].id) == RecordIndex(recs, rows[j].id) {
      assert WasAccepted(rows[i], recs, answers, |calls|) && WasAccepted(rows[j], recs, answers, |calls|);
      NumberedDiffer(rows, i, j);
    }
  }

  /** Both ways a pass can end keep the evidence and the rows; only a finished one takes rows off. */
  lemma PassIsSafe(rows: seq<Row>, calls: seq<Publish>, limit: int, answers: Answers, stop: nat)
    requires Numbered(rows)
    ensures var recs := Take(Pending(rows), limit); var base := |calls|;
      && Grown(rows, PassedRows(rows, recs, answers, base))
      && |Pending(PassedRows(rows, recs, answers, base))| ==
        |Pending(rows)| - |AcceptedIds(recs, |recs|, answers, base)|
      && (Evident(rows, calls) ==>
        Evident(PassedRows(rows, recs, answers, base), calls + Publishes(recs, |recs|, answers, base)))
      && (stop < |recs| ==>
          && Grown(rows, RefusedRows(rows, recs, stop, answers, base))
          && |Pending(RefusedRows(rows, recs, stop, answers, base))| == |Pending(rows)|
          && (Evident(rows, calls) ==>
            Evident(RefusedRows(rows, recs, stop, answers, base), calls + Publishes(recs, stop, answers, base))))
  {
    hide RowId, Pending, RefusedRows, AcceptedIds, Publishes, Take;
    var recs := Take(Pending(rows), limit);
    PassTakesOff(rows, limit, answers, |calls|);
    PassGrows(rows, recs, answers, |calls|);
    if Evident(rows, calls) {
      PassIsEvident(rows, calls, limit, answers, |calls|);
    }
    hide PassedRows;
    if stop < |recs| {
      var v := RefusedRows(rows, recs, stop, answers, |calls|);
      RefusingOnlyCounts(rows, recs, stop, answers, |calls|);
      SameMarksSamePending(rows, v);
      if Evident(rows, calls) {
        MoreCallsMoreEvidence(rows, v, calls, Publishes(recs, stop, answers, |calls|));
      }
    }
  }

  lemma PassGrows(rows: seq<Row>, recs: seq<Record>, answers: Answers, base: nat)
    ensures Grown(rows, PassedRows(rows, recs, answers, base))
  {
    hide RefusedRows, AcceptedIds;
    RefusingOnlyCounts(rows, recs, |recs|, answers, base);
  }

  lemma MoreCallsMoreEvidence(rows: seq<Row>, v: seq<Row>, calls: seq<Publish>, more: seq<Publish>)
    requires Evident(rows, calls) && Grown(rows, v) && |v| == |rows|
    requires forall i :: 0 <= i < |rows| ==> v[i].published == rows[i].published
    ensures Evident(v, calls + more)
  {
    var own :| IsEvidence(rows, calls, own);
    assert IsEvidence(v, calls + more, own);
  }

  /** A row that is not published needs no evidence. */
  lemma PendingNeedsNoEvidence(rows: seq<Row>, calls: seq<Publish>, row: Row)
    requires Evident(rows, calls) && !row.published
    ensures Evident(rows + [row], calls)
  {
    var own :| IsEvidence(rows, calls, own);
    assert IsEvidence(rows + [row], calls, own);
  }

  /** queueOf. */
  function QueueOf(metaQueue: string): string { if metaQueue != "" then metaQueue else "default" }

  /** Outbox.Write of an envelope with this encoding, or of one that does not encode. */
  method Write(store: InMemoryStore, encoded: Option<string>, metaQueue: string, ghost calls: seq<Publish>)
      returns (id: Option<string>)
    requires store.Valid()
    modifies store
    ensures store.Valid() && (id == None <==> encoded == None)
    ensures store.rows == old(store.rows) +
      match encoded case None => [] case Some(body) => [Row(id.value, body, QueueOf(metaQueue), 0, false, "")]
    ensures Evident(old(store.rows), calls) ==> Evident(store.rows, calls)
    ensures Grown(old(store.rows), store.rows)
    ensures |Pending(store.rows)| == |Pending(old(store.rows))| + if encoded.Some? then 1 else 0
  {
    hide RowId, Numbered, Evident;
    if encoded == None {
      return None;
    }
    ghost var rows := store.rows;
    var saved := store.Save(encoded.value, QueueOf(metaQueue));
    assert store.rows[..|rows|] == rows;
    if Evident(rows, calls) {
      PendingNeedsNoEvidence(rows, calls, store.rows[|rows|]);
    }
    return Some(saved);
  }

  class Transport {
    const answers: Answers
    var calls: seq<Publish>

    method Send(queue: string, body: string) returns (refusal: Option<string>)
      modifies this
      ensures refusal == answers(|old(calls)|) && calls == old(calls) + [Publish(queue, body, refusal.None?)]
    {
      refusal := answers(|calls|);
      calls := calls + [Publish(queue, body, refusal.None?)];
    }
  }

  datatype Result = Result(published: nat, failed: nat)

  class Relay {
    const transport: Transport
    const store: InMemoryStore
    const batchSize: int

    /** A batch size that is not positive selects the default. */
    constructor (transport: Transport, store: InMemoryStore, batchSize: int)
      ensures this.transport == transport && this.store == store
        && this.batchSize == if batchSize <= 0 then 100 else batchSize
    {
      this.transport, this.store := transport, store;
      this.batchSize := if batchSize <= 0 then 100 else batchSize;
    }

    /** One record: published, or refused and marked so. */
    method PublishOne(r: Record) returns (ok: bool)
      requires store.Valid()
      modifies transport, store
      ensures store.Valid()
      ensures var answer := transport.answers(|old(transport.calls)|);
        && ok == answer.None? && transport.calls == old(transport.calls) + [Publish(r.queue, r.body, ok)]
        && store.rows == (match answer case None => old(store.rows)
                                       case Some(reason) => MarkedFailed(old(store.rows), r.id, reason))
    {
      hide *;
      var refusal := transport.Send(r.queue, r.body);
      if refusal.Some? {
        store.MarkFailed(r.id, refusal.value);
      }
      return refusal == None;
    }

    /** The publishing loop of a pass; the process stops before record `stop`, if there is one. */
    method PublishAll(records: seq<Record>, stop: nat) returns (ids: seq<string>, failed: nat, stopped: bool)
      requires store.Valid()
      modifies transport, store
      ensures store.Valid() && (stopped <==> stop < |records|)
      ensures var base := |old(transport.calls)|; var n := if stopped then stop else |records|;
        && transport.calls == old(transport.calls) + Publishes(records, n, transport.answers, base)
        && store.rows == RefusedRows(old(store.rows), records, n, transport.answers, base)
        && ids == AcceptedIds(records, n, transport.answers, base) && failed == n - |ids|
    {
      ids, failed := [], 0;
      ghost var calls, rows := transport.calls, store.rows;
      PassStart(rows, records, transport.answers, |calls|);
      assert IsPassAt(rows, calls, records, transport.answers, 0, rows, calls, []);
      hide *;
      for k := 0 to |records|
        invariant store.Valid() && k <= stop && failed == k - |ids|
        invariant IsPassAt(rows, calls, records, transport.answers, k, store.rows, transport.calls, ids)
      {
        if k == stop {
          PassIsAt(rows, calls, records, transport.answers, k, store.rows, transport.calls, ids);
          return ids, failed, true;
        }
        PassAtNext(rows, calls, records, transport.answers, k, store.rows, transport.calls, ids);
        var ok := PublishOne(records[k]);
        if !ok {
          failed := failed + 1;
          continue;
        }
        ids := ids + [records[k].id];
      }
      PassIsAt(rows, calls, records, transport.answers, |records|, store.rows, transport.calls, ids);
      stopped := false;
    }

    /** One pass; a process that stops in the middle marks nothing published. */
    method Flush(stop: nat) returns (res: Result, stopped: bool)
      requires store.Valid()
      modifies transport, store
      ensures store.Valid()
      ensures var recs := Take(Pending(old(store.rows)), batchSize); var base := |old(transport.calls)|;
        var n := if stop < |recs| then stop else |recs|;
        && (stopped <==> stop < |recs|)
        && transport.calls == old(transport.calls) + Publishes(recs, n, transport.answers, base)
        && store.rows == (if stopped then RefusedRows(old(store.rows), recs, n, transport.answers, base)
                          else PassedRows(old(store.rows), recs, transport.answers, base))
        && (!stopped ==>
          res == Result(|AcceptedIds(recs, n, transport.answers, base)|,
            |recs| - |AcceptedIds(recs, n, transport.answers, base)|))
      ensures World(store.rows, transport.calls) ==
        Next(World(old(store.rows), old(transport.calls)), Passed(batchSize, stop), transport.answers)
      ensures Evident(old(store.rows), old(transport.calls)) ==> Evident(store.rows, transport.calls)
      ensures Grown(old(store.rows), store.rows)
      ensures |Pending(store.rows)| == |Pending(old(store.rows))| - if stopped then 0 else res.published
    {
      hide Pending, RowId, Numbered, Take, RefusedRows, AcceptedIds, Publishes, Evident, Grown;
      PassIsSafe(store.rows, transport.calls, batchSize, transport.answers, stop);
      var records := store.FetchUnpublished(batchSize);
      var ids, failed;
      ids, failed, stopped := PublishAll(records, stop);
      if stopped {
        return Result(0, 0), true;
      }
      if |ids| > 0 {
        store.MarkPublished(ids);
      } else {
        assert MarkedPublished(store.rows, ids) == store.rows;
      }
      return Result(|ids|, failed), false;
    }

    /** Passes until one publishes nothing, at most maxPasses of them. */
    method Drain(maxPasses: int) returns (total: Result, passes: nat, ghost last: seq<Publish>)
      requires store.Valid() && Evident(store.rows, transport.calls) && batchSize > 0
      modifies transport, store
      ensures store.Valid() && Evident(store.rows, transport.calls) && Grown(old(store.rows), store.rows)
      ensures |store.rows| == |old(store.rows)|
      ensures total.published == |Pending(old(store.rows))| - |Pending(store.rows)|
      ensures passes <= Ceiling(maxPasses) && passes <= |Pending(old(store.rows))| + 1
      ensures passes < Ceiling(maxPasses) ==>
        RefusedOldest(store.rows, batchSize, last) && EndsWith(transport.calls, last)
      ensures World(store.rows, transport.calls) == Run(World(old(store.rows), old(transport.calls)),
        Passes(batchSize, |old(store.rows)|, passes), transport.answers)
    {
      hide Pending, RowId, Numbered, Take, RefusedRows, AcceptedIds, PassedRows, Evident, Run, Next, Passes;
      ghost var first := World(store.rows, transport.calls);
      NoPasses(first, batchSize, |store.rows|, transport.answers);
      total, passes, last := Result(0, 0), 0, [];
      ghost var start := store.rows;
      GrownFrom(start);
      var ceiling := Ceiling(maxPasses);
      while passes < ceiling
        invariant passes <= ceiling && store.Valid() && Evident(store.rows, transport.calls)
        invariant Grown(start, store.rows) && |store.rows| == |start|
        invariant total.published == |Pending(start)| - |Pending(store.rows)|
        invariant passes <= total.published
        invariant World(store.rows, transport.calls) ==
          Run(first, Passes(batchSize, |start|, passes), transport.answers)
        decreases ceiling - passes
      {
        ghost var rows, calls := store.rows, transport.calls;
        ghost var recs := Take(Pending(rows), batchSize);
        PassTakesOff(rows, batchSize, transport.answers, |calls|);
        PassIsEvident(rows, calls, batchSize, transport.answers, |calls|);
        OnePassMore(first, batchSize, |start|, passes, transport.answers);
        var res, stopped := Flush(NeverStops(store.rows));
        NeverStopsIs(rows, batchSize);
        last := Publishes(recs, |recs|, transport.answers, |calls|);
        GrownTwice(start, rows, store.rows);
        total := Result(total.published + res.published, total.failed + res.failed);
        passes := passes + 1;
        if res.published == 0 {
          RefusedPass(rows, batchSize, transport.answers, |calls|);
          assert EndsWith(transport.calls, last);
          return;
        }
      }
    }
  }

  function Ceiling(maxPasses: int): nat { if maxPasses <= 0 then DRAIN_CEILING else maxPasses }

  /** A stop beyond every batch. */
  function NeverStops(rows: seq<Row>): nat { |rows| }

  lemma {:induction false} NoMorePendingThanRows(rows: seq<Row>)
    ensures |Pending(rows)| <= |rows|
  {
    if rows != [] { NoMorePendingThanRows(rows[..|rows| - 1]); }
  }

  lemma NeverStopsIs(rows: seq<Row>, limit: int)
    ensures |Take(Pending(rows), limit)| <= NeverStops(rows)
  {
    NoMorePendingThanRows(rows);
  }

  lemma GrownFrom(rows: seq<Row>)
    ensures Grown(rows, rows)
  {
  }

  predicate EndsWith(calls: seq<Publish>, last: seq<Publish>) { |last| <= |calls| && calls[|calls| - |last|..] == last }

  /** Every one of the oldest pending rows was refused. */
  predicate RefusedOldest(rows: seq<Row>, limit: int, calls: seq<Publish>) {
    var recs := Take(Pending(rows), limit);
    |calls| == |recs| && forall j :: 0 <= j < |recs| ==> calls[j] == Publish(recs[j].queue, recs[j].body, false)
  }

  /** Refused rows stay where they are among the pending ones. */
  lemma {:induction false} RefusedPending(rows: seq<Row>, v: seq<Row>)
    requires |v| == |rows| && Grown(rows, v) && forall i :: 0 <= i < |rows| ==> v[i].published == rows[i].published
    ensures |Pending(v)| == |Pending(rows)|
    ensures forall j :: 0 <= j < |Pending(rows)| ==>
      Pending(v)[j].queue == Pending(rows)[j].queue && Pending(v)[j].body == Pending(rows)[j].body
  {
    if rows != [] {
      RefusedPending(rows[..|rows| - 1], v[..|v| - 1]);
    }
  }

  lemma {:induction false} NoneAccepted(recs: seq<Record>, n: nat, answers: Answers, base: nat, j: nat)
    requires n <= |recs| && j < n && AcceptedIds(recs, n, answers, base) == []
    ensures answers(base + j).Some?
  {
    if j < n - 1 { NoneAccepted(recs, n - 1, answers, base, j); }
  }

  /** A pass that published nothing was refused on every record of it, and they are the oldest still. */
  lemma RefusedPass(rows: seq<Row>, limit: int, answers: Answers, base: nat)
    requires var recs := Take(Pending(rows), limit); AcceptedIds(recs, |recs|, answers, base) == []
    ensures var recs := Take(Pending(rows), limit);
      RefusedOldest(PassedRows(rows, recs, answers, base), limit, Publishes(recs, |recs|, answers, base))
  {
    hide Pending, RefusedRows, AcceptedIds;
    var recs := Take(Pending(rows), limit);
    var v := RefusedRows(rows, recs, |recs|, answers, base);
    RefusingOnlyCounts(rows, recs, |recs|, answers, base);
    RefusedPending(rows, v);
    assert MarkedPublished(v, []) == v;
    var calls := Publishes(recs, |recs|, answers, base);
    forall j | 0 <= j < |recs| ensures !calls[j].ok { NoneAccepted(recs, |recs|, answers, base, j); }
  }

  // ---------- Runs ----------

  /** A producer writes, or the relay makes a pass, which the process may stop in the middle of. A drain is a
      sequence of passes. */
  datatype Step = Wrote(encoded: Option<string>, metaQueue: string) | Passed(limit: int, stop: nat)

  /** The rows of the store, and every call the transport got. */
  datatype World = World(rows: seq<Row>, calls: seq<Publish>)

  function Next(w: World, s: Step, answers: Answers): World {
    match s
    case Wrote(None, _) => w
    case Wrote(Some(body), metaQueue) =>
      w.(rows := w.rows + [Row(RowId(|w.rows| + 1), body, QueueOf(metaQueue), 0, false, "")])
    case Passed(limit, stop) =>
      var recs := Take(Pending(w.rows), limit);
      if stop < |recs| then
        World(RefusedRows(w.rows, recs, stop, answers, |w.calls|), w.calls + Publishes(recs, stop, answers, |w.calls|))
      else
        World(PassedRows(w.rows, recs, answers, |w.calls|), w.calls + Publishes(recs, |recs|, answers, |w.calls|))
  }

  function Run(w: World, steps: seq<Step>, answers: Answers): World
    decreases |steps|
  {
    if steps == [] then w else Run(Next(w, steps[0], answers), steps[1..], answers)
  }

  function Passes(limit: int, stop: nat, n: nat): seq<Step> { seq(n, _ => Passed(limit, stop)) }

  lemma NoPasses(w: World, limit: int, stop: nat, answers: Answers)
    ensures Run(w, Passes(limit, stop, 0), answers) == w
  {
  }

  lemma OnePassMore(w: World, limit: int, stop: nat, n: nat, answers: Answers)
    ensures Run(w, Passes(limit, stop, n + 1), answers) ==
      Next(Run(w, Passes(limit, stop, n), answers), Passed(limit, stop), answers)
  {
    RunSnoc(w, Passes(limit, stop, n), Passed(limit, stop), answers);
    assert Passes(limit, stop, n + 1) == Passes(limit, stop, n) + [Passed(limit, stop)];
  }

  lemma {:induction false} RunSnoc(w: World, steps: seq<Step>, s: Step, answers: Answers)
    ensures Run(w, steps + [s], answers) == Next(Run(w, steps, answers), s, answers)
    decreases |steps|
  {
    hide Next;
    if steps == [] {
      assert [] + [s] == [s] && [s][1..] == [];
    } else {
      assert (steps + [s])[1..] == steps[1..] + [s];
      RunSnoc(Next(w, steps[0], answers), steps[1..], s, answers);
    }
  }

  ghost predicate IsSound(w: World) { Numbered(w.rows) && Evident(w.rows, w.calls) }

  lemma {:induction false} StepKeeps(w: World, s: Step, answers: Answers)
    requires IsSound(w)
    ensures var v := Next(w, s, answers); IsSound(v) && Grown(w.rows, v.rows) && w.calls <= v.calls
  {
    hide RowId, Pending, Take, RefusedRows, PassedRows, Evident, Publishes, AcceptedIds;
    match s
    case Wrote(None, _) => GrownFrom(w.rows);
    case Wrote(Some(body), metaQueue) =>
      PendingNeedsNoEvidence(w.rows, w.calls, Row(RowId(|w.rows| + 1), body, QueueOf(metaQueue), 0, false, ""));
    case Passed(limit, stop) =>
      PassIsSafe(w.rows, w.calls, limit, answers, stop);
      RowsStayNumbered(w.rows, Next(w, s, answers).rows);
  }

  lemma RowsStayNumbered(rows: seq<Row>, v: seq<Row>)
    requires Numbered(rows) && Grown(rows, v) && |v| == |rows|
    ensures Numbered(v)
  {
    hide RowId;
  }

  /** Over every run: each published row has an accepted publish of its own, no row disappears or changes its
      content, and no call is taken back. */
  lemma {:induction false} RunKeeps(w: World, steps: seq<Step>, answers: Answers)
    requires IsSound(w)
    ensures var v := Run(w, steps, answers); IsSound(v) && Grown(w.rows, v.rows) && w.calls <= v.calls
    decreases |steps|
  {
    hide Next, IsSound, Grown;
    if steps == [] {
      GrownFrom(w.rows);
    } else {
      var next := Next(w, steps[0], answers);
      StepKeeps(w, steps[0], answers);
      RunKeeps(next, steps[1..], answers);
      GrownTwice(w.rows, next.rows, Run(next, steps[1..], answers).rows);
    }
  }

  /** A row that is published stays so, and no later pass of any size fetches it. */
  lemma PublishedIsNeverFetchedAgain(w: World, steps: seq<Step>, answers: Answers, i: nat, limit: int)
    requires IsSound(w) && i < |w.rows| && w.rows[i].published
    ensures var v := Run(w, steps, answers);
      && i < |v.rows| && v.rows[i].published
      && forall j :: 0 <= j < |Take(Pending(v.rows), limit)| ==> Take(Pending(v.rows), limit)[j].id != w.rows[i].id
  {
    RunKeeps(w, steps, answers);
    var v := Run(w, steps, answers);
    hide Run, RowId, Pending, Evident, Take;
    var recs := Take(Pending(v.rows), limit);
    forall j | 0 <= j < |recs| ensures recs[j].id != w.rows[i].id {
      OldestAre(v.rows, limit, j);
      var k :| 0 <= k < |v.rows| && !v.rows[k].published && RecordOf(v.rows[k]) == recs[j];
      if v.rows[k].id == v.rows[i].id {
        NumberedDiffer(v.rows, k, i);
      }
    }
  }

  /** A row that was written is pending with its content, or published with a publish of its own. */
  lemma WrittenIsPendingOrPublished(w: World, steps: seq<Step>, answers: Answers, i: nat)
    requires IsSound(w) && i < |w.rows|
    ensures var v := Run(w, steps, answers);
      && i < |v.rows| && v.rows[i].queue == w.rows[i].queue && v.rows[i].body == w.rows[i].body
      && (v.rows[i].published || RecordOf(v.rows[i]) in Pending(v.rows))
      && (v.rows[i].published ==> exists own :: IsEvidence(v.rows, v.calls, own) && i in own)
  {
    RunKeeps(w, steps, answers);
    var v := Run(w, steps, answers);
    hide Run, RowId, Pending, Grown, Numbered;
    GrownAt(w.rows, v.rows, i);
    if v.rows[i].published {
      var own :| IsEvidence(v.rows, v.calls, own);
      assert i in own;
    } else {
      EveryPendingIsThere(v.rows, i);
    }
  }

  lemma GrownAt(rows: seq<Row>, v: seq<Row>, i: nat)
    requires Grown(rows, v) && i < |rows|
    ensures i < |v| && v[i].queue == rows[i].queue && v[i].body == rows[i].body
  {
  }

  // ---------- Back-off ----------

  const MAX_DURATION: int := 0x7FFF_FFFF_FFFF_FFFF

  /** A product on a 64-bit int. */
  function Wrapped(n: int): (r: int)
    ensures -MAX_DURATION - 1 <= r <= MAX_DURATION
    ensures -MAX_DURATION - 1 <= n <= MAX_DURATION ==> r == n
  {
    (n + MAX_DURATION + 1) % (2 * (MAX_DURATION + 1)) - MAX_DURATION - 1
  }

  /** backoffFor; the count wraps as well, and is then taken for 1. */
  function BackoffFor(step: int, cap: int, priorAttempts: int): int {
    var steps := if Wrapped(priorAttempts + 1) < 1 then 1 else Wrapped(priorAttempts + 1);
    var delay := Wrapped(step * steps);
    if delay > cap then cap else delay
  }

  /** A step for each attempt, capped. */
  function Promised(step: int, cap: int, priorAttempts: int): int { Min(cap, step * (priorAttempts + 1)) }

  predicate IsBackoff(step: int, cap: int, prior: int) {
    0 < step <= MAX_DURATION && 0 < cap <= MAX_DURATION && 0 <= prior < MAX_DURATION
  }

  lemma StepsGrow(step: int, prior: int)
    requires step > 0 && prior >= 0
    ensures 0 < step * (prior + 1) < step * (prior + 2)
  {
  }

  /** The promise is met exactly when the product fits, or wraps to something at or above the cap. */
  lemma BackoffMeetsPromiseExactlyWhen(step: int, cap: int, prior: int)
    requires IsBackoff(step, cap, prior)
    ensures BackoffFor(step, cap, prior) == Promised(step, cap, prior) <==>
      step * (prior + 1) <= MAX_DURATION || Wrapped(step * (prior + 1)) >= cap
  {
    StepsGrow(step, prior);
    var product := step * (prior + 1);
    assert Wrapped(prior + 1) == prior + 1;
    hide Wrapped;
  }

  /** While the product fits, the pause is positive, at most the cap, and never decreasing. */
  lemma BackoffGrows(step: int, cap: int, prior: int)
    requires IsBackoff(step, cap, prior) && step * (prior + 1) <= MAX_DURATION
    ensures 0 < BackoffFor(step, cap, prior) <= cap
    ensures step * (prior + 2) <= MAX_DURATION && prior + 1 < MAX_DURATION ==>
      BackoffFor(step, cap, prior) <= BackoffFor(step, cap, prior + 1)
  {
    StepsGrow(step, prior);
    BackoffMeetsPromiseExactlyWhen(step, cap, prior);
    if step * (prior + 2) <= MAX_DURATION && prior + 1 < MAX_DURATION {
      BackoffMeetsPromiseExactlyWhen(step, cap, prior + 1);
    }
    hide BackoffFor;
  }

  /** Two steps of 2 to the 62nd wrap to a negative pause. */
  lemma BackoffWraps(cap: int)
    requires 0 < cap <= MAX_DURATION
    ensures BackoffFor(0x4000_0000_0000_0000, cap, 1) == -MAX_DURATION - 1
  {
  }
}
