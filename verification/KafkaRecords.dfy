/**
  The records of kafka/kafka.go, kafka/retry.go and kafka/reinject.go: what a retry writes to its retry
  topic, what the re-injector writes back, and that this is the immediate re-publish.
 */
module KafkaRecords {
  import opened Decimal
  import opened JsonGrammar
  import opened Wrappers
  import opened Arithmetic

  datatype Header = Header(key: string, value: string)

  /** No time means the broker's own. */
  datatype Record = Record(topic: string, key: Option<string>, value: string, headers: seq<Header>, time: Option<int>)

  /** The envelope fields a record carries as headers. */
  datatype Fields = Fields(job: string, traceId: string, id: string, schemaVersion: int, lang: string, attempts: int,
      createdAt: int)

  /** An envelope is its projected fields and everything else. */
  datatype Envelope = Envelope(fields: Fields, rest: string)

  datatype Codec = Codec(decode: string -> Option<Envelope>, encode: Envelope -> Option<string>)

  /** A reserved record as Pop hands it over. */
  datatype Received = Received(queue: string, body: string, record: Record)

  const DELAY := "bq-delay"
  const ORIGINAL_TOPIC := "bq-original-topic"
  const TRACEPARENT := "traceparent"
  const TRACESTATE := "tracestate"
  const RETRY := ".retry."

  // ---------- The projection ----------

  function Field(key: string, value: string): seq<Header> { if value != "" then [Header(key, value)] else [] }

  function Projection(f: Fields): seq<Header> {
    Field("bq-job", f.job) + Field("bq-trace-id", f.traceId) + Field("bq-message-id", f.id)
    + (if f.schemaVersion != 0 then Field("bq-schema-version", Itoa(f.schemaVersion)) else [])
    + Field("bq-source-lang", f.lang) + Field("bq-attempts", Itoa(f.attempts))
  }

  /** message: the body, projected; a body that does not decode goes without headers. */
  function Message(codec: Codec, topic: string, body: string): Record {
    match codec.decode(body)
    case None => Record(topic, None, body, [], None)
    case Some(e) =>
      Record(topic, None, body, Projection(e.fields), if e.fields.createdAt != 0 then Some(e.fields.createdAt)
        else None)
  }

  /** The value of the first header of this key. */
  function HeaderValue(hs: seq<Header>, key: string): Option<string> {
    if hs == [] then None else if hs[0].key == key then Some(hs[0].value) else HeaderValue(hs[1..], key)
  }

  function NonEmpty(s: string): Option<string> { if s != "" then Some(s) else None }

  lemma {:induction false} ValueOfConcat(a: seq<Header>, b: seq<Header>, key: string)
    ensures HeaderValue(a + b, key) ==
      if HeaderValue(a, key).Some? then HeaderValue(a, key) else HeaderValue(b, key)
  {
    if a == [] {
      assert a + b == b;
    } else {
      assert (a + b)[1..] == a[1..] + b;
      ValueOfConcat(a[1..], b, key);
    }
  }

  lemma ValueOfField(name: string, value: string, key: string)
    ensures HeaderValue(Field(name, value), key) == if key == name then NonEmpty(value) else None
  {
  }

  lemma ProjectedValue(f: Fields, key: string)
    ensures HeaderValue(Projection(f), key) ==
      if key == "bq-job" then NonEmpty(f.job)
      else if key == "bq-trace-id" then NonEmpty(f.traceId)
      else if key == "bq-message-id" then NonEmpty(f.id)
      else if key == "bq-schema-version" then (if f.schemaVersion != 0 then NonEmpty(Itoa(f.schemaVersion)) else None)
      else if key == "bq-source-lang" then NonEmpty(f.lang)
      else if key == "bq-attempts" then NonEmpty(Itoa(f.attempts)) else None
  {
    hide HeaderValue, Field, NonEmpty, Itoa;
    var version := if f.schemaVersion != 0 then Field("bq-schema-version", Itoa(f.schemaVersion)) else [];
    var a := Field("bq-job", f.job);
    var b := a + Field("bq-trace-id", f.traceId);
    var c := b + Field("bq-message-id", f.id);
    var d := c + version;
    var e := d + Field("bq-source-lang", f.lang);
    ValueOfConcat(a, Field("bq-trace-id", f.traceId), key);
    ValueOfConcat(b, Field("bq-message-id", f.id), key);
    ValueOfConcat(c, version, key);
    ValueOfConcat(d, Field("bq-source-lang", f.lang), key);
    ValueOfConcat(e, Field("bq-attempts", Itoa(f.attempts)), key);
    ValueOfField("bq-job", f.job, key);
    ValueOfField("bq-trace-id", f.traceId, key);
    ValueOfField("bq-message-id", f.id, key);
    ValueOfField("bq-schema-version", Itoa(f.schemaVersion), key);
    ValueOfField("bq-source-lang", f.lang, key);
    ValueOfField("bq-attempts", Itoa(f.attempts), key);
    NoValue(key);
    NamesDiffer();
  }

  lemma NoValue(key: string)
    ensures HeaderValue([], key) == None
  {
  }

  lemma NamesDiffer()
    ensures "bq-job" != "bq-trace-id" && "bq-job" != "bq-message-id" && "bq-job" != "bq-schema-version"
      && "bq-job" != "bq-source-lang" && "bq-job" != "bq-attempts" && "bq-trace-id" != "bq-message-id"
      && "bq-trace-id" != "bq-schema-version" && "bq-trace-id" != "bq-source-lang" && "bq-trace-id" != "bq-attempts"
      && "bq-message-id" != "bq-schema-version" && "bq-message-id" != "bq-source-lang"
      && "bq-message-id" != "bq-attempts" && "bq-schema-version" != "bq-source-lang"
      && "bq-schema-version" != "bq-attempts" && "bq-source-lang" != "bq-attempts"
  {
    assert "bq-trace-id"[3] == 't' && "bq-attempts"[3] == 'a';
    assert |"bq-job"| == 6 && |"bq-trace-id"| == 11 && |"bq-message-id"| == 13 && |"bq-schema-version"| == 17
      && |"bq-source-lang"| == 14 && |"bq-attempts"| == 11;
  }

  /** Each header of a message holds its own field of the envelope: the job, the trace and message ids, the schema
      version unless it is 0, the language and the attempts; and there is no other. An empty field has no header. */
  lemma HeadersAreFields(codec: Codec, topic: string, body: string)
    requires codec.decode(body).Some?
    ensures var m := Message(codec, topic, body); var f := codec.decode(body).value.fields;
      && m.topic == topic && m.value == body && m.key == None
      && m.time == (if f.createdAt != 0 then Some(f.createdAt) else None)
      && HeaderValue(m.headers, "bq-job") == NonEmpty(f.job)
      && HeaderValue(m.headers, "bq-trace-id") == NonEmpty(f.traceId)
      && HeaderValue(m.headers, "bq-message-id") == NonEmpty(f.id)
      && HeaderValue(m.headers, "bq-schema-version") ==
        (if f.schemaVersion != 0 then Some(Itoa(f.schemaVersion)) else None)
      && HeaderValue(m.headers, "bq-source-lang") == NonEmpty(f.lang)
      && HeaderValue(m.headers, "bq-attempts") == Some(Itoa(f.attempts))
      && forall key :: HeaderValue(m.headers, key).Some? ==> IsProjected(key)
  {
    var f := codec.decode(body).value.fields;
    hide Projection, HeaderValue, Itoa, IsProjected;
    ProjectedValue(f, "bq-job");
    ProjectedValue(f, "bq-trace-id");
    ProjectedValue(f, "bq-message-id");
    ProjectedValue(f, "bq-schema-version");
    ProjectedValue(f, "bq-source-lang");
    ProjectedValue(f, "bq-attempts");
    NamesDiffer();
    ItoaIsNotEmpty(f.schemaVersion);
    ItoaIsNotEmpty(f.attempts);
    forall key | HeaderValue(Projection(f), key).Some? ensures IsProjected(key) { OnlyProjected(f, key); }
  }

  predicate IsProjected(key: string) {
    key in {"bq-job", "bq-trace-id", "bq-message-id", "bq-schema-version", "bq-source-lang", "bq-attempts"}
  }

  lemma OnlyProjected(f: Fields, key: string)
    requires HeaderValue(Projection(f), key).Some?
    ensures IsProjected(key)
  {
    ProjectedValue(f, key);
    hide Projection, HeaderValue, Itoa;
  }

  lemma ItoaIsNotEmpty(n: int)
    ensures Itoa(n) != ""
  {
  }

  predicate Carries(hs: seq<Header>, key: string) { exists i :: 0 <= i < |hs| && hs[i].key == key }

  predicate IsTrace(h: Header) { h.key == TRACEPARENT || h.key == TRACESTATE }

  /** hs with the trace headers among the first n of `from`, the first of a key only, unless hs has it. */
  function Forwarded(hs: seq<Header>, from: seq<Header>, n: nat): seq<Header>
    requires n <= |from|
  {
    if n == 0 then hs
    else
      var before := Forwarded(hs, from, n - 1);
      if IsTrace(from[n - 1]) && !Carries(before, from[n - 1].key) then before + [from[n - 1]] else before
  }

  method ForwardTraceHeaders(hs: seq<Header>, from: seq<Header>) returns (r: seq<Header>)
    ensures r == Forwarded(hs, from, |from|)
  {
    r := hs;
    for k := 0 to |from|
      invariant r == Forwarded(hs, from, k)
    {
      if from[k].key != TRACEPARENT && from[k].key != TRACESTATE {
        continue;
      }
      var dup := false;
      for j := 0 to |r|
        invariant dup == exists i :: 0 <= i < j && r[i].key == from[k].key
        invariant dup ==> Carries(r, from[k].key)
      {
        if r[j].key == from[k].key {
          dup := true;
          break;
        }
      }
      if !dup {
        r := r + [from[k]];
      }
    }
  }

  /** Forwarding adds the first value of each trace header that is not there yet, and nothing else. */
  lemma {:induction false} ForwardedIs(hs: seq<Header>, from: seq<Header>, n: nat, key: string)
    requires n <= |from|
    ensures HeaderValue(Forwarded(hs, from, n), key) ==
      if HeaderValue(hs, key).Some? then HeaderValue(hs, key)
      else if key == "traceparent" || key == "tracestate" then HeaderValue(from[..n], key) else None
    ensures hs <= Forwarded(hs, from, n)
  {
    if n > 0 {
      var h, before := from[n - 1], Forwarded(hs, from, n - 1);
      ForwardedIs(hs, from, n - 1, key);
      assert from[..n] == from[..n - 1] + [h];
      ValueOfConcat(from[..n - 1], [h], key);
      ValueOfConcat(before, [h], key);
      CarriesIs(before, h.key);
      ValueOfOne(h, key);
      hide HeaderValue, Carries;
    } else {
      NoValue(key);
      assert from[..0] == [];
    }
  }

  lemma ValueOfOne(h: Header, key: string)
    ensures HeaderValue([h], key) == if h.key == key then Some(h.value) else None
  {
    NoValue(key);
    assert [h][1..] == [];
  }

  lemma {:induction false} CarriesIs(hs: seq<Header>, key: string)
    ensures Carries(hs, key) <==> HeaderValue(hs, key).Some?
  {
    if hs != [] {
      CarriesIs(hs[1..], key);
      if Carries(hs[1..], key) {
        var i :| 0 <= i < |hs[1..]| && hs[1..][i].key == key;
        assert hs[i + 1].key == key;
      }
      if Carries(hs, key) && hs[0].key != key {
        var i :| 0 <= i < |hs| && hs[i].key == key;
        assert hs[1..][i - 1].key == key;
      }
      hide HeaderValue;
    }
  }

  // ---------- Retry topics ----------

  function RetryTopic(topic: string, n: nat): string { topic + RETRY + Digits(n) }

  /** s[i..] is `.retry.` and a number, to the end. */
  predicate IsRetrySuffixAt(s: string, i: nat)
    requires i <= |s|
  {
    i + |RETRY| < |s| && s[i..i + |RETRY|] == RETRY && AreDigits(s[i + |RETRY|..])
  }

  /** The suffix ends in the last dot of the name and digits. */
  lemma SuffixDot(s: string, i: nat)
    requires i <= |s| && IsRetrySuffixAt(s, i)
    ensures i + 6 < |s| && s[i + 6] == '.' && forall k :: i + 6 < k < |s| ==> s[k] != '.'
  {
    assert s[i + 6] == s[i..i + |RETRY|][6];
    forall k | i + 6 < k < |s| ensures s[k] != '.' {
      assert s[k] == s[i + |RETRY|..][k - i - |RETRY|];
    }
  }

  lemma SuffixIsUnique(s: string, i: nat, j: nat)
    requires i <= |s| && j <= |s| && IsRetrySuffixAt(s, i) && IsRetrySuffixAt(s, j)
    ensures i == j
  {
    SuffixDot(s, i);
    SuffixDot(s, j);
  }

  /** The topic without its `.retry.<n>` suffix. */
  method StripRetrySuffix(topic: string) returns (r: string)
    ensures (exists i: nat :: i <= |topic| && IsRetrySuffixAt(topic, i) && r == topic[..i])
      || (r == topic && forall i: nat :: i <= |topic| ==> !IsRetrySuffixAt(topic, i))
  {
    for i := 0 to |topic|
      invariant forall k: nat :: k < i ==> !IsRetrySuffixAt(topic, k)
    {
      if IsRetrySuffixAt(topic, i) {
        return topic[..i];
      }
    }
    return topic;
  }

  lemma RetryTopicHasSuffix(topic: string, n: nat)
    ensures IsRetrySuffixAt(RetryTopic(topic, n), |topic|)
  {
    var s := RetryTopic(topic, n);
    assert s[|topic|..|topic| + |RETRY|] == RETRY;
    assert s[|topic| + |RETRY|..] == Digits(n);
  }

  /** The position where IsRetrySuffixAt holds, if any. */
  ghost function Stripped(topic: string): (r: string)
    ensures r == topic || exists i: nat :: i <= |topic| && IsRetrySuffixAt(topic, i) && r == topic[..i]
  {
    if exists i: nat :: i <= |topic| && IsRetrySuffixAt(topic, i) then
      var i: nat :| i <= |topic| && IsRetrySuffixAt(topic, i);
      topic[..i]
    else topic
  }

  /** The fall-back target of a retry topic is its work topic, whatever that is called. */
  lemma StripUndoesRetryTopic(topic: string, n: nat)
    ensures Stripped(RetryTopic(topic, n)) == topic
  {
    var s := RetryTopic(topic, n);
    RetryTopicHasSuffix(topic, n);
    var i: nat :| i <= |s| && IsRetrySuffixAt(s, i) && Stripped(s) == s[..i];
    SuffixIsUnique(s, i, |topic|);
    assert s[..|topic|] == topic;
  }

  // ---------- Tiers ----------

  /** retryTopicFor: the tier, counted from 1, or None where the delay is unsupported. */
  method TierFor(tiers: seq<int>, delay: int) returns (n: Option<nat>)
    ensures n == None <==> forall k :: 0 <= k < |tiers| ==> tiers[k] < delay
    ensures n.Some? ==> 1 <= n.value <= |tiers| && tiers[n.value - 1] >= delay && forall k :: 0 <= k < n.value - 1 ==>
      tiers[k] < delay
  {
    for i := 0 to |tiers|
      invariant forall k :: 0 <= k < i ==> tiers[k] < delay
    {
      if tiers[i] >= delay {
        return Some(i + 1);
      }
    }
    return None;
  }

  predicate Sorted(tiers: seq<int>) { forall i, j :: 0 <= i < j < |tiers| ==> tiers[i] <= tiers[j] }

  /** retryTierForAttempt: the last tier is kept once they run out. */
  function TierForAttempt(tiers: seq<int>, attempts: int): Option<nat> {
    if |tiers| == 0 then None else Some(Min(if attempts < 0 then 0 else attempts, |tiers| - 1) + 1)
  }

  /** The tier of an attempt: the first for none so far, the next for each one more, the last once they run out. */
  lemma TierIs(tiers: seq<int>, attempts: int)
    ensures var n := TierForAttempt(tiers, attempts);
      && (n == None <==> tiers == [])
      && (attempts <= 0 && tiers != [] ==> n == Some(1))
      && (0 <= attempts < |tiers| ==> n == Some(attempts + 1))
      && (attempts >= |tiers| > 0 ==> n == Some(|tiers|))
  {
  }

  /** Of sorted tiers the attempts climb one tier at a time, never down and never past the last. */
  lemma TiersClimb(tiers: seq<int>, attempts: int)
    requires Sorted(tiers) && tiers != []
    ensures var n := TierForAttempt(tiers, attempts).value; var m := TierForAttempt(tiers, attempts + 1).value;
      1 <= n <= m <= |tiers| && m <= n + 1 && tiers[n - 1] <= tiers[m - 1] && (attempts >= |tiers| - 1 ==> n == |tiers|)
  {
  }

  // ---------- Writing to a retry topic, and back ----------

  function RetryHeaders(original: string, delay: int): seq<Header> {
    [Header(DELAY, Itoa(delay)), Header(ORIGINAL_TOPIC, original)]
  }

  /** PublishRetryForAttempt: the record written, or None when it reports an error. */
  function RetryRecord(codec: Codec, tiers: seq<int>, from: Received, attemptsBefore: int): Option<Record> {
    var a := if attemptsBefore < 0 then 0 else attemptsBefore;
    match TierForAttempt(tiers, attemptsBefore)
    case None => None
    case Some(n) =>
      match NextBody(codec, from.body, a + 1)
      case None => None
      case Some(next) =>
        var m := Message(codec, RetryTopic(from.queue, n), next);
        Some(Record(m.topic, from.record.key, m.value,
          Forwarded(m.headers + RetryHeaders(from.queue, tiers[n - 1]), from.record.headers,
            |from.record.headers|), None))
  }

  /** In the topic of tier n, under the two headers that name its delay and the topic to go back to. */
  predicate IsParked(r: Record, from: Received, n: nat, delay: int) {
    && r.topic == from.queue + ".retry." + Digits(n) && r.key == from.record.key && r.time == None
    && HeaderValue(r.headers, "bq-delay") == Some(Itoa(delay))
    && HeaderValue(r.headers, "bq-original-topic") == Some(from.queue)
  }

  /** A retry is refused without tiers and for a body that cannot be counted on. Otherwise it is the body of the next
      attempt, with the key of the record, parked in its tier. */
  lemma RetryIs(codec: Codec, tiers: seq<int>, from: Received, attemptsBefore: int)
    ensures var r := RetryRecord(codec, tiers, from, attemptsBefore);
      var a := if attemptsBefore < 0 then 0 else attemptsBefore;
      var n := if a < |tiers| then a + 1 else |tiers|;
      && (r == None <==> tiers == [] || NextBody(codec, from.body, a + 1) == None)
      && (r.Some? ==>
          && n > 0 && Some(r.value.value) == NextBody(codec, from.body, a + 1)
          && IsParked(r.value, from, n, tiers[n - 1]))
  {
    hide NextBody, HeaderValue, Message, RetryHeaders, Forwarded, Itoa, Digits;
    var a := if attemptsBefore < 0 then 0 else attemptsBefore;
    TierIs(tiers, attemptsBefore);
    var next := NextBody(codec, from.body, a + 1);
    if tiers != [] && next.Some? {
      var n := if a < |tiers| then a + 1 else |tiers|;
      var m := Message(codec, RetryTopic(from.queue, n), next.value);
      MessageHasNoPair(codec, RetryTopic(from.queue, n), next.value);
      PairValues(m.headers, from.queue, tiers[n - 1]);
      var hs := m.headers + RetryHeaders(from.queue, tiers[n - 1]);
      ForwardedValue(hs, from.record.headers, |from.record.headers|, DELAY);
      ForwardedValue(hs, from.record.headers, |from.record.headers|, ORIGINAL_TOPIC);
      MessageIsFor(codec, RetryTopic(from.queue, n), next.value);
    }
  }

  lemma MessageIsFor(codec: Codec, topic: string, body: string)
    ensures Message(codec, topic, body).topic == topic && Message(codec, topic, body).value == body
  {
  }

  lemma MessageHasNoPair(codec: Codec, topic: string, body: string)
    ensures var hs := Message(codec, topic, body).headers;
      HeaderValue(hs, DELAY) == None && HeaderValue(hs, ORIGINAL_TOPIC) == None
  {
    hide Projection, HeaderValue, Itoa;
    NoValue(DELAY);
    NoValue(ORIGINAL_TOPIC);
    if codec.decode(body).Some? {
      ProjectedValue(codec.decode(body).value.fields, DELAY);
      ProjectedValue(codec.decode(body).value.fields, ORIGINAL_TOPIC);
      assert |DELAY| == 8 && |ORIGINAL_TOPIC| == 17 && ORIGINAL_TOPIC[3] == 'o' && "bq-schema-version"[3] == 's';
      assert |"bq-job"| == 6 && |"bq-trace-id"| == 11 && |"bq-message-id"| == 13 && |"bq-source-lang"| == 14
        && |"bq-attempts"| == 11 && |"bq-schema-version"| == 17;
    }
  }

  lemma PairValues(hs: seq<Header>, original: string, delay: int)
    requires HeaderValue(hs, DELAY) == None && HeaderValue(hs, ORIGINAL_TOPIC) == None
    ensures HeaderValue(hs + RetryHeaders(original, delay), DELAY) == Some(Itoa(delay))
    ensures HeaderValue(hs + RetryHeaders(original, delay), ORIGINAL_TOPIC) == Some(original)
  {
    ValueOfConcat(hs, RetryHeaders(original, delay), DELAY);
    ValueOfConcat(hs, RetryHeaders(original, delay), ORIGINAL_TOPIC);
    assert |DELAY| == 8 && |ORIGINAL_TOPIC| == 17;
  }

  lemma {:induction false} ForwardedValue(hs: seq<Header>, from: seq<Header>, n: nat, key: string)
    requires n <= |from| && HeaderValue(hs, key).Some?
    ensures HeaderValue(Forwarded(hs, from, n), key) == HeaderValue(hs, key)
  {
    if n > 0 {
      ForwardedValue(hs, from, n - 1, key);
      ValueOfConcat(Forwarded(hs, from, n - 1), [from[n - 1]], key);
    }
  }

  /** The body of the next attempt. */
  function NextBody(codec: Codec, body: string, attempts: int): Option<string> {
    match codec.decode(body)
    case None => None
    case Some(e) => codec.encode(e.(fields := e.fields.(attempts := attempts)))
  }

  /** republishRecord without extra headers: the immediate re-publish of a body on behalf of a record. */
  function RepublishRecord(codec: Codec, queue: string, body: string, from: Record): Record {
    var m := Message(codec, queue, body);
    m.(key := from.key, headers :=
      if queue == from.topic then Forwarded(m.headers, from.headers, |from.headers|) else m.headers)
  }

  predicate IsRetryHeader(h: Header) { h.key == DELAY || h.key == ORIGINAL_TOPIC }

  /** The first n headers that are not the retry pair. */
  function Kept(hs: seq<Header>, n: nat): seq<Header>
    requires n <= |hs|
  {
    if n == 0 then [] else Kept(hs, n - 1) + if IsRetryHeader(hs[n - 1]) then [] else [hs[n - 1]]
  }

  /** The value of the last bq-original-topic header among the first n, or "". */
  function Target(hs: seq<Header>, n: nat): string
    requires n <= |hs|
  {
    if n == 0 then "" else if hs[n - 1].key == ORIGINAL_TOPIC then hs[n - 1].value else Target(hs, n - 1)
  }

  ghost predicate IsReinjected(m: Record, r: Record) {
    && r.key == m.key && r.value == m.value && r.time == None
    && r.headers == Kept(m.headers, |m.headers|)
    && r.topic == (if Target(m.headers, |m.headers|) != "" then Target(m.headers, |m.headers|) else Stripped(m.topic))
  }

  /** reinjectRecord. */
  method ReinjectRecord(m: Record) returns (r: Record)
    ensures IsReinjected(m, r)
  {
    var target, headers := "", [];
    for i := 0 to |m.headers|
      invariant headers == Kept(m.headers, i) && target == Target(m.headers, i)
    {
      var h := m.headers[i];
      if h.key == ORIGINAL_TOPIC {
        target := h.value;
      } else if h.key != DELAY {
        headers := headers + [h];
      }
    }
    if target == "" {
      target := StripRetrySuffix(m.topic);
      StrippedIs(m.topic, target);
    }
    r := Record(target, m.key, m.value, headers, None);
  }

  lemma StrippedIs(topic: string, r: string)
    requires (exists i: nat :: i <= |topic| && IsRetrySuffixAt(topic, i) && r == topic[..i])
      || (r == topic && forall i: nat :: i <= |topic| ==> !IsRetrySuffixAt(topic, i))
    ensures r == Stripped(topic)
  {
    if exists i: nat :: i <= |topic| && IsRetrySuffixAt(topic, i) {
      var i: nat :| i <= |topic| && IsRetrySuffixAt(topic, i) && r == topic[..i];
      var j: nat :| j <= |topic| && IsRetrySuffixAt(topic, j) && Stripped(topic) == topic[..j];
      SuffixIsUnique(topic, i, j);
    }
  }

  // ---------- A retry and its re-injection are the immediate re-publish ----------

  lemma {:induction false} KeptConcat(a: seq<Header>, b: seq<Header>)
    ensures Kept(a + b, |a + b|) == Kept(a, |a|) + Kept(b, |b|)
  {
    if b == [] {
      assert a + b == a;
    } else {
      var n := |b| - 1;
      KeptConcat(a, b[..n]);
      assert a + b == (a + b[..n]) + [b[n]];
      KeptPrefix(a + b[..n], [b[n]], |a + b[..n]|);
      KeptPrefix(b[..n], [b[n]], n);
      assert b[..n] + [b[n]] == b;
    }
  }

  lemma {:induction false} KeptPrefix(a: seq<Header>, b: seq<Header>, n: nat)
    requires n <= |a|
    ensures Kept(a + b, n) == Kept(a, n)
  {
    if n > 0 {
      KeptPrefix(a, b, n - 1);
    }
  }

  /** A header that is not of the retry pair is carried exactly when it is kept. */
  lemma {:induction false} KeptCarries(hs: seq<Header>, n: nat, key: string)
    requires n <= |hs| && key != DELAY && key != ORIGINAL_TOPIC
    ensures Carries(Kept(hs, n), key) <==> Carries(hs[..n], key)
  {
    if n > 0 {
      KeptCarries(hs, n - 1, key);
      var before, after := Kept(hs, n - 1), Kept(hs, n);
      if Carries(before, key) {
        var i :| 0 <= i < |before| && before[i].key == key;
        assert after[i].key == key;
        var j :| 0 <= j < n - 1 && hs[..n - 1][j].key == key;
        assert hs[..n][j].key == key;
      } else if hs[n - 1].key == key {
        assert after[|after| - 1].key == key && hs[..n][n - 1].key == key;
      }
    }
  }

  /** Dropping the retry pair and forwarding trace headers commute. */
  lemma {:induction false} KeptForwarded(hs: seq<Header>, from: seq<Header>, n: nat)
    requires n <= |from|
    ensures var f := Forwarded(hs, from, n); Kept(f, |f|) == Forwarded(Kept(hs, |hs|), from, n)
  {
    if n > 0 {
      KeptForwarded(hs, from, n - 1);
      var before := Forwarded(hs, from, n - 1);
      var h := from[n - 1];
      if IsTrace(h) {
        KeptCarries(before, |before|, h.key);
        assert before[..|before|] == before;
        KeptPrefix(before, [h], |before|);
      }
    }
  }

  /** Forwarding adds nothing a target is read from. */
  lemma {:induction false} TargetForwarded(hs: seq<Header>, from: seq<Header>, n: nat)
    requires n <= |from|
    ensures var f := Forwarded(hs, from, n); Target(f, |f|) == Target(hs, |hs|)
  {
    if n > 0 {
      TargetForwarded(hs, from, n - 1);
      var before := Forwarded(hs, from, n - 1);
      TargetPrefix(before, [from[n - 1]], |before|);
    }
  }

  lemma {:induction false} TargetPrefix(a: seq<Header>, b: seq<Header>, n: nat)
    requires n <= |a|
    ensures Target(a + b, n) == Target(a, n)
  {
    if n > 0 {
      TargetPrefix(a, b, n - 1);
    }
  }

  lemma {:induction false} ProjectionIsKept(hs: seq<Header>, n: nat)
    requires n <= |hs| && forall i :: 0 <= i < |hs| ==> !IsRetryHeader(hs[i])
    ensures Kept(hs, n) == hs[..n]
  {
    if n > 0 {
      ProjectionIsKept(hs, n - 1);
      assert hs[..n] == hs[..n - 1] + [hs[n - 1]];
    }
  }

  lemma ProjectionHasNoRetryHeader(f: Fields)
    ensures forall i :: 0 <= i < |Projection(f)| ==> !IsRetryHeader(Projection(f)[i])
  {
    assert DELAY[3] == 'd' && ORIGINAL_TOPIC[3] == 'o' && DELAY[4] == 'e';
    hide Itoa;
  }

  /** The record a retry parks in its tier, carried back, is the record an immediate re-publish would have
      written, but for the timestamp. */
  lemma ReinjectedIsRepublished(codec: Codec, tiers: seq<int>, from: Received, attemptsBefore: int, r: Record)
    requires from.record.topic == from.queue
    requires RetryRecord(codec, tiers, from, attemptsBefore).Some?
    requires IsReinjected(RetryRecord(codec, tiers, from, attemptsBefore).value, r)
    ensures var next := NextBody(codec, from.body, (if attemptsBefore < 0 then 0 else attemptsBefore) + 1);
      next.Some? && r == RepublishRecord(codec, from.queue, next.value, from.record).(time := None)
  {
    hide Forwarded, Kept, Target, Projection, NextBody, Stripped, RetryTopic;
    var a := if attemptsBefore < 0 then 0 else attemptsBefore;
    var n := TierForAttempt(tiers, attemptsBefore).value;
    var next := NextBody(codec, from.body, a + 1).value;
    var m := Message(codec, RetryTopic(from.queue, n), next);
    var pair := RetryHeaders(from.queue, tiers[n - 1]);
    var fh := from.record.headers;
    assert m.headers == Message(codec, from.queue, next).headers;
    KeptForwarded(m.headers + pair, fh, |fh|);
    TargetForwarded(m.headers + pair, fh, |fh|);
    MessageHeadersAreKept(codec, RetryTopic(from.queue, n), next, pair);
    StripUndoesRetryTopic(from.queue, n);
    hide Message, RetryHeaders;
  }

  lemma MessageHeadersAreKept(codec: Codec, topic: string, body: string, pair: seq<Header>)
    requires |pair| == 2 && pair[0].key == DELAY && pair[1].key == ORIGINAL_TOPIC
    ensures var hs := Message(codec, topic, body).headers;
      Kept(hs + pair, |hs + pair|) == hs && Target(hs + pair, |hs + pair|) == pair[1].value
  {
    var hs := Message(codec, topic, body).headers;
    if codec.decode(body).Some? {
      ProjectionHasNoRetryHeader(codec.decode(body).value.fields);
    }
    hide Projection;
    ProjectionIsKept(hs, |hs|);
    assert hs[..|hs|] == hs;
    KeptConcat(hs, pair);
    assert Kept(pair, 1) == [] && Kept(pair, 2) == [];
  }
}
