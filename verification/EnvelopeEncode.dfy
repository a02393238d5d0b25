/**
  Encode of envelope.go and envelope_codec.go, and the round trip: what Encode writes, Decode reads back with
  nothing changed but white space inside carried raw values, so one pass is a fixed point. The envelopes it
  holds for are those that Make makes and those that Decode returns.
 */
module EnvelopeEncode {
  import opened Wrappers
  import opened JsonGrammar
  import opened JsonParser
  import opened JsonStrings
  import opened Utf8
  import opened KeyOrder
  import opened EnvelopeFields
  import opened EnvelopeDecode
  import opened UnicodeSpace
  import AsciiSpace

  // ---------- What is written ----------

  /** Raw members in ascending key order, compacted by the final encoder. */
  function RawMembers(m: map<string, Value>, keys: seq<string>): (ms: seq<Member>)
    requires forall i :: 0 <= i < |keys| ==> keys[i] in m
    ensures |ms| == |keys| && forall i :: 0 <= i < |keys| ==> ms[i] == Member(keys[i], Compact(m[keys[i]]))
  {
    seq(|keys|, i requires 0 <= i < |keys| => Member(keys[i], Compact(m[keys[i]])))
  }

  function SortedMembers(m: map<string, Value>): seq<Member> {
    RawMembers(m, Sorted(m.Keys))
  }

  predicate MetaTextOk(m: Meta) { ValidUtf8(m.id) && ValidUtf8(m.queue) && ValidUtf8(m.lang) }

  predicate DeadLetterTextOk(d: DeadLetter) {
    && ValidUtf8(d.reason) && ValidUtf8(d.originalQueue) && ValidUtf8(d.lang)
    && (d.error.Some? ==> ValidUtf8(d.error.value)) && (d.exception.Some? ==> ValidUtf8(d.exception.value))
  }

  predicate RawOk(m: map<string, Value>, depth: int) {
    forall k :: k in m ==> ValidUtf8(k) && ValueOk(m[k]) && ValueDepth(m[k]) <= depth
  }

  /** Every string is text, every raw value JSON that nests no deeper than a document may. */
  predicate Encodable(e: Envelope) {
    && ValidUtf8(e.job) && ValidUtf8(e.traceId) && MetaTextOk(e.meta)
    && (e.deadLetter.Some? ==> DeadLetterTextOk(e.deadLetter.value))
    && (e.data.Some? ==> ValueOk(e.data.value) && ValueDepth(e.data.value) <= MAX_NESTING_DEPTH - 1)
    && RawOk(e.extras, MAX_NESTING_DEPTH - 1) && RawOk(e.metaExtras, MAX_NESTING_DEPTH - 2)
  }

  /** The raw members that follow the known ones, in the envelope and in meta. */
  datatype Carried = Carried(extras: seq<Member>, meta: seq<Member>)

  /** Read back, the members are the entries of m, compacted. */
  ghost predicate Carries(raw: seq<Member>, m: map<string, Value>) {
    forall name :: Last(raw, |raw|, name) == if name in m then Some(Compact(m[name])) else None
  }

  /** The raw members hold what the envelope carries, in whatever order. */
  ghost predicate IsWritten(e: Envelope, c: Carried) {
    && Encodable(e) && Carries(c.extras, e.extras) && Carries(c.meta, e.metaExtras)
    && AllOk(c.extras, MAX_NESTING_DEPTH - 1) && AllOk(c.meta, MAX_NESTING_DEPTH - 2)
  }

  /** In ascending key order. */
  function Ascending(e: Envelope): Carried { Carried(SortedMembers(e.extras), SortedMembers(e.metaExtras)) }

  lemma AscendingIsWritten(e: Envelope)
    requires Encodable(e)
    ensures IsWritten(e, Ascending(e))
  {
    SortedMembersOk(e.extras, MAX_NESTING_DEPTH - 1);
    SortedMembersOk(e.metaExtras, MAX_NESTING_DEPTH - 2);
    SortedCarries(e.extras);
    SortedCarries(e.metaExtras);
    hide SortedMembers, Carries, AllOk, RawOk, ValidUtf8;
  }

  lemma SortedCarries(m: map<string, Value>)
    ensures Carries(SortedMembers(m), m)
  {
    var keys, ms := Sorted(m.Keys), SortedMembers(m);
    SortedAscends(m.Keys);
    hide Last, Compact, Leq;
    forall name ensures Last(ms, |ms|, name) == if name in m then Some(Compact(m[name])) else None {
      if name in m {
        var i :| 0 <= i < |keys| && keys[i] == name;
        LastAt(ms, |ms|, i);
      } else {
        forall j | 0 <= j < |ms| ensures ms[j].name != name { assert ms[j].name in Sorted(m.Keys); }
        LastNone(ms, |ms|, name);
      }
    }
  }

  function MetaMembers(m: Meta): seq<Member>
    requires MetaTextOk(m)
  {
    [Member("id", StringTree(m.id)), Member("queue", StringTree(m.queue)), Member("lang", StringTree(m.lang)),
     Member("schema_version", IntTree(m.schemaVersion)), Member("created_at", IntTree(m.createdAt))]
  }

  function DeadLetterMembers(d: DeadLetter): seq<Member>
    requires DeadLetterTextOk(d)
  {
    [Member("reason", StringTree(d.reason)), Member("error", PointerTree(d.error)),
      Member("exception", PointerTree(d.exception)),
     Member("failed_at", IntTree(d.failedAt)), Member("original_queue", StringTree(d.originalQueue)),
     Member("attempts", IntTree(d.attempts)), Member("lang", StringTree(d.lang))]
  }

  /** A member that may be written, and how deep it nests. */
  predicate MemberOk(m: Member, depth: int) { ValidUtf8(m.name) && ValueOk(m.value) && ValueDepth(m.value) <= depth }

  lemma StringMemberOk(name: string, s: string, depth: nat)
    requires IsAscii(name) && ValidUtf8(s)
    ensures MemberOk(Member(name, StringTree(s)), depth)
  {
    AsciiIsValid(name);
  }

  lemma PointerMemberOk(name: string, p: Option<string>, depth: nat)
    requires IsAscii(name) && (p.Some? ==> ValidUtf8(p.value))
    ensures MemberOk(Member(name, PointerTree(p)), depth)
  {
    AsciiIsValid(name);
  }

  lemma IntMemberOk(name: string, n: int, depth: nat)
    requires IsAscii(name)
    ensures MemberOk(Member(name, IntTree(n)), depth)
  {
    AsciiIsValid(name);
  }

  predicate AllOk(ms: seq<Member>, depth: int) { forall i :: 0 <= i < |ms| ==> MemberOk(ms[i], depth) }

  lemma AllOkMeans(ms: seq<Member>, depth: int)
    requires AllOk(ms, depth)
    ensures MembersOk(ms) && NamesOk(ms) && forall i :: 0 <= i < |ms| ==> ValueDepth(ms[i].value) <= depth
  {
    hide ValueOk, ValidUtf8;
    forall i | 0 <= i < |ms| ensures ValueDepth(ms[i].value) <= depth && ValidUtf8(ms[i].name) && ValueOk(ms[i].value) {
      assert MemberOk(ms[i], depth);
    }
  }

  lemma MetaMembersOk(m: Meta)
    requires MetaTextOk(m)
    ensures AllOk(MetaMembers(m), 0)
  {
    hide MemberOk, StringTree, IntTree, ValidUtf8;
    StringMemberOk("id", m.id, 0);
    StringMemberOk("queue", m.queue, 0);
    StringMemberOk("lang", m.lang, 0);
    IntMemberOk("schema_version", m.schemaVersion, 0);
    IntMemberOk("created_at", m.createdAt, 0);
  }

  lemma DeadLetterMembersOk(d: DeadLetter)
    requires DeadLetterTextOk(d)
    ensures AllOk(DeadLetterMembers(d), 0)
  {
    hide MemberOk, StringTree, IntTree, PointerTree, ValidUtf8;
    StringMemberOk("reason", d.reason, 0);
    PointerMemberOk("error", d.error, 0);
    PointerMemberOk("exception", d.exception, 0);
    IntMemberOk("failed_at", d.failedAt, 0);
    StringMemberOk("original_queue", d.originalQueue, 0);
    IntMemberOk("attempts", d.attempts, 0);
    StringMemberOk("lang", d.lang, 0);
  }

  lemma SortedMembersOk(m: map<string, Value>, depth: int)
    requires RawOk(m, depth)
    ensures AllOk(SortedMembers(m), depth)
  {
    forall i | 0 <= i < |SortedMembers(m)| ensures MemberOk(SortedMembers(m)[i], depth) {
      var k := Sorted(m.Keys)[i];
      assert k in Sorted(m.Keys);
      CompactIs(m[k]);
    }
  }

  lemma AllOkConcat(a: seq<Member>, b: seq<Member>, depth: int)
    requires AllOk(a, depth) && AllOk(b, depth)
    ensures AllOk(a + b, depth)
  {
    hide MemberOk;
  }

  lemma {:induction false} Deeper(ms: seq<Member>, depth: int, more: int)
    requires AllOk(ms, depth) && depth <= more
    ensures AllOk(ms, more)
  {
    forall i | 0 <= i < |ms| ensures MemberOk(ms[i], more) {
      assert MemberOk(ms[i], depth);
    }
  }

  function AllMeta(e: Envelope, c: Carried): seq<Member>
    requires IsWritten(e, c)
  {
    MetaMembers(e.meta) + c.meta
  }

  lemma AllMetaOk(e: Envelope, c: Carried)
    requires IsWritten(e, c)
    ensures AllOk(AllMeta(e, c), MAX_NESTING_DEPTH - 2)
  {
    MetaMembersOk(e.meta);
    hide MetaMembers, RawOk, Carries, AllOk;
    Deeper(MetaMembers(e.meta), 0, MAX_NESTING_DEPTH - 2);
    AllOkConcat(MetaMembers(e.meta), c.meta, MAX_NESTING_DEPTH - 2);
  }

  function MetaTree(e: Envelope, c: Carried): Value
    requires IsWritten(e, c)
  {
    AllMetaOk(e, c);
    AllOkMeans(AllMeta(e, c), MAX_NESTING_DEPTH - 2);
    ObjectOf(AllMeta(e, c))
  }

  function DeadLetterTree(d: DeadLetter): Value
    requires DeadLetterTextOk(d)
  {
    DeadLetterMembersOk(d);
    AllOkMeans(DeadLetterMembers(d), 0);
    ObjectOf(DeadLetterMembers(d))
  }

  lemma MetaTreeOk(e: Envelope, c: Carried)
    requires IsWritten(e, c)
    ensures ValueOk(MetaTree(e, c)) && ValueDepth(MetaTree(e, c)) <= MAX_NESTING_DEPTH - 1
    ensures MembersOf(MetaTree(e, c)) == Some(AllMeta(e, c))
  {
    AllMetaOk(e, c);
    AllOkMeans(AllMeta(e, c), MAX_NESTING_DEPTH - 2);
    hide AllMeta, ObjectOf, MembersOf, AllOk, RawOk;
    ObjectRoundTrip(AllMeta(e, c), MAX_NESTING_DEPTH - 2);
  }

  lemma DeadLetterTreeOk(d: DeadLetter)
    requires DeadLetterTextOk(d)
    ensures ValueOk(DeadLetterTree(d)) && ValueDepth(DeadLetterTree(d)) <= 1
    ensures MembersOf(DeadLetterTree(d)) == Some(DeadLetterMembers(d))
  {
    DeadLetterMembersOk(d);
    AllOkMeans(DeadLetterMembers(d), 0);
    hide DeadLetterMembers, ObjectOf, MembersOf, AllOk;
    ObjectRoundTrip(DeadLetterMembers(d), 0);
  }

  function FrameMembers(e: Envelope, c: Carried): seq<Member>
    requires IsWritten(e, c)
  {
    [Member("job", StringTree(e.job)), Member("trace_id", StringTree(e.traceId)),
     Member("data", if e.data.Some? then e.data.value else Literal("null")),
     Member("meta", MetaTree(e, c)), Member("attempts", IntTree(e.attempts))]
  }

  function DeadLetterPart(e: Envelope): seq<Member>
    requires Encodable(e)
  {
    if e.deadLetter.Some? then [Member("dead_letter", DeadLetterTree(e.deadLetter.value))] else []
  }

  /** The known members in canonical order. */
  function KnownMembers(e: Envelope, c: Carried): seq<Member>
    requires IsWritten(e, c)
  {
    FrameMembers(e, c) + DeadLetterPart(e)
  }

  function EnvelopeMembers(e: Envelope, c: Carried): seq<Member>
    requires IsWritten(e, c)
  {
    KnownMembers(e, c) + c.extras
  }

  lemma TreeMemberOk(name: string, v: Value, depth: int)
    requires IsAscii(name) && ValueOk(v) && ValueDepth(v) <= depth
    ensures MemberOk(Member(name, v), depth)
  {
    AsciiIsValid(name);
  }

  lemma DataMemberOk(e: Envelope)
    requires Encodable(e)
    ensures MemberOk(Member("data", if e.data.Some? then e.data.value else Literal("null")), MAX_NESTING_DEPTH - 1)
  {
    NullIsOk();
    hide MemberOk, ValidUtf8, RawOk, ValueOk, ValueDepth;
    TreeMemberOk("data", if e.data.Some? then e.data.value else Literal("null"), MAX_NESTING_DEPTH - 1);
  }

  lemma MetaMemberOk(e: Envelope, c: Carried)
    requires IsWritten(e, c)
    ensures MemberOk(Member("meta", MetaTree(e, c)), MAX_NESTING_DEPTH - 1)
  {
    hide MemberOk, MetaTree, MembersOf, ValueOk, ValueDepth, IsWritten, AllMeta;
    MetaTreeOk(e, c);
    TreeMemberOk("meta", MetaTree(e, c), MAX_NESTING_DEPTH - 1);
  }

  lemma FrameMembersOk(e: Envelope, c: Carried)
    requires IsWritten(e, c)
    ensures AllOk(FrameMembers(e, c), MAX_NESTING_DEPTH - 1)
  {
    hide MemberOk, MetaTree, ValidUtf8, MetaTextOk, DeadLetterTextOk, RawOk, Carries, StringTree, IntTree, ValueOk,
      ValueDepth;
    var deep := MAX_NESTING_DEPTH - 1;
    StringMemberOk("job", e.job, deep);
    StringMemberOk("trace_id", e.traceId, deep);
    DataMemberOk(e);
    MetaMemberOk(e, c);
    IntMemberOk("attempts", e.attempts, deep);
  }

  lemma NullIsOk()
    ensures ValueOk(Literal("null")) && ValueDepth(Literal("null")) == 0
  {
  }

  lemma DeadLetterPartOk(e: Envelope)
    requires Encodable(e)
    ensures AllOk(DeadLetterPart(e), MAX_NESTING_DEPTH - 1)
  {
    hide MemberOk, DeadLetterTree, DeadLetterMembers, MembersOf, ValidUtf8, RawOk, ValueOk, ValueDepth;
    if e.deadLetter.Some? {
      DeadLetterTreeOk(e.deadLetter.value);
      TreeMemberOk("dead_letter", DeadLetterTree(e.deadLetter.value), MAX_NESTING_DEPTH - 1);
    }
  }

  lemma KnownMembersOk(e: Envelope, c: Carried)
    requires IsWritten(e, c)
    ensures AllOk(KnownMembers(e, c), MAX_NESTING_DEPTH - 1)
  {
    FrameMembersOk(e, c);
    DeadLetterPartOk(e);
    hide FrameMembers, DeadLetterPart, Encodable;
    AllOkConcat(FrameMembers(e, c), DeadLetterPart(e), MAX_NESTING_DEPTH - 1);
  }

  lemma EnvelopeMembersOk(e: Envelope, c: Carried)
    requires IsWritten(e, c)
    ensures AllOk(EnvelopeMembers(e, c), MAX_NESTING_DEPTH - 1)
  {
    KnownMembersOk(e, c);
    hide KnownMembers, Carries, AllOk;
    AllOkConcat(KnownMembers(e, c), c.extras, MAX_NESTING_DEPTH - 1);
  }

  function EnvelopeTree(e: Envelope, c: Carried): Value
    requires IsWritten(e, c)
  {
    EnvelopeMembersOk(e, c);
    AllOkMeans(EnvelopeMembers(e, c), MAX_NESTING_DEPTH - 1);
    ObjectOf(EnvelopeMembers(e, c))
  }

  /** checkExtras: an extra that may not be written. */
  predicate HoldsReservedKey(e: Envelope) {
    || (exists k :: k in e.extras && (k in FORBIDDEN || k == "urn"))
    || (exists k :: k in e.metaExtras && (k in FORBIDDEN_META || k in CORE_META))
  }

  /** The bytes with the raw members as they are in c. */
  function EncodeWith(e: Envelope, c: Carried): Option<string>
    requires IsWritten(e, c)
  {
    if HoldsReservedKey(e) then None else Some(DocText(Doc("", EnvelopeTree(e, c), "")))
  }

  /** The bytes of an envelope whose text is valid. */
  function EncodeBody(e: Envelope): Option<string>
    requires Encodable(e)
  {
    AscendingIsWritten(e);
    EncodeWith(e, Ascending(e))
  }

  // ---------- Reading it back ----------

  /** What a decoded envelope is: nothing in the extras that has a place of its own, numbers in range, data
      in the form map[string]any writes, and an identity. */
  predicate Canonical(canon: Canon, e: Envelope) {
    && Encodable(e) && !AsciiSpace.IsBlank(e.job)
    && IsInt64(e.attempts) && IsInt64(e.meta.schemaVersion) && IsInt64(e.meta.createdAt)
    && (e.deadLetter.Some? ==> IsInt64(e.deadLetter.value.failedAt) && IsInt64(e.deadLetter.value.attempts))
    && (e.data.Some? ==>
        IsObject(e.data.value) && canon(e.data.value) == Some(e.data.value) && Compact(e.data.value) == e.data.value)
    && e.extras.Keys !! KNOWN + FORBIDDEN && e.metaExtras.Keys !! CORE_META + FORBIDDEN_META
  }

  /** The envelope without what encoding does not carry: white space in raw values, and warnings. */
  function AsWritten(e: Envelope): Envelope {
    e.(extras := CompactAll(e.extras), metaExtras := CompactAll(e.metaExtras), warnings := [])
  }

  lemma {:induction false} LastAt(ms: seq<Member>, n: nat, i: nat)
    requires i < n <= |ms| && forall j :: i < j < n ==> ms[j].name != ms[i].name
    ensures Last(ms, n, ms[i].name) == Some(ms[i].value)
  {
    if n - 1 != i { LastAt(ms, n - 1, i); }
  }

  lemma {:induction false} LastNone(ms: seq<Member>, n: nat, name: string)
    requires n <= |ms| && forall j :: 0 <= j < n ==> ms[j].name != name
    ensures Last(ms, n, name) == None
  {
    if n > 0 { LastNone(ms, n - 1, name); }
  }

  lemma {:induction false} LastPrefix(a: seq<Member>, b: seq<Member>, n: nat, name: string)
    requires n <= |a|
    ensures Last(a + b, n, name) == Last(a, n, name)
  {
    if n > 0 { LastPrefix(a, b, n - 1, name); }
  }

  /** The members of b override those of a. */
  lemma {:induction false} LastAppend(a: seq<Member>, b: seq<Member>, n: nat, name: string)
    requires n <= |b|
    ensures Last(a + b, |a| + n, name) == if Last(b, n, name).Some? then Last(b, n, name) else Last(a, |a|, name)
  {
    if n > 0 {
      assert (a + b)[|a| + n - 1] == b[n - 1];
      LastAppend(a, b, n - 1, name);
    } else {
      LastPrefix(a, b, |a|, name);
    }
  }

  /** Known members first, then raw ones under other names: each known name reads as written. */
  lemma LastKnown(known: seq<Member>, raw: seq<Member>, m: map<string, Value>, i: nat)
    requires i < |known| && Carries(raw, m) && known[i].name !in m
    requires forall j :: i < j < |known| ==> known[j].name != known[i].name
    ensures var ms := known + raw; Last(ms, |ms|, known[i].name) == Some(known[i].value)
  {
    LastAt(known, |known|, i);
    LastAppend(known, raw, |raw|, known[i].name);
  }

  lemma LastUnlisted(known: seq<Member>, raw: seq<Member>, m: map<string, Value>, name: string)
    requires Carries(raw, m) && name !in m && forall j :: 0 <= j < |known| ==> known[j].name != name
    ensures var ms := known + raw; Last(ms, |ms|, name) == None
  {
    LastNone(known, |known|, name);
    LastAppend(known, raw, |raw|, name);
  }

  /** The raw members come back as the unknown ones, compacted. */
  lemma UnknownAre(known: seq<Member>, raw: seq<Member>, m: map<string, Value>, own: set<string>)
    requires Carries(raw, m) && m.Keys !! own && forall j :: 0 <= j < |known| ==> known[j].name in own
    ensures var ms := known + raw; Unknown(ms, |ms|, own) == CompactAll(m)
  {
    var ms := known + raw;
    hide Unknown, Last, Compact;
    forall k ensures k in Unknown(ms, |ms|, own) <==> k in m
      ensures k in m ==> Unknown(ms, |ms|, own)[k] == Compact(m[k])
    {
      UnknownIsLast(ms, |ms|, own, k);
      LastAppend(known, raw, |raw|, k);
      if k !in m && k !in own { LastUnlisted(known, raw, m, k); }
    }
  }

  lemma NothingSeen(known: seq<Member>, raw: seq<Member>, m: map<string, Value>, names: set<string>)
    requires Carries(raw, m) && m.Keys !! names && forall j :: 0 <= j < |known| ==> known[j].name !in names
    ensures var ms := known + raw; Seen(ms, |ms|, names) == {}
  {
    var ms := known + raw;
    hide Last, Carries;
    forall k | k in names ensures Last(ms, |ms|, k) == None {
      LastUnlisted(known, raw, m, k);
    }
  }

  lemma {:induction false} LastHas(ms: seq<Member>, n: nat, i: nat)
    requires i < n <= |ms|
    ensures Last(ms, n, ms[i].name).Some?
  {
    if ms[n - 1].name != ms[i].name { LastHas(ms, n - 1, i); }
  }

  lemma RawName(raw: seq<Member>, m: map<string, Value>, i: nat)
    requires Carries(raw, m) && i < |raw|
    ensures raw[i].name in m
  {
    LastHas(raw, |raw|, i);
  }

  // ---------- The meta block ----------

  lemma MetaNames(m: Meta, i: nat)
    requires MetaTextOk(m) && i < 5
    ensures MetaMembers(m)[i].name in CORE_META && MetaMembers(m)[i].name !in FORBIDDEN_META
    ensures forall j :: i < j < 5 ==> MetaMembers(m)[j].name != MetaMembers(m)[i].name
  {
    hide StringTree, IntTree;
    assert "id"[0] == 'i' && "ts"[0] == 't';
  }

  lemma MetaFieldReads(e: Envelope, c: Carried, i: nat)
    requires IsWritten(e, c) && i < 5 && e.metaExtras.Keys !! CORE_META + FORBIDDEN_META
    ensures Last(AllMeta(e, c), |AllMeta(e, c)|, MetaMembers(e.meta)[i].name) == Some(MetaMembers(e.meta)[i].value)
  {
    forall j | i < j < 5 ensures MetaMembers(e.meta)[j].name != MetaMembers(e.meta)[i].name { MetaNames(e.meta, i); }
    MetaNames(e.meta, i);
    assert |MetaMembers(e.meta)| == 5;
    hide MetaMembers, Encodable, CORE_META, FORBIDDEN_META;
    LastKnown(MetaMembers(e.meta), c.meta, e.metaExtras, i);
  }

  lemma MetaReads(canon: Canon, e: Envelope, c: Carried)
    requires Canonical(canon, e) && IsWritten(e, c)
    ensures MetaOf(AllMeta(e, c), |AllMeta(e, c)|) == e.meta
  {
    hide Last, AllMeta, StringTree, IntTree, AssignString, AssignInt, ValidUtf8, RawOk, CORE_META, FORBIDDEN_META,
      KNOWN, FORBIDDEN;
    MetaFieldReads(e, c, 0);
    MetaFieldReads(e, c, 1);
    MetaFieldReads(e, c, 2);
    MetaFieldReads(e, c, 3);
    MetaFieldReads(e, c, 4);
    StringRoundTrip(e.meta.id);
    StringRoundTrip(e.meta.queue);
    StringRoundTrip(e.meta.lang);
    IntRoundTrip(e.meta.schemaVersion);
    IntRoundTrip(e.meta.createdAt);
  }

  lemma MetaRestReads(canon: Canon, e: Envelope, c: Carried)
    requires Canonical(canon, e) && IsWritten(e, c)
    ensures Unknown(AllMeta(e, c), |AllMeta(e, c)|, CORE_META + FORBIDDEN_META) == CompactAll(e.metaExtras)
    ensures Seen(AllMeta(e, c), |AllMeta(e, c)|, FORBIDDEN_META) == {}
  {
    forall j | 0 <= j < 5 ensures MetaMembers(e.meta)[j].name in CORE_META
      && MetaMembers(e.meta)[j].name !in FORBIDDEN_META {
      MetaNames(e.meta, j);
    }
    assert |MetaMembers(e.meta)| == 5;
    hide MetaMembers, Unknown, Seen, CompactAll, CORE_META, FORBIDDEN_META;
    UnknownAre(MetaMembers(e.meta), c.meta, e.metaExtras, CORE_META + FORBIDDEN_META);
    NothingSeen(MetaMembers(e.meta), c.meta, e.metaExtras, FORBIDDEN_META);
  }

  lemma MetaTextPasses(name: string, s: string)
    requires ValidUtf8(s) && name != "schema_version" && name != "created_at"
    ensures !MetaFails(Member(name, StringTree(s)))
  {
    hide StringTree, AssignString, AssignInt;
    StringRoundTrip(s);
  }

  lemma MetaNumberPasses(name: string, n: int)
    requires IsInt64(n) && name != "id" && name != "queue" && name != "lang"
    ensures !MetaFails(Member(name, IntTree(n)))
  {
    hide IntTree, AssignString, AssignInt;
    IntRoundTrip(n);
  }

  lemma MetaFieldPasses(canon: Canon, e: Envelope, i: nat)
    requires Canonical(canon, e) && i < 5
    ensures ValueOk(MetaMembers(e.meta)[i].value) && !MetaFails(MetaMembers(e.meta)[i])
  {
    hide MetaFails, StringTree, IntTree, RawOk, ValidUtf8;
    match i
    case 0 => MetaTextPasses("id", e.meta.id);
    case 1 => MetaTextPasses("queue", e.meta.queue);
    case 2 => MetaTextPasses("lang", e.meta.lang);
    case 3 => MetaNumberPasses("schema_version", e.meta.schemaVersion);
    case 4 => MetaNumberPasses("created_at", e.meta.createdAt);
  }

  lemma OtherMetaPasses(m: Member)
    requires ValueOk(m.value) && m.name !in CORE_META
    ensures !MetaFails(m)
  {
  }

  lemma MetaRawPasses(canon: Canon, e: Envelope, c: Carried, i: nat)
    requires Canonical(canon, e) && IsWritten(e, c) && i < |c.meta| && ValueOk(c.meta[i].value)
    ensures !MetaFails(c.meta[i])
  {
    RawName(c.meta, e.metaExtras, i);
    hide Encodable, CORE_META, FORBIDDEN_META, KNOWN, FORBIDDEN, Carries, AllOk, MetaFails, ValueOk;
    OtherMetaPasses(c.meta[i]);
  }

  lemma MetaParts(e: Envelope, c: Carried, i: nat)
    requires IsWritten(e, c) && i < |AllMeta(e, c)|
    ensures |MetaMembers(e.meta)| == 5 && |AllMeta(e, c)| == 5 + |c.meta| && ValueOk(AllMeta(e, c)[i].value)
    ensures AllMeta(e, c)[i] == if i < 5 then MetaMembers(e.meta)[i] else c.meta[i - 5]
  {
    AllMetaOk(e, c);
    AllOkMeans(AllMeta(e, c), MAX_NESTING_DEPTH - 2);
    hide AllOk, ValueOk, Carries, Encodable, StringTree, IntTree;
  }

  lemma MetaPasses(canon: Canon, e: Envelope, c: Carried, i: nat)
    requires Canonical(canon, e) && IsWritten(e, c) && i < |AllMeta(e, c)|
    ensures ValueOk(AllMeta(e, c)[i].value) && !MetaFails(AllMeta(e, c)[i])
  {
    hide *;
    MetaParts(e, c, i);
    if i < 5 {
      MetaFieldPasses(canon, e, i);
    } else {
      MetaRawPasses(canon, e, c, i - 5);
    }
  }

  lemma BlockIs(v: Value, ms: seq<Member>)
    requires ValueOk(v) && MembersOf(v) == Some(ms)
    ensures !IsNull(v) && Block(Some(v)) == Some(ms) && BlockMembers(v) == Some(ms) && MembersOk(ms)
  {
    assert IsObject(v);
    MembersOfOk(v);
    hide MembersOf, ValueOk, MembersOk;
  }

  lemma MetaAllPass(canon: Canon, e: Envelope, c: Carried)
    requires Canonical(canon, e) && IsWritten(e, c)
    ensures MembersOk(AllMeta(e, c)) && NoMetaFails(AllMeta(e, c), |AllMeta(e, c)|)
  {
    AllMetaOk(e, c);
    AllOkMeans(AllMeta(e, c), MAX_NESTING_DEPTH - 2);
    hide MetaFails, AllMeta, Canonical, Encodable, ValueOk, ValidUtf8, AllOk;
    forall i | 0 <= i < |AllMeta(e, c)| ensures !MetaFails(AllMeta(e, c)[i]) {
      MetaPasses(canon, e, c, i);
    }
  }

  lemma MetaBlockReads(canon: Canon, e: Envelope, c: Carried)
    requires Canonical(canon, e) && IsWritten(e, c)
    ensures ValueOk(MetaTree(e, c)) && !MetaBlockFails(MetaTree(e, c))
    ensures MetaField(Some(MetaTree(e, c))) == MetaState(e.meta, CompactAll(e.metaExtras), {})
  {
    assert Encodable(e) && MetaTextOk(e.meta);
    hide MetaTree, MetaOf, Unknown, Seen, CompactAll, AllMeta, Canonical, Encodable, MetaTextOk, NoMetaFails, Block,
      ValueOk, MembersOf, MembersOk;
    MetaTreeOk(e, c);
    BlockIs(MetaTree(e, c), AllMeta(e, c));
    MetaReads(canon, e, c);
    MetaRestReads(canon, e, c);
    MetaAllPass(canon, e, c);
  }

  // ---------- The dead_letter block ----------

  lemma DeadLetterNames(d: DeadLetter, i: nat)
    requires DeadLetterTextOk(d) && i < 7
    ensures forall j :: i < j < 7 ==> DeadLetterMembers(d)[j].name != DeadLetterMembers(d)[i].name
  {
    hide StringTree, IntTree, PointerTree, DeadLetterTextOk;
  }

  lemma DeadLetterFieldReads(d: DeadLetter, i: nat)
    requires DeadLetterTextOk(d) && i < 7
    ensures Last(DeadLetterMembers(d), 7, DeadLetterMembers(d)[i].name) == Some(DeadLetterMembers(d)[i].value)
  {
    DeadLetterNames(d, i);
    LastAt(DeadLetterMembers(d), 7, i);
    hide DeadLetterMembers;
  }

  predicate DeadLetterNumbersOk(d: DeadLetter) { IsInt64(d.failedAt) && IsInt64(d.attempts) }

  lemma PointerRoundTrip(p: Option<string>)
    requires p.Some? ==> ValidUtf8(p.value)
    ensures AssignPointer(PointerTree(p)) == Some(p)
  {
    if p.Some? { StringRoundTrip(p.value); }
  }

  lemma DeadLetterReads(d: DeadLetter)
    requires DeadLetterTextOk(d) && DeadLetterNumbersOk(d)
    ensures DeadLetterOf(DeadLetterMembers(d), 7) == d
  {
    hide Last, StringTree, IntTree, PointerTree, AssignString, AssignInt, AssignPointer, ValidUtf8;
    DeadLetterFieldReads(d, 0);
    DeadLetterFieldReads(d, 1);
    DeadLetterFieldReads(d, 2);
    DeadLetterFieldReads(d, 3);
    DeadLetterFieldReads(d, 4);
    DeadLetterFieldReads(d, 5);
    DeadLetterFieldReads(d, 6);
    StringRoundTrip(d.reason);
    PointerRoundTrip(d.error);
    PointerRoundTrip(d.exception);
    IntRoundTrip(d.failedAt);
    StringRoundTrip(d.originalQueue);
    IntRoundTrip(d.attempts);
    StringRoundTrip(d.lang);
  }

  lemma DeadLetterTextPasses(name: string, s: string)
    requires ValidUtf8(s) && name in {"reason", "original_queue", "lang"}
    ensures !DeadLetterFails(Member(name, StringTree(s)))
  {
    hide StringTree, AssignString, AssignInt, AssignPointer;
    StringRoundTrip(s);
  }

  lemma DeadLetterPointerPasses(name: string, p: Option<string>)
    requires (p.Some? ==> ValidUtf8(p.value)) && name in {"error", "exception"}
    ensures !DeadLetterFails(Member(name, PointerTree(p)))
  {
    hide PointerTree, AssignString, AssignInt, AssignPointer;
    PointerRoundTrip(p);
  }

  lemma DeadLetterNumberPasses(name: string, n: int)
    requires IsInt64(n) && name in {"failed_at", "attempts"}
    ensures !DeadLetterFails(Member(name, IntTree(n)))
  {
    hide IntTree, AssignString, AssignInt, AssignPointer;
    IntRoundTrip(n);
  }

  lemma DeadLetterPasses(d: DeadLetter, i: nat)
    requires DeadLetterTextOk(d) && DeadLetterNumbersOk(d) && i < 7
    ensures ValueOk(DeadLetterMembers(d)[i].value) && !DeadLetterFails(DeadLetterMembers(d)[i])
  {
    hide DeadLetterFails, StringTree, IntTree, PointerTree, ValidUtf8;
    match i
    case 0 => DeadLetterTextPasses("reason", d.reason);
    case 1 => DeadLetterPointerPasses("error", d.error);
    case 2 => DeadLetterPointerPasses("exception", d.exception);
    case 3 => DeadLetterNumberPasses("failed_at", d.failedAt);
    case 4 => DeadLetterTextPasses("original_queue", d.originalQueue);
    case 5 => DeadLetterNumberPasses("attempts", d.attempts);
    case 6 => DeadLetterTextPasses("lang", d.lang);
  }

  lemma DeadLetterAllPass(d: DeadLetter)
    requires DeadLetterTextOk(d) && DeadLetterNumbersOk(d)
    ensures MembersOk(DeadLetterMembers(d)) && |DeadLetterMembers(d)| == 7 && NoDeadLetterFails(DeadLetterMembers(d), 7)
  {
    DeadLetterMembersOk(d);
    AllOkMeans(DeadLetterMembers(d), 0);
    assert |DeadLetterMembers(d)| == 7;
    hide DeadLetterFails, DeadLetterMembers, DeadLetterTextOk, ValueOk, ValidUtf8, AllOk;
    forall i | 0 <= i < 7 ensures !DeadLetterFails(DeadLetterMembers(d)[i]) {
      DeadLetterPasses(d, i);
    }
  }

  lemma DeadLetterBlockReads(d: DeadLetter)
    requires DeadLetterTextOk(d) && DeadLetterNumbersOk(d)
    ensures ValueOk(DeadLetterTree(d)) && !DeadLetterBlockFails(DeadLetterTree(d))
    ensures DeadLetterField(Some(DeadLetterTree(d))) == Some(d)
  {
    hide DeadLetterTree, DeadLetterOf, DeadLetterMembers, DeadLetterTextOk, NoDeadLetterFails, Block, ValueOk,
      MembersOf, MembersOk;
    DeadLetterTreeOk(d);
    BlockIs(DeadLetterTree(d), DeadLetterMembers(d));
    DeadLetterReads(d);
    DeadLetterAllPass(d);
  }

  // ---------- The document ----------

  lemma KnownNames(e: Envelope, c: Carried, i: nat)
    requires IsWritten(e, c) && i < |KnownMembers(e, c)|
    ensures KnownMembers(e, c)[i].name in KNOWN && KnownMembers(e, c)[i].name !in FORBIDDEN
      && KnownMembers(e, c)[i].name != "urn"
    ensures forall j :: i < j < |KnownMembers(e, c)| ==> KnownMembers(e, c)[j].name != KnownMembers(e, c)[i].name
  {
    hide StringTree, IntTree, MetaTree, DeadLetterTree, Encodable;
    assert "data"[0] == 'd' && "meta"[0] == 'm' && "attempts"[0] == 'a' && "trace_id"[0] == 't' && "job"[0] == 'j'
      && "urn"[0] == 'u';
    assert |"timestamp"| == 9 && |"dead_letter"| == 11;
  }

  lemma FieldReads(e: Envelope, c: Carried, i: nat)
    requires IsWritten(e, c) && e.extras.Keys !! KNOWN + FORBIDDEN && i < |KnownMembers(e, c)|
    ensures var ms := EnvelopeMembers(e, c); var m := KnownMembers(e, c)[i]; Last(ms, |ms|, m.name) == Some(m.value)
  {
    KnownNames(e, c, i);
    hide KnownMembers, Encodable, KNOWN, FORBIDDEN;
    LastKnown(KnownMembers(e, c), c.extras, e.extras, i);
  }

  lemma AbsentReads(e: Envelope, c: Carried, name: string)
    requires IsWritten(e, c) && name !in e.extras
    requires forall j :: 0 <= j < |KnownMembers(e, c)| ==> KnownMembers(e, c)[j].name != name
    ensures var ms := EnvelopeMembers(e, c); Last(ms, |ms|, name) == None
  {
    hide KnownMembers, Encodable;
    LastUnlisted(KnownMembers(e, c), c.extras, e.extras, name);
  }

  /** What each field of the document reads as. */
  lemma FieldsRead(canon: Canon, e: Envelope, c: Carried)
    requires Canonical(canon, e) && IsWritten(e, c)
    ensures var ms := EnvelopeMembers(e, c); var n := |ms|;
      && Last(ms, n, "job") == Some(StringTree(e.job)) && Last(ms, n, "trace_id") == Some(StringTree(e.traceId))
      && Last(ms, n, "data") == Some(if e.data.Some? then e.data.value else Literal("null"))
      && Last(ms, n, "meta") == Some(MetaTree(e, c)) && Last(ms, n, "attempts") == Some(IntTree(e.attempts))
      && Last(ms, n, "dead_letter") == (if e.deadLetter.Some? then Some(DeadLetterTree(e.deadLetter.value)) else None)
      && Last(ms, n, "urn") == None
  {
    hide EnvelopeMembers, Last, StringTree, IntTree, MetaTree, DeadLetterTree, Encodable, KNOWN, FORBIDDEN;
    FieldReads(e, c, 0);
    FieldReads(e, c, 1);
    FieldReads(e, c, 2);
    FieldReads(e, c, 3);
    FieldReads(e, c, 4);
    UrnIsAbsent(canon, e, c);
    if e.deadLetter.Some? {
      FieldReads(e, c, 5);
    } else {
      DeadLetterIsAbsent(canon, e, c);
    }
  }

  lemma UrnIsAbsent(canon: Canon, e: Envelope, c: Carried)
    requires Canonical(canon, e) && IsWritten(e, c)
    ensures var ms := EnvelopeMembers(e, c); Last(ms, |ms|, "urn") == None
  {
    assert "urn" in KNOWN;
    hide EnvelopeMembers, Last, Encodable, KNOWN, FORBIDDEN;
    forall j | 0 <= j < |KnownMembers(e, c)| ensures KnownMembers(e, c)[j].name != "urn" { KnownNames(e, c, j); }
    hide KnownMembers;
    AbsentReads(e, c, "urn");
  }

  lemma FrameNames(e: Envelope, c: Carried, j: nat)
    requires IsWritten(e, c) && j < 5
    ensures FrameMembers(e, c)[j].name != "dead_letter"
  {
    hide StringTree, IntTree, MetaTree, Encodable;
    assert |"dead_letter"| == 11;
  }

  lemma DeadLetterIsAbsent(canon: Canon, e: Envelope, c: Carried)
    requires Canonical(canon, e) && IsWritten(e, c) && e.deadLetter == None
    ensures var ms := EnvelopeMembers(e, c); Last(ms, |ms|, "dead_letter") == None
  {
    assert "dead_letter" in KNOWN;
    assert KnownMembers(e, c) == FrameMembers(e, c) && |FrameMembers(e, c)| == 5;
    hide EnvelopeMembers, KnownMembers, FrameMembers, Last, Encodable, KNOWN, FORBIDDEN;
    forall j | 0 <= j < |KnownMembers(e, c)| ensures KnownMembers(e, c)[j].name != "dead_letter" {
      FrameNames(e, c, j);
    }
    AbsentReads(e, c, "dead_letter");
  }

  lemma RestReads(canon: Canon, e: Envelope, c: Carried)
    requires Canonical(canon, e) && IsWritten(e, c)
    ensures var ms := EnvelopeMembers(e, c);
      Unknown(ms, |ms|, KNOWN + FORBIDDEN) == CompactAll(e.extras) && Seen(ms, |ms|, FORBIDDEN) == {}
  {
    hide Unknown, Seen, CompactAll, KnownMembers, Encodable, SortedMembers, KNOWN, FORBIDDEN;
    forall j | 0 <= j < |KnownMembers(e, c)| ensures KnownMembers(e, c)[j].name in KNOWN
      && KnownMembers(e, c)[j].name !in FORBIDDEN {
      KnownNames(e, c, j);
    }
    UnknownAre(KnownMembers(e, c), c.extras, e.extras, KNOWN + FORBIDDEN);
    NothingSeen(KnownMembers(e, c), c.extras, e.extras, FORBIDDEN);
  }

  lemma TextReads(s: string)
    requires ValidUtf8(s)
    ensures JobField(Some(StringTree(s))) == StringField(Some(StringTree(s))) == s
    ensures IdentityField(Some(StringTree(s))) == Some(s)
  {
    hide StringTree, StringOf;
    StringRoundTrip(s);
  }

  lemma NumberReads(n: int)
    requires IsInt64(n)
    ensures IntField(Some(IntTree(n))) == n
  {
    hide IntTree, AssignInt;
    IntRoundTrip(n);
  }

  function DataTree(e: Envelope): Value { if e.data.Some? then e.data.value else Literal("null") }

  lemma DataReads(canon: Canon, e: Envelope)
    requires Canonical(canon, e)
    ensures DataField(canon, Some(DataTree(e))) == e.data && AssignData(canon, DataTree(e)).Some?
  {
    hide Encodable;
  }

  lemma DeadLetterValueReads(canon: Canon, e: Envelope)
    requires Canonical(canon, e)
    ensures DeadLetterField(if e.deadLetter.Some? then Some(DeadLetterTree(e.deadLetter.value)) else None) ==
      e.deadLetter
  {
    if e.deadLetter.Some? {
      DeadLetterBlockReads(e.deadLetter.value);
    }
    hide DeadLetterTree, DeadLetterOf, MembersOf, Encodable;
  }

  lemma NothingReads()
    ensures IdentityField(None) == None
  {
  }

  lemma DocumentCollects(canon: Canon, e: Envelope, c: Carried)
    requires Canonical(canon, e) && IsWritten(e, c)
    ensures var ms := EnvelopeMembers(e, c);
      Collected(canon, ms, |ms|) == Parts(e.job, false, e.traceId, e.data, e.attempts,
        MetaState(e.meta, CompactAll(e.metaExtras), {}), e.deadLetter, None, false, {}, CompactAll(e.extras))
  {
    hide EnvelopeMembers, Last, StringTree, IntTree, MetaTree, DeadLetterTree, MetaField, DeadLetterField, DataField,
      IntField, StringField, JobField, IdentityField, Unknown, Seen, CompactAll, RawOk, ValidUtf8, KNOWN, FORBIDDEN;
    FieldsRead(canon, e, c);
    RestReads(canon, e, c);
    MetaBlockReads(canon, e, c);
    DeadLetterValueReads(canon, e);
    TextReads(e.job);
    TextReads(e.traceId);
    DataReads(canon, e);
    NumberReads(e.attempts);
    NothingReads();
  }

  lemma OtherMemberPasses(canon: Canon, m: Member)
    requires ValueOk(m.value) && m.name !in KNOWN
    ensures !MemberFails(canon, m)
  {
    hide MetaBlockFails, DeadLetterBlockFails, AssignData, AssignString, AssignInt;
  }

  lemma JobPasses(canon: Canon, v: Value)
    requires ValueOk(v)
    ensures !MemberFails(canon, Member("job", v))
  {
    hide MetaBlockFails, DeadLetterBlockFails, AssignData, AssignString, AssignInt;
    assert |"job"| == 3 && |"data"| == 4 && |"meta"| == 4;
  }

  lemma TracePasses(canon: Canon, s: string)
    requires ValidUtf8(s)
    ensures !MemberFails(canon, Member("trace_id", StringTree(s)))
  {
    hide StringTree, MetaBlockFails, DeadLetterBlockFails, AssignData, AssignString, AssignInt;
    StringRoundTrip(s);
    assert "trace_id"[0] == 't' && "attempts"[0] == 'a';
  }

  lemma DataPasses(canon: Canon, v: Value)
    requires ValueOk(v) && AssignData(canon, v).Some?
    ensures !MemberFails(canon, Member("data", v))
  {
    hide MetaBlockFails, DeadLetterBlockFails, AssignData, AssignString, AssignInt;
    assert "data"[0] == 'd' && "meta"[0] == 'm';
  }

  lemma MetaMemberPasses(canon: Canon, v: Value)
    requires ValueOk(v) && !MetaBlockFails(v)
    ensures !MemberFails(canon, Member("meta", v))
  {
    hide MetaBlockFails, DeadLetterBlockFails, AssignData, AssignString, AssignInt;
    assert "data"[0] == 'd' && "meta"[0] == 'm';
  }

  lemma AttemptsPasses(canon: Canon, n: int)
    requires IsInt64(n)
    ensures !MemberFails(canon, Member("attempts", IntTree(n)))
  {
    hide IntTree, MetaBlockFails, DeadLetterBlockFails, AssignData, AssignString, AssignInt;
    IntRoundTrip(n);
    assert "trace_id"[0] == 't' && "attempts"[0] == 'a';
  }

  lemma DeadLetterMemberPasses(canon: Canon, v: Value)
    requires ValueOk(v) && !DeadLetterBlockFails(v)
    ensures !MemberFails(canon, Member("dead_letter", v))
  {
    hide MetaBlockFails, DeadLetterBlockFails, AssignData, AssignString, AssignInt;
  }

  lemma KnownPasses(canon: Canon, e: Envelope, c: Carried, i: nat)
    requires Canonical(canon, e) && IsWritten(e, c) && i < |KnownMembers(e, c)| && ValueOk(KnownMembers(e, c)[i].value)
    ensures !MemberFails(canon, KnownMembers(e, c)[i])
  {
    hide MemberFails, MetaTree, DeadLetterTree, StringTree, IntTree, RawOk, ValidUtf8, ValueOk;
    match i
    case 0 => JobPasses(canon, StringTree(e.job));
    case 1 => TracePasses(canon, e.traceId);
    case 2 =>
      DataReads(canon, e);
      DataPasses(canon, DataTree(e));
    case 3 =>
      MetaBlockReads(canon, e, c);
      MetaMemberPasses(canon, MetaTree(e, c));
    case 4 => AttemptsPasses(canon, e.attempts);
    case _ =>
      DeadLetterBlockReads(e.deadLetter.value);
      DeadLetterMemberPasses(canon, DeadLetterTree(e.deadLetter.value));
  }

  lemma DocumentMemberPasses(canon: Canon, e: Envelope, c: Carried, i: nat)
    requires Canonical(canon, e) && IsWritten(e, c) && i < |EnvelopeMembers(e, c)|
    requires ValueOk(EnvelopeMembers(e, c)[i].value)
    ensures !MemberFails(canon, EnvelopeMembers(e, c)[i])
  {
    hide MemberFails, KnownMembers, Encodable, ValueOk, SortedMembers, KNOWN, FORBIDDEN;
    var m := EnvelopeMembers(e, c)[i];
    if i < |KnownMembers(e, c)| {
      KnownPasses(canon, e, c, i);
    } else {
      assert m == c.extras[i - |KnownMembers(e, c)|];
      RawName(c.extras, e.extras, i - |KnownMembers(e, c)|);
      OtherMemberPasses(canon, m);
    }
  }

  lemma DocumentPasses(canon: Canon, e: Envelope, c: Carried)
    requires Canonical(canon, e) && IsWritten(e, c)
    ensures MembersOk(EnvelopeMembers(e, c)) && NoMemberFails(canon, EnvelopeMembers(e, c), |EnvelopeMembers(e, c)|)
  {
    assert Encodable(e);
    hide MemberFails, EnvelopeMembers, Canonical, Encodable, ValueOk, ValidUtf8, AllOk;
    EnvelopeMembersOk(e, c);
    AllOkMeans(EnvelopeMembers(e, c), MAX_NESTING_DEPTH - 1);
    forall i | 0 <= i < |EnvelopeMembers(e, c)| ensures !MemberFails(canon, EnvelopeMembers(e, c)[i]) {
      DocumentMemberPasses(canon, e, c, i);
    }
  }

  lemma PlainResolves(e: Envelope)
    requires !AsciiSpace.IsBlank(e.job)
    ensures Resolved(Parts(e.job, false, e.traceId, e.data, e.attempts,
      MetaState(e.meta, CompactAll(e.metaExtras), {}), e.deadLetter,
      None, false, {}, CompactAll(e.extras))) == Ok(AsWritten(e))
  {
    assert Sorted({}) == [];
    hide CompactAll;
  }

  // ---------- The round trip ----------

  lemma TreeRoundTrip(canon: Canon, e: Envelope, c: Carried)
    requires Canonical(canon, e) && IsWritten(e, c)
    ensures var v := EnvelopeTree(e, c); ValueOk(v) && ValueDepth(v) <= MAX_NESTING_DEPTH && IsObject(v)
    ensures DecodeValue(canon, EnvelopeTree(e, c)) == Ok(AsWritten(e))
  {
    EnvelopeMembersOk(e, c);
    AllOkMeans(EnvelopeMembers(e, c), MAX_NESTING_DEPTH - 1);
    ObjectRoundTrip(EnvelopeMembers(e, c), MAX_NESTING_DEPTH - 1);
    DocumentPasses(canon, e, c);
    DocumentCollects(canon, e, c);
    PlainResolves(e);
    hide EnvelopeMembers, Collected, Resolved, NoMemberFails, AsWritten, AllOk, MembersOf, Encodable, ObjectOf;
  }

  /** A canonical envelope holds nothing Encode refuses. */
  lemma CanonicalEncodes(canon: Canon, e: Envelope)
    requires Canonical(canon, e)
    ensures !HoldsReservedKey(e)
  {
    assert "urn" in KNOWN;
    hide Encodable, KNOWN, FORBIDDEN, CORE_META, FORBIDDEN_META;
  }

  lemma ObjectIsNotNull(v: Value)
    requires IsObject(v)
    ensures !IsJsonNull(DocText(Doc("", v, "")))
  {
    var s := DocText(Doc("", v, ""));
    assert s[0] == '{';
    assert SpaceLength(s) == 0;
    assert "null"[0] == 'n';
  }

  /** In whatever order the raw members are written, decoding gives the envelope back, up to white space in carried raw
      values, without warnings. */
  lemma WrittenRoundTrip(canon: Canon, e: Envelope, c: Carried)
    requires Canonical(canon, e) && IsWritten(e, c)
    ensures EncodeWith(e, c).Some? && DecodeBody(canon, EncodeWith(e, c).value) == Ok(AsWritten(e))
  {
    CanonicalEncodes(canon, e);
    TreeRoundTrip(canon, e, c);
    hide EnvelopeTree, DecodeValue, IsJsonNull, AsWritten, IsWritten, ValueOk, ValueDepth, DocText;
    var d := Doc("", EnvelopeTree(e, c), "");
    ObjectIsNotNull(EnvelopeTree(e, c));
    ReadingIsUnique(d, DocText(d));
  }

  /** Decode(Encode(e)) is e, up to white space in carried raw values, without warnings. */
  lemma RoundTrip(canon: Canon, e: Envelope)
    requires Canonical(canon, e)
    ensures EncodeBody(e).Some? && DecodeBody(canon, EncodeBody(e).value) == Ok(AsWritten(e))
  {
    AscendingIsWritten(e);
    WrittenRoundTrip(canon, e, Ascending(e));
    hide EncodeWith, DecodeBody, AsWritten, IsWritten;
  }

  // ---------- One pass is a fixed point ----------

  /** map[string]any writes what it will read again, no deeper than what it read. */
  ghost predicate CanonOk(canon: Canon) {
    forall v | ValueOk(v) && IsObject(v) && canon(v).Some? ::
      var u := canon(v).value;
      ValueOk(u) && IsObject(u) && canon(u) == Some(u) && Compact(u) == u && ValueDepth(u) <= ValueDepth(v)
  }

  lemma {:induction false} LastIsMember(ms: seq<Member>, n: nat, name: string)
    requires n <= |ms| && Last(ms, n, name).Some?
    ensures exists i :: 0 <= i < n && ms[i].name == name && ms[i].value == Last(ms, n, name).value
  {
    if ms[n - 1].name != name { LastIsMember(ms, n - 1, name); }
  }

  predicate ShallowMembers(ms: seq<Member>, depth: int) {
    forall i :: 0 <= i < |ms| ==> ValidUtf8(ms[i].name) && ValueOk(ms[i].value) && ValueDepth(ms[i].value) <= depth
  }

  lemma UnknownIsRaw(ms: seq<Member>, own: set<string>, depth: int)
    requires ShallowMembers(ms, depth)
    ensures RawOk(Unknown(ms, |ms|, own), depth) && Unknown(ms, |ms|, own).Keys !! own
  {
    var m := Unknown(ms, |ms|, own);
    forall k | k in m ensures k !in own && ValidUtf8(k) && ValueOk(m[k]) && ValueDepth(m[k]) <= depth {
      UnknownIsLast(ms, |ms|, own, k);
      LastIsMember(ms, |ms|, k);
    }
  }

  lemma StringFieldIsText(v: Option<Value>)
    ensures ValidUtf8(StringField(v)) && ValidUtf8(JobField(v))
    ensures IdentityField(v).Some? ==> ValidUtf8(IdentityField(v).value)
    ensures PointerField(v).Some? ==> ValidUtf8(PointerField(v).value)
    ensures IsInt64(IntField(v))
  {
    hide Meaning, Coerce;
  }

  lemma MetaIsText(ms: seq<Member>)
    ensures var m := MetaOf(ms, |ms|); MetaTextOk(m) && IsInt64(m.schemaVersion) && IsInt64(m.createdAt)
  {
    hide Last, StringField, IntField, ValidUtf8;
    StringFieldIsText(Last(ms, |ms|, "id"));
    StringFieldIsText(Last(ms, |ms|, "queue"));
    StringFieldIsText(Last(ms, |ms|, "lang"));
    StringFieldIsText(Last(ms, |ms|, "schema_version"));
    StringFieldIsText(Last(ms, |ms|, "created_at"));
  }

  lemma DeadLetterIsText(ms: seq<Member>)
    ensures var d := DeadLetterOf(ms, |ms|); DeadLetterTextOk(d) && DeadLetterNumbersOk(d)
  {
    hide Last, StringField, IntField, PointerField, ValidUtf8;
    StringFieldIsText(Last(ms, |ms|, "reason"));
    StringFieldIsText(Last(ms, |ms|, "error"));
    StringFieldIsText(Last(ms, |ms|, "exception"));
    StringFieldIsText(Last(ms, |ms|, "failed_at"));
    StringFieldIsText(Last(ms, |ms|, "original_queue"));
    StringFieldIsText(Last(ms, |ms|, "attempts"));
    StringFieldIsText(Last(ms, |ms|, "lang"));
  }

  lemma BlockIsShallow(v: Option<Value>, depth: int)
    requires v.Some? ==> ValueOk(v.value) && ValueDepth(v.value) <= depth
    ensures Block(v).Some? ==> ShallowMembers(Block(v).value, depth - 1)
  {
    if Block(v).Some? { MembersOfOk(v.value); }
    hide ValidUtf8;
  }

  lemma LastIsShallow(ms: seq<Member>, name: string, depth: int)
    requires ShallowMembers(ms, depth)
    ensures var v := Last(ms, |ms|, name); v.Some? ==> ValueOk(v.value) && ValueDepth(v.value) <= depth
  {
    if Last(ms, |ms|, name).Some? { LastIsMember(ms, |ms|, name); }
    hide ValidUtf8;
  }

  lemma MetaFieldIsOk(v: Option<Value>, depth: int)
    requires v.Some? ==> ValueOk(v.value) && ValueDepth(v.value) <= depth
    ensures var m := MetaField(v);
      && MetaTextOk(m.meta) && IsInt64(m.meta.schemaVersion) && IsInt64(m.meta.createdAt)
      && RawOk(m.extras, depth - 1) && m.extras.Keys !! CORE_META + FORBIDDEN_META
  {
    hide MetaOf, Unknown, Seen, Block, ShallowMembers, CORE_META, FORBIDDEN_META;
    BlockIsShallow(v, depth);
    if Block(v).Some? {
      MetaIsText(Block(v).value);
      UnknownIsRaw(Block(v).value, CORE_META + FORBIDDEN_META, depth - 1);
    }
  }

  lemma DeadLetterFieldIsOk(v: Option<Value>)
    ensures var d := DeadLetterField(v); d.Some? ==> DeadLetterTextOk(d.value) && DeadLetterNumbersOk(d.value)
  {
    hide DeadLetterOf, Block;
    if Block(v).Some? {
      DeadLetterIsText(Block(v).value);
    }
  }

  lemma DataFieldIsOk(canon: Canon, v: Option<Value>, depth: int)
    requires CanonOk(canon) && (v.Some? ==> ValueOk(v.value) && ValueDepth(v.value) <= depth)
    ensures var d := DataField(canon, v);
      d.Some? ==>
        && ValueOk(d.value) && ValueDepth(d.value) <= depth && IsObject(d.value)
        && canon(d.value) == Some(d.value) && Compact(d.value) == d.value
  {
  }

  lemma ResolvedIsCanonical(canon: Canon, p: Parts)
    requires Resolved(p).Ok?
    requires ValidUtf8(p.job) && (p.alias.Some? ==> ValidUtf8(p.alias.value)) && ValidUtf8(p.traceId)
      && IsInt64(p.attempts)
    requires MetaTextOk(p.meta.meta) && IsInt64(p.meta.meta.schemaVersion) && IsInt64(p.meta.meta.createdAt)
    requires RawOk(p.meta.extras, MAX_NESTING_DEPTH - 2) && p.meta.extras.Keys !! CORE_META + FORBIDDEN_META
    requires RawOk(p.extras, MAX_NESTING_DEPTH - 1) && p.extras.Keys !! KNOWN + FORBIDDEN
    requires p.deadLetter.Some? ==> DeadLetterTextOk(p.deadLetter.value) && DeadLetterNumbersOk(p.deadLetter.value)
    requires p.data.Some? ==> ValueOk(p.data.value) && ValueDepth(p.data.value) <= MAX_NESTING_DEPTH - 1
    requires p.data.Some? ==>
      IsObject(p.data.value) && canon(p.data.value) == Some(p.data.value) && Compact(p.data.value) == p.data.value
    ensures Canonical(canon, Resolved(p).envelope)
  {
    hide RawOk, MetaTextOk, DeadLetterTextOk, ValidUtf8, ValueOk, ValueDepth, DroppedKeys, KNOWN, FORBIDDEN,
      CORE_META, FORBIDDEN_META;
  }

  /** Whatever Decode accepts is canonical. */
  lemma MembersDecodeCanonically(canon: Canon, ms: seq<Member>)
    requires CanonOk(canon) && MembersOk(ms) && ShallowMembers(ms, MAX_NESTING_DEPTH - 1)
      && DecodeMembers(canon, ms).Ok?
    ensures Canonical(canon, DecodeMembers(canon, ms).envelope)
  {
    hide Canonical, Resolved, Last, Unknown, Seen, JobField, IdentityField, StringField, DataField, IntField,
      MetaField, DeadLetterField, CanonOk, ShallowMembers, NoMemberFails, RawOk, MetaTextOk, DeadLetterTextOk,
      ValidUtf8, KNOWN, FORBIDDEN, CORE_META, FORBIDDEN_META;
    var n := |ms|;
    var deep := MAX_NESTING_DEPTH - 1;
    StringFieldIsText(Last(ms, n, "job"));
    StringFieldIsText(Last(ms, n, "urn"));
    StringFieldIsText(Last(ms, n, "trace_id"));
    StringFieldIsText(Last(ms, n, "attempts"));
    LastIsShallow(ms, "data", deep);
    LastIsShallow(ms, "meta", deep);
    DataFieldIsOk(canon, Last(ms, n, "data"), deep);
    MetaFieldIsOk(Last(ms, n, "meta"), deep);
    DeadLetterFieldIsOk(Last(ms, n, "dead_letter"));
    UnknownIsRaw(ms, KNOWN + FORBIDDEN, deep);
    ResolvedIsCanonical(canon, Collected(canon, ms, n));
  }

  lemma DecodesCanonically(canon: Canon, body: string)
    requires CanonOk(canon) && DecodeBody(canon, body).Ok?
    ensures Canonical(canon, DecodeBody(canon, body).envelope)
  {
    hide Canonical, DecodeMembers, CanonOk, ValidUtf8;
    var d := ParseDoc(body).value;
    var ms := BlockMembers(d.value).value;
    MembersOfOk(d.value);
    assert ShallowMembers(ms, MAX_NESTING_DEPTH - 1);
    MembersDecodeCanonically(canon, ms);
  }

  lemma CompactAllTwice(m: map<string, Value>)
    ensures CompactAll(CompactAll(m)) == CompactAll(m)
    ensures SortedMembers(CompactAll(m)) == SortedMembers(m)
  {
    forall k | k in m ensures Compact(Compact(m[k])) == Compact(m[k]) { CompactIs(m[k]); }
    assert CompactAll(m).Keys == m.Keys;
  }

  lemma PlainIsAscending(e: Envelope)
    ensures Ascending(AsWritten(e)) == Ascending(e)
  {
    CompactAllTwice(e.extras);
    CompactAllTwice(e.metaExtras);
    hide CompactAll, SortedMembers;
  }

  lemma PlainMembers(e: Envelope, c: Carried)
    requires IsWritten(e, c) && IsWritten(AsWritten(e), c)
    ensures EnvelopeMembers(AsWritten(e), c) == EnvelopeMembers(e, c)
  {
    assert MetaTree(AsWritten(e), c) == MetaTree(e, c);
    hide CompactAll, MetaTree, DeadLetterTree, StringTree, IntTree, IsWritten;
  }

  lemma PlainIsCanonical(canon: Canon, e: Envelope)
    requires Canonical(canon, e)
    ensures Canonical(canon, AsWritten(e))
  {
    PlainIsEncodable(e);
    assert CompactAll(e.extras).Keys == e.extras.Keys && CompactAll(e.metaExtras).Keys == e.metaExtras.Keys;
    hide CompactAll, Encodable, KNOWN, FORBIDDEN, CORE_META, FORBIDDEN_META;
  }

  /** What is forgotten is not written: the plain envelope encodes to the same bytes. */
  lemma PlainEncodesAlike(canon: Canon, e: Envelope)
    requires Canonical(canon, e)
    ensures Canonical(canon, AsWritten(e)) && EncodeBody(AsWritten(e)) == EncodeBody(e)
  {
    PlainIsCanonical(canon, e);
    AscendingIsWritten(e);
    AscendingIsWritten(AsWritten(e));
    hide Canonical, AsWritten, HoldsReservedKey, EnvelopeMembers, IsWritten, Ascending, ObjectOf, DocText;
    CanonicalEncodes(canon, e);
    CanonicalEncodes(canon, AsWritten(e));
    PlainIsAscending(e);
    PlainMembers(e, Ascending(e));
  }

  lemma CompactRawOk(m: map<string, Value>, depth: int)
    requires RawOk(m, depth)
    ensures RawOk(CompactAll(m), depth)
  {
    forall k | k in m ensures ValueOk(Compact(m[k]))
      && ValueDepth(Compact(m[k])) == ValueDepth(m[k]) { CompactIs(m[k]); }
    hide Compact, ValidUtf8;
  }

  lemma PlainIsEncodable(e: Envelope)
    requires Encodable(e)
    ensures Encodable(AsWritten(e))
  {
    CompactRawOk(e.extras, MAX_NESTING_DEPTH - 1);
    CompactRawOk(e.metaExtras, MAX_NESTING_DEPTH - 2);
    hide CompactAll, RawOk, ValidUtf8;
  }

  /** Every body with an identity: re-encoding what was decoded, and decoding that, changes nothing more. */
  lemma OnePassIsAFixedPoint(canon: Canon, body: string)
    requires CanonOk(canon) && DecodeBody(canon, body).Ok?
    ensures var e := DecodeBody(canon, body).envelope;
      && Canonical(canon, e) && EncodeBody(e).Some?
      && var next := EncodeBody(e).value;
      && DecodeBody(canon, next) == Ok(AsWritten(e))
      && Encodable(AsWritten(e)) && EncodeBody(AsWritten(e)) == Some(next)
  {
    hide DecodeBody, EncodeBody, AsWritten, CanonOk, Encodable;
    DecodesCanonically(canon, body);
    var e := DecodeBody(canon, body).envelope;
    RoundTrip(canon, e);
    PlainEncodesAlike(canon, e);
  }
}
