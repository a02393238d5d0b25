/**
  The bytes Encode writes, read off without its trees: which key stands where, and which field of the envelope
  follows it.
 */
module EnvelopeFrame {
  import opened Wrappers
  import opened JsonGrammar
  import opened JsonStrings
  import opened Utf8
  import opened Decimal
  import opened KeyOrder
  import opened PoisonScanner
  import opened PoisonRecord
  import opened EnvelopeFields
  import opened EnvelopeDecode
  import opened EnvelopeEncode
  import opened EnvelopeText
  import opened EnvelopeMarshal
  import JsonCompact

  /** One member: its key in quotes, and the text of its value. */
  datatype Part = Part(key: string, text: string)

  function Fields(ps: seq<Part>): string {
    if ps == [] then ""
    else ps[0].key + ":" + ps[0].text + if |ps| == 1 then "" else "," + Fields(ps[1..])
  }

  /** A JSON object without white space. */
  function Object(ps: seq<Part>): string { "{" + Fields(ps) + "}" }

  function PartOf(m: Member): Part
    requires ValidUtf8(m.name)
  {
    Part(MarshalString(m.name), ValueThen(m.value, ""))
  }

  function Parts(ms: seq<Member>): (ps: seq<Part>)
    requires NamesOk(ms)
    ensures |ps| == |ms| && forall i :: 0 <= i < |ms| ==> ps[i] == PartOf(ms[i])
  {
    seq(|ms|, i requires 0 <= i < |ms| => PartOf(ms[i]))
  }

  lemma {:induction false} InnerIsFields(ms: seq<Member>)
    requires NamesOk(ms)
    ensures Inner(ms) == Fields(Parts(ms))
  {
    if ms != [] {
      EntryString(ms[0]);
      hide EntryThen, MarshalString, ValueThen;
      if |ms| > 1 {
        InnerIsFields(ms[1..]);
        assert Parts(ms)[1..] == Parts(ms[1..]);
        EntrySplits(EntryOf(ms[0]), [','] + EntriesThen(EntriesOf(ms[1..]), ""));
      }
    }
  }

  lemma EntrySplits(e: Entry, rest: string)
    ensures EntryThen(e, rest) == EntryThen(e, "") + rest
  {
    EntriesSplit(Single(e), "", rest);
    assert "" + rest == rest;
    hide EntryThen;
  }

  /** The text of a written object. */
  lemma ObjectText(ms: seq<Member>)
    requires NamesOk(ms)
    ensures ValueThen(ObjectOf(ms), "") == Object(Parts(ms))
  {
    ObjectStringIs(ms);
    InnerIsFields(ms);
    hide ValueThen, Inner, Parts, ObjectOf;
  }

  // ---------- The texts of keys and values ----------

  predicate IsPlain(s: string) { forall i :: 0 <= i < |s| ==> ' ' <= s[i] <= '~' && s[i] != '\"' && s[i] != '\\' }

  /** Printable ASCII without quotes and backslashes is written as it is. */
  lemma {:induction false} PlainText(s: string)
    requires IsPlain(s)
    ensures ValidUtf8(s) && MarshalString(s) == "\"" + s + "\""
  {
    AsciiIsValid(s);
    PlainItems(s);
    ItemsThenPlains(s, [], "\"");
    assert Plains(s) + [] == Plains(s) && ['\"'] + "" == "\"";
    assert ItemsThen([], "\"") == "\"";
    hide Quote, ItemsThen, Plains, ValidUtf8;
  }

  lemma {:induction false} PlainItems(s: string)
    requires IsPlain(s) && ValidUtf8(s)
    ensures Quote(s) == Plains(s)
  {
    hide *;
    NothingQuoted();
    if s != "" {
      PlainFirst(s);
      QuoteFirst(s);
      PlainItems(s[1..]);
    }
  }

  lemma NothingQuoted()
    ensures ValidUtf8("") && Quote("") == [] == Plains("")
  {
  }

  lemma PlainFirst(s: string)
    requires IsPlain(s) && s != ""
    ensures RuneLength(s) == 1 && QuoteRune(s[..1]) == [Plain(s[0])] && IsPlain(s[1..])
    ensures Plains(s) == [Plain(s[0])] + Plains(s[1..])
  {
    hide RuneLength, QuoteRune, Plains;
    FirstAndRest(s);
    PlainsFirst(s);
    PlainRune(s[0]);
    RuneLengthPrefix([s[0]], s[1..]);
  }

  lemma FirstAndRest(s: string)
    requires s != ""
    ensures s[..1] == [s[0]] && s == [s[0]] + s[1..]
  {
  }

  lemma PlainsFirst(s: string)
    requires s != ""
    ensures Plains(s) == [Plain(s[0])] + Plains(s[1..])
  {
  }

  lemma {:induction false} QuoteFirst(s: string)
    requires RuneLength(s) == 1 && ValidUtf8(s)
    ensures ValidUtf8(s[1..]) && Quote(s) == QuoteRune(s[..1]) + Quote(s[1..])
  {
    hide QuoteRune, RuneLength;
  }

  lemma PlainRune(c: char)
    requires IsPlain([c])
    ensures RuneLength([c]) == 1 && QuoteRune([c]) == [Plain(c)]
  {
    assert [c][0] == c;
  }

  lemma StringText(s: string)
    requires ValidUtf8(s)
    ensures ValueThen(StringTree(s), "") == MarshalString(s)
  {
  }

  lemma IntText(n: int)
    ensures ValueThen(IntTree(n), "") == Itoa(n)
  {
    hide Digits;
  }

  // ---------- The frame ----------

  function MetaParts(m: Meta): seq<Part>
    requires MetaTextOk(m)
  {
    [Part("\"id\"", MarshalString(m.id)), Part("\"queue\"", MarshalString(m.queue)),
     Part("\"lang\"", MarshalString(m.lang)), Part("\"schema_version\"", Itoa(m.schemaVersion)),
     Part("\"created_at\"", Itoa(m.createdAt))]
  }

  /** A string, or null. */
  function PointerText(p: Option<string>): string
    requires p.Some? ==> ValidUtf8(p.value)
  {
    match p case None => "null" case Some(s) => MarshalString(s)
  }

  function DeadLetterParts(d: DeadLetter): seq<Part>
    requires DeadLetterTextOk(d)
  {
    [Part("\"reason\"", MarshalString(d.reason)), Part("\"error\"", PointerText(d.error)),
     Part("\"exception\"", PointerText(d.exception)), Part("\"failed_at\"", Itoa(d.failedAt)),
     Part("\"original_queue\"", MarshalString(d.originalQueue)), Part("\"attempts\"", Itoa(d.attempts)),
     Part("\"lang\"", MarshalString(d.lang))]
  }

  /** The envelope's own members, around the text of its meta. */
  function FrameParts(e: Envelope, meta: string): seq<Part>
    requires Encodable(e)
  {
    [Part("\"job\"", MarshalString(e.job)), Part("\"trace_id\"", MarshalString(e.traceId)),
     Part("\"data\"", if e.data.Some? then ValueThen(e.data.value, "") else "null"), Part("\"meta\"", meta),
     Part("\"attempts\"", Itoa(e.attempts))]
  }

  function DeadLetterEnd(d: Option<DeadLetter>): seq<Part>
    requires d.Some? ==> DeadLetterTextOk(d.value)
  {
    if d.Some? then [Part("\"dead_letter\"", Object(DeadLetterParts(d.value)))] else []
  }

  lemma StringPart(name: string, key: string, s: string)
    requires IsPlain(name) && key == "\"" + name + "\"" && ValidUtf8(s)
    ensures ValidUtf8(name) && PartOf(Member(name, StringTree(s))) == Part(key, MarshalString(s))
  {
    PlainText(name);
    StringText(s);
    hide MarshalString, ValueThen, StringTree;
  }

  lemma IntPart(name: string, key: string, n: int)
    requires IsPlain(name) && key == "\"" + name + "\""
    ensures ValidUtf8(name) && PartOf(Member(name, IntTree(n))) == Part(key, Itoa(n))
  {
    PlainText(name);
    IntText(n);
    hide MarshalString, ValueThen, IntTree, Itoa;
  }

  lemma PointerPart(name: string, key: string, p: Option<string>)
    requires IsPlain(name) && key == "\"" + name + "\"" && (p.Some? ==> ValidUtf8(p.value))
    ensures ValidUtf8(name) && PartOf(Member(name, PointerTree(p))) == Part(key, PointerText(p))
  {
    PlainText(name);
    if p.Some? { StringText(p.value); }
    hide MarshalString, StringTree;
  }

  lemma TreePart(name: string, key: string, v: Value)
    requires IsPlain(name) && key == "\"" + name + "\""
    ensures ValidUtf8(name) && PartOf(Member(name, v)) == Part(key, ValueThen(v, ""))
  {
    PlainText(name);
    hide MarshalString, ValueThen;
  }

  lemma PartsConcat(a: seq<Member>, b: seq<Member>)
    requires NamesOk(a) && NamesOk(b)
    ensures NamesOk(a + b) && Parts(a + b) == Parts(a) + Parts(b)
  {
    hide PartOf, ValidUtf8;
  }

  /** Member i is written as part i. */
  ghost predicate IsPartAt(ms: seq<Member>, ps: seq<Part>, i: nat) {
    i < |ms| && i < |ps| && ValidUtf8(ms[i].name) && PartOf(ms[i]) == ps[i]
  }

  lemma PartsAre(ms: seq<Member>, ps: seq<Part>)
    requires |ms| == |ps| && forall i: nat :: i < |ms| ==> IsPartAt(ms, ps, i)
    ensures NamesOk(ms) && Parts(ms) == ps
  {
    forall i: nat | i < |ms| ensures ValidUtf8(ms[i].name) && PartOf(ms[i]) == ps[i] { assert IsPartAt(ms, ps, i); }
    hide PartOf, ValidUtf8;
  }

  lemma MetaStrings(m: Meta)
    requires MetaTextOk(m)
    ensures forall i: nat :: i < 3 ==> IsPartAt(MetaMembers(m), MetaParts(m), i)
  {
    hide PartOf, MarshalString, Itoa, ValidUtf8, StringTree, IntTree;
    StringPart("id", "\"id\"", m.id);
    StringPart("queue", "\"queue\"", m.queue);
    StringPart("lang", "\"lang\"", m.lang);
  }

  lemma MetaNumbers(m: Meta)
    requires MetaTextOk(m)
    ensures forall i: nat :: 3 <= i < 5 ==> IsPartAt(MetaMembers(m), MetaParts(m), i)
  {
    hide PartOf, MarshalString, Itoa, ValidUtf8, StringTree, IntTree;
    IntPart("schema_version", "\"schema_version\"", m.schemaVersion);
    IntPart("created_at", "\"created_at\"", m.createdAt);
  }

  lemma MetaPartsAre(m: Meta)
    requires MetaTextOk(m)
    ensures NamesOk(MetaMembers(m)) && Parts(MetaMembers(m)) == MetaParts(m)
  {
    hide IsPartAt, Parts, NamesOk;
    MetaStrings(m);
    MetaNumbers(m);
    PartsAre(MetaMembers(m), MetaParts(m));
  }

  lemma DeadLetterStrings(d: DeadLetter)
    requires DeadLetterTextOk(d)
    ensures forall i: nat :: i in [0, 4, 6] ==> IsPartAt(DeadLetterMembers(d), DeadLetterParts(d), i)
  {
    hide PartOf, MarshalString, Itoa, ValidUtf8, StringTree, IntTree, PointerTree, PointerText;
    StringPart("reason", "\"reason\"", d.reason);
    StringPart("original_queue", "\"original_queue\"", d.originalQueue);
    StringPart("lang", "\"lang\"", d.lang);
  }

  lemma DeadLetterPointers(d: DeadLetter)
    requires DeadLetterTextOk(d)
    ensures forall i: nat :: i in [1, 2] ==> IsPartAt(DeadLetterMembers(d), DeadLetterParts(d), i)
  {
    hide PartOf, MarshalString, Itoa, ValidUtf8, StringTree, IntTree, PointerTree, PointerText;
    PointerPart("error", "\"error\"", d.error);
    PointerPart("exception", "\"exception\"", d.exception);
  }

  lemma DeadLetterNumbers(d: DeadLetter)
    requires DeadLetterTextOk(d)
    ensures forall i: nat :: i in [3, 5] ==> IsPartAt(DeadLetterMembers(d), DeadLetterParts(d), i)
  {
    hide PartOf, MarshalString, Itoa, ValidUtf8, StringTree, IntTree, PointerTree, PointerText;
    IntPart("failed_at", "\"failed_at\"", d.failedAt);
    IntPart("attempts", "\"attempts\"", d.attempts);
  }

  lemma DeadLetterPartsAre(d: DeadLetter)
    requires DeadLetterTextOk(d)
    ensures NamesOk(DeadLetterMembers(d)) && Parts(DeadLetterMembers(d)) == DeadLetterParts(d)
  {
    hide IsPartAt, Parts, NamesOk;
    DeadLetterStrings(d);
    DeadLetterPointers(d);
    DeadLetterNumbers(d);
    PartsAre(DeadLetterMembers(d), DeadLetterParts(d));
  }

  lemma MetaText(e: Envelope, c: Carried)
    requires IsWritten(e, c)
    ensures NamesOk(c.meta) && ValueThen(MetaTree(e, c), "") == Object(MetaParts(e.meta) + Parts(c.meta))
  {
    AllMetaOk(e, c);
    AllOkMeans(AllMeta(e, c), MAX_NESTING_DEPTH - 2);
    AllOkMeans(c.meta, MAX_NESTING_DEPTH - 2);
    MetaPartsAre(e.meta);
    PartsConcat(MetaMembers(e.meta), c.meta);
    ObjectText(AllMeta(e, c));
    hide MetaMembers, ObjectOf, ValueThen, Parts, NamesOk, AllOk, Carries, Encodable, MetaParts, Object;
  }

  lemma FrameStrings(e: Envelope, c: Carried)
    requires IsWritten(e, c)
    ensures forall i: nat :: i < 2 ==> IsPartAt(FrameMembers(e, c), FrameParts(e, ValueThen(MetaTree(e, c), "")), i)
  {
    hide PartOf, MarshalString, Itoa, ValueThen, ValidUtf8, StringTree, IntTree, MetaTree, MetaTextOk, Carries, AllOk,
      RawOk;
    StringPart("job", "\"job\"", e.job);
    StringPart("trace_id", "\"trace_id\"", e.traceId);
  }

  lemma FrameTrees(e: Envelope, c: Carried)
    requires IsWritten(e, c)
    ensures forall i: nat :: 2 <= i < 4 ==>
      IsPartAt(FrameMembers(e, c), FrameParts(e, ValueThen(MetaTree(e, c), "")), i)
  {
    LiteralText("null");
    hide PartOf, MarshalString, Itoa, ValueThen, ValidUtf8, StringTree, IntTree, MetaTree, MetaTextOk, Carries, AllOk,
      RawOk;
    TreePart("data", "\"data\"", if e.data.Some? then e.data.value else Literal("null"));
    TreePart("meta", "\"meta\"", MetaTree(e, c));
  }

  lemma LiteralText(w: string)
    ensures ValueThen(Literal(w), "") == w
  {
  }

  lemma FrameNumber(e: Envelope, c: Carried)
    requires IsWritten(e, c)
    ensures IsPartAt(FrameMembers(e, c), FrameParts(e, ValueThen(MetaTree(e, c), "")), 4)
  {
    hide PartOf, MarshalString, Itoa, ValueThen, ValidUtf8, StringTree, IntTree, MetaTree, MetaTextOk, Carries, AllOk,
      RawOk;
    IntPart("attempts", "\"attempts\"", e.attempts);
  }

  lemma FrameText(e: Envelope, c: Carried)
    requires IsWritten(e, c)
    ensures NamesOk(FrameMembers(e, c))
    ensures Parts(FrameMembers(e, c)) == FrameParts(e, ValueThen(MetaTree(e, c), ""))
  {
    hide IsPartAt, Parts, NamesOk, Carries, AllOk, Encodable, ValueThen, MetaTree, FrameMembers, FrameParts;
    FrameSizes(e, c);
    FrameStrings(e, c);
    FrameTrees(e, c);
    FrameNumber(e, c);
    PartsAre(FrameMembers(e, c), FrameParts(e, ValueThen(MetaTree(e, c), "")));
  }

  lemma FrameSizes(e: Envelope, c: Carried)
    requires IsWritten(e, c)
    ensures |FrameMembers(e, c)| == |FrameParts(e, ValueThen(MetaTree(e, c), ""))| == 5
  {
    hide MarshalString, Itoa, ValueThen, ValidUtf8, StringTree, IntTree, MetaTree, MetaTextOk, Carries, AllOk, RawOk;
  }

  lemma DeadLetterText(d: DeadLetter)
    requires DeadLetterTextOk(d)
    ensures ValueThen(DeadLetterTree(d), "") == Object(DeadLetterParts(d))
  {
    hide Parts, NamesOk, ObjectOf, ValueThen, Object, DeadLetterMembers, DeadLetterParts, DeadLetterTextOk;
    DeadLetterPartsAre(d);
    ObjectText(DeadLetterMembers(d));
  }

  lemma EndText(e: Envelope)
    requires Encodable(e)
    ensures NamesOk(DeadLetterPart(e)) && Parts(DeadLetterPart(e)) == DeadLetterEnd(e.deadLetter)
  {
    hide PartOf, ValueThen, DeadLetterTree, DeadLetterParts, Object, RawOk, DeadLetterTextOk, MetaTextOk, ValidUtf8;
    if e.deadLetter.Some? {
      var d := e.deadLetter.value;
      DeadLetterText(d);
      TreePart("dead_letter", "\"dead_letter\"", DeadLetterTree(d));
    }
  }

  /** What is written for an envelope: its own members in this order, then the ones it carries. */
  lemma TreeText(e: Envelope, c: Carried)
    requires IsWritten(e, c)
    ensures NamesOk(c.meta) && NamesOk(c.extras)
    ensures var meta := Object(MetaParts(e.meta) + Parts(c.meta));
      ValueThen(EnvelopeTree(e, c), "") == Object(FrameParts(e, meta) + DeadLetterEnd(e.deadLetter) + Parts(c.extras))
  {
    hide FrameMembers, DeadLetterPart, Parts, NamesOk, ObjectOf, ValueThen, Object, MetaTree, FrameParts, MetaParts,
      DeadLetterEnd, AllOk, Carries, Encodable;
    AllOkMeans(c.extras, MAX_NESTING_DEPTH - 1);
    MetaText(e, c);
    FrameText(e, c);
    EndText(e);
    PartsConcat(FrameMembers(e, c), DeadLetterPart(e));
    PartsConcat(FrameMembers(e, c) + DeadLetterPart(e), c.extras);
    ObjectText(EnvelopeMembers(e, c));
  }

  // ---------- What Encode writes ----------

  /** The raw members an envelope carries, in ascending order of their keys: the key coerced, the value without the
      white space outside its strings. */
  function CarriedParts(m: map<string, Value>): (ps: seq<Part>)
    ensures |ps| == |m.Keys|
  {
    seq(|m.Keys|, i requires 0 <= i < |m.Keys| =>
      var k := Sorted(m.Keys)[i];
      Part(MarshalString(Coerce(k)), JsonCompact.Squeeze(if k in m then ValueThen(m[k], "") else "")))
  }

  lemma CarriedText(m: map<string, Value>, depth: int)
    requires ValuesOk(m, depth) && NamesOk(CompactMembers(Spelled(m)))
    ensures Parts(CompactMembers(Spelled(m))) == CarriedParts(m)
  {
    hide ValueThen, MarshalString, Coerce, JsonCompact.Squeeze, Compact, ValueOk, ValueDepth, ValidUtf8;
    var ms := CompactMembers(Spelled(m));
    forall i | 0 <= i < |ms| ensures Parts(ms)[i] == CarriedParts(m)[i] {
      SpelledIs(m, i);
      var v := m[Sorted(m.Keys)[i]];
      JsonCompact.SqueezeIs(v, "");
      NothingSqueezed();
    }
  }

  lemma NothingSqueezed()
    ensures JsonCompact.Squeeze("") == ""
  {
  }

  /** Encoding refuses an envelope exactly when it carries a member that may not be written. */
  lemma RefusedExactlyWhen(e: Envelope)
    requires Storable(e)
    ensures Encoded(e) == None <==>
      || HoldsOneOf(e.extras, {"timestamp", "urn"})
      || HoldsOneOf(e.metaExtras,
          {"max_retries", "attempts", "source", "ts", "id", "queue", "lang", "schema_version", "created_at"})
  {
    hide Coerced, Written, IsWritten, EnvelopeTree, Storable, HoldsReservedKey, HoldsOneOf, DocText;
    CoercedIsReserved(e);
    CoercedIsWritten(e);
    ReservedIs(e);
    ReservedNames();
  }

  lemma ReservedNames()
    ensures FORBIDDEN + {"urn"} == {"timestamp", "urn"}
    ensures FORBIDDEN_META + CORE_META ==
      {"max_retries", "attempts", "source", "ts", "id", "queue", "lang", "schema_version", "created_at"}
  {
  }

  /** Otherwise it writes, character by character: the members of the envelope in this order and spelling, each with
      its own field, and after those of meta and of the whole what they carry. */
  lemma EncodedText(e: Envelope)
    requires Storable(e) && Encoded(e).Some?
    ensures Encodable(Coerced(e))
    ensures var w := Coerced(e); var meta := Object(MetaParts(w.meta) + CarriedParts(e.metaExtras));
      Encoded(e).value == Object(FrameParts(w, meta) + DeadLetterEnd(w.deadLetter) + CarriedParts(e.extras))
  {
    var w, c := Coerced(e), Written(e);
    CoercedIsWritten(e);
    TreeText(w, c);
    CarriedText(e.extras, MAX_NESTING_DEPTH - 1);
    CarriedText(e.metaExtras, MAX_NESTING_DEPTH - 2);
    BareDocument(EnvelopeTree(w, c));
    hide Coerced, EnvelopeTree, Spelled, CompactMembers, Parts, NamesOk, Carries, AllOk, Encodable, ValuesOk, Object,
      CarriedParts, FrameParts, MetaParts, DeadLetterEnd, HoldsReservedKey, ValueThen, DocText;
  }
}
