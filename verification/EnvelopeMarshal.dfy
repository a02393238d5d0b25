/**
  MarshalJSON and Encode: the encoder splices raw members into the text of an object before its closing brace,
  first into meta and then into the whole envelope. The text it gets is the one of the whole object, and
  compacting it gives the bytes that are published.
 */
module EnvelopeMarshal {
  import opened Wrappers
  import opened JsonGrammar
  import opened JsonParser
  import opened JsonStrings
  import opened Utf8
  import opened KeyOrder
  import opened PoisonScanner
  import opened PoisonRecord
  import opened EnvelopeFields
  import opened EnvelopeDecode
  import opened EnvelopeEncode
  import opened EnvelopeText

  /** The text of an object without its braces. */
  function Inner(ms: seq<Member>): string
    requires NamesOk(ms)
  {
    if ms == [] then "" else EntriesThen(EntriesOf(ms), "")
  }

  /** The text of an object up to its closing brace. */
  function Opened(ms: seq<Member>): string
    requires NamesOk(ms)
  {
    "{" + Inner(ms)
  }

  function ObjectString(ms: seq<Member>): string
    requires NamesOk(ms)
  {
    ValueThen(ObjectOf(ms), "")
  }

  lemma ObjectStringIs(ms: seq<Member>)
    requires NamesOk(ms)
    ensures ObjectString(ms) == Opened(ms) + "}"
  {
    hide EntriesOf, EntriesThen;
    if ms != [] {
      EntriesSplit(EntriesOf(ms), "", "}");
      assert "" + "}" == "}" && [Close(Curly)] + "" == "}";
    }
  }

  lemma {:induction false} EntriesOfAppend(ms: seq<Member>, m: Member)
    requires ms != [] && NamesOk(ms) && ValidUtf8(m.name)
    ensures NamesOk(ms + [m]) && EntriesOf(ms + [m]) == Append(EntriesOf(ms), EntryOf(m))
  {
    if |ms| == 1 {
      assert ms + [m] == [ms[0], m];
      assert [ms[0], m][1..] == [m];
    } else {
      EntriesOfAppend(ms[1..], m);
      assert (ms + [m])[1..] == ms[1..] + [m];
    }
  }

  function MemberString(m: Member): string
    requires ValidUtf8(m.name)
  {
    MarshalString(m.name) + ":" + ValueThen(m.value, "")
  }

  lemma NamedText(items: seq<StrItem>, v: string)
    ensures NameThen(Some(Name("", items, "")), v) == QuotedThen(items, "") + ":" + v
  {
    hide QuotedThen;
    QuotedSplit(items, [':'] + v);
    assert "" + ([':'] + v) == [':'] + v;
    assert "" + QuotedThen(items, [':'] + v) == QuotedThen(items, [':'] + v);
  }

  lemma EntryString(m: Member)
    requires ValidUtf8(m.name)
    ensures EntryThen(EntryOf(m), "") == MemberString(m)
  {
    hide Quote, QuotedThen, ValueThen, NameThen;
    var v := ValueThen(m.value, "");
    NamedText(Quote(m.name), v);
    assert "" + "" == "" && "" + v == v;
  }

  lemma InnerAppend(ms: seq<Member>, m: Member)
    requires ms != [] && NamesOk(ms) && ValidUtf8(m.name)
    ensures NamesOk(ms + [m]) && Inner(ms + [m]) == Inner(ms) + ("," + MemberString(m))
  {
    hide EntriesThen, EntryThen, MemberString, EntryOf, EntriesOf;
    EntryString(m);
    EntriesOfAppend(ms, m);
    AppendThen(EntriesOf(ms), EntryOf(m), "");
    EntriesSplit(EntriesOf(ms), "", [','] + EntryThen(EntryOf(m), ""));
    assert "" + ([','] + EntryThen(EntryOf(m), "")) == [','] + EntryThen(EntryOf(m), "");
  }

  lemma OpenedAppend(ms: seq<Member>, m: Member)
    requires NamesOk(ms) && ValidUtf8(m.name)
    ensures NamesOk(ms + [m])
    ensures Opened(ms + [m]) ==
      (if ms == [] then Opened(ms) else Opened(ms) + ",") + MarshalString(m.name) + ":" + ValueThen(m.value, "")
  {
    hide MarshalString, ValueThen, Inner;
    if ms == [] {
      assert ms + [m] == [m];
      InnerOne(m);
    } else {
      InnerAppend(ms, m);
    }
    InnerNone();
  }

  lemma InnerNone()
    ensures Inner([]) == ""
  {
  }

  lemma InnerOne(m: Member)
    requires ValidUtf8(m.name)
    ensures Inner([m]) == MemberString(m)
  {
    hide EntryThen, EntryOf;
    EntryString(m);
  }

  /** appendRawFields: before the closing brace of obj, which is the text of an object with the members ms. */
  method AppendRawFields(obj: string, fields: map<string, Value>, ghost ms: seq<Member>) returns (out: string)
    requires NamesOk(ms) && obj == ObjectString(ms)
    ensures NamesOk(ms + Spelled(fields)) && out == ObjectString(ms + Spelled(fields))
  {
    hide Opened, ObjectString, MarshalString, ValueThen, Raw, Inner, Coerce;
    var keys := Sorted(fields.Keys);
    if keys == [] {
      assert ms + Spelled(fields) == ms;
      return obj;
    }
    OpensWith(ms);
    out := obj[..|obj| - 1];
    var empty := |obj| == 2;
    ghost var all := ms;
    assert ms + Raw(fields, keys[..0]) == ms;
    for i := 0 to |keys|
      invariant all == ms + Raw(fields, keys[..i]) && NamesOk(all)
      invariant out == Opened(all) && (empty <==> all == [])
    {
      var k := keys[i];
      assert k in fields.Keys;
      RawNext(fields, keys, i, ms);
      OpenedAppend(all, Member(Coerce(k), fields[k]));
      if !empty {
        out := out + ",";
      }
      empty := false;
      out := out + MarshalString(Coerce(k));
      out := out + ":";
      out := out + ValueThen(fields[k], "");
      all := all + [Member(Coerce(k), fields[k])];
    }
    assert keys[..|keys|] == keys;
    out := out + "}";
    ObjectStringIs(all);
  }

  lemma OpensWith(ms: seq<Member>)
    requires NamesOk(ms)
    ensures var s := ObjectString(ms); |s| >= 2 && s[..|s| - 1] == Opened(ms) && (|s| == 2 <==> ms == [])
  {
    ObjectStringIs(ms);
    InnerIsEmpty(ms);
    hide ObjectString, Inner;
  }

  lemma RawNext(m: map<string, Value>, keys: seq<string>, i: nat, ms: seq<Member>)
    requires i < |keys| && forall j :: 0 <= j < |keys| ==> keys[j] in m
    ensures ms + Raw(m, keys[..i + 1]) == ms + Raw(m, keys[..i]) + [Member(Coerce(keys[i]), m[keys[i]])]
  {
    assert Raw(m, keys[..i + 1]) == Raw(m, keys[..i]) + [Member(Coerce(keys[i]), m[keys[i]])];
  }

  lemma InnerIsEmpty(ms: seq<Member>)
    requires NamesOk(ms)
    ensures Inner(ms) == "" <==> ms == []
  {
    if ms != [] {
      var m := ms[|ms| - 1];
      var rest := ms[..|ms| - 1];
      assert ms == rest + [m];
      OpenedAppend(rest, m);
    }
  }

  // ---------- Compacting texts ----------

  /** json.Compact on a text. */
  function CompactText(s: string): string {
    match ParseDoc(s) case None => s case Some(d) => ValueThen(Compact(d.value), "")
  }

  lemma CompactTextIs(v: Value)
    requires ValueOk(v) && ValueDepth(v) <= MAX_NESTING_DEPTH
    ensures CompactText(ValueThen(v, "")) == ValueThen(Compact(v), "")
  {
    hide ValueOk, ValueDepth, ValueThen, Compact;
    var d := Doc("", v, "");
    assert DocText(d) == ValueThen(v, "");
    ReadingIsUnique(d, ValueThen(v, ""));
  }

  lemma {:induction false} CompactEntriesOf(ms: seq<Member>)
    requires ms != [] && NamesOk(ms)
    ensures CompactEntries(EntriesOf(ms)) == EntriesOf(CompactMembers(ms))
  {
    if |ms| > 1 {
      CompactEntriesOf(ms[1..]);
      assert CompactMembers(ms)[1..] == CompactMembers(ms[1..]);
    }
  }

  lemma CompactObjectOf(ms: seq<Member>)
    requires NamesOk(ms)
    ensures Compact(ObjectOf(ms)) == ObjectOf(CompactMembers(ms))
  {
    if ms != [] { CompactEntriesOf(ms); }
  }

  lemma RawCompacts(known: seq<Member>, m: map<string, Value>)
    requires forall i :: 0 <= i < |known| ==> Compact(known[i].value) == known[i].value
    ensures CompactMembers(known + Spelled(m)) == known + CompactMembers(Spelled(m))
  {
    hide Compact, Spelled;
  }

  // ---------- MarshalJSON and Encode ----------

  lemma ScalarIsCompact(v: Value)
    requires v.Text? || v.Numeric? || v.Literal?
    ensures Compact(v) == v
  {
  }

  lemma StringIsCompact(s: string)
    requires ValidUtf8(s)
    ensures Compact(StringTree(s)) == StringTree(s)
  {
    hide Quote;
  }

  predicate AreCompact(ms: seq<Member>) { forall i :: 0 <= i < |ms| ==> Compact(ms[i].value) == ms[i].value }

  lemma {:induction false} WrittenIsCompact(ms: seq<Member>)
    requires forall i :: 0 <= i < |ms| ==> ValueOk(ms[i].value)
    ensures AreCompact(CompactMembers(ms))
  {
    forall i | 0 <= i < |ms| ensures Compact(CompactMembers(ms)[i].value) == CompactMembers(ms)[i].value {
      CompactIs(ms[i].value);
    }
    hide Compact, ValueOk;
  }

  lemma KnownIsCompact(e: Envelope, c: Carried, i: nat)
    requires IsWritten(e, c) && AreCompact(c.meta) && i < |KnownMembers(e, c)|
    requires e.data.Some? ==> Compact(e.data.value) == e.data.value
    ensures Compact(KnownMembers(e, c)[i].value) == KnownMembers(e, c)[i].value
  {
    hide MetaTree, DeadLetterTree, RawOk, Carries, AllOk, AreCompact, Compact, StringTree, IntTree, ValidUtf8,
      ValueOk, ValueDepth;
    match i
    case 0 => StringIsCompact(e.job);
    case 1 => StringIsCompact(e.traceId);
    case 2 => ScalarIsCompact(Literal("null"));
    case 3 => MetaIsCompact(e, c);
    case 4 => IntIsCompact(e.attempts);
    case _ => DeadLetterIsCompact(e.deadLetter.value);
  }

  lemma IntIsCompact(n: int)
    ensures Compact(IntTree(n)) == IntTree(n)
  {
  }

  lemma CompactAlready(ms: seq<Member>)
    requires NamesOk(ms) && AreCompact(ms)
    ensures CompactMembers(ms) == ms && Compact(ObjectOf(ms)) == ObjectOf(ms)
  {
    CompactObjectOf(ms);
    hide Compact, ObjectOf;
    assert CompactMembers(ms) == ms;
  }

  lemma MetaIsCompact(e: Envelope, c: Carried)
    requires IsWritten(e, c) && AreCompact(c.meta)
    ensures Compact(MetaTree(e, c)) == MetaTree(e, c)
  {
    AllMetaOk(e, c);
    AllOkMeans(AllMeta(e, c), MAX_NESTING_DEPTH - 2);
    MetaFieldsAreCompact(e.meta);
    BothCompact(MetaMembers(e.meta), c.meta);
    hide Compact, AreCompact, AllOk, ValueOk, Carries, MetaMembers, ObjectOf;
    CompactAlready(AllMeta(e, c));
  }

  lemma BothCompact(a: seq<Member>, b: seq<Member>)
    requires AreCompact(a) && AreCompact(b)
    ensures AreCompact(a + b)
  {
    hide Compact;
  }

  lemma DeadLetterIsCompact(d: DeadLetter)
    requires DeadLetterTextOk(d)
    ensures Compact(DeadLetterTree(d)) == DeadLetterTree(d)
  {
    DeadLetterMembersOk(d);
    AllOkMeans(DeadLetterMembers(d), 0);
    DeadLetterFieldsAreCompact(d);
    hide Compact, AreCompact, AllOk, ValueOk, ObjectOf;
    CompactAlready(DeadLetterMembers(d));
  }

  lemma DeadLetterFieldsAreCompact(d: DeadLetter)
    requires DeadLetterTextOk(d)
    ensures AreCompact(DeadLetterMembers(d))
  {
    hide Quote, ValidUtf8;
  }

  lemma MetaFieldsAreCompact(m: Meta)
    requires MetaTextOk(m)
    ensures AreCompact(MetaMembers(m))
  {
    hide Quote, ValidUtf8;
  }

  lemma SpelledAllOk(m: map<string, Value>, depth: int)
    requires ValuesOk(m, depth)
    ensures AllOk(Spelled(m), depth) && AreCompact(CompactMembers(Spelled(m)))
  {
    SpelledLength(m);
    hide Spelled, ValueOk, ValueDepth, ValidUtf8, Coerce;
    forall i | 0 <= i < |Spelled(m)| ensures MemberOk(Spelled(m)[i], depth) { SpelledIs(m, i); }
    AllOkMeans(Spelled(m), depth);
    WrittenIsCompact(Spelled(m));
  }

  /** Raw members after compact ones: compacting the object compacts them, and nothing else. */
  lemma SpliceCompacts(known: seq<Member>, m: map<string, Value>, depth: nat)
    requires AllOk(known, depth) && AreCompact(known) && ValuesOk(m, depth) && depth < MAX_NESTING_DEPTH
    ensures NamesOk(known + Spelled(m)) && NamesOk(known + CompactMembers(Spelled(m)))
    ensures CompactText(ObjectString(known + Spelled(m))) ==
      ValueThen(ObjectOf(known + CompactMembers(Spelled(m))), "")
  {
    var ms := known + Spelled(m);
    SpelledAllOk(m, depth);
    AllOkConcat(known, Spelled(m), depth);
    AllOkMeans(ms, depth);
    RawCompacts(known, m);
    CompactObjectOf(ms);
    ObjectRoundTrip(ms, depth);
    CompactTextIs(ObjectOf(ms));
    hide *;
  }

  /** The spliced text, before the final encoder compacts it. */
  function SplicedMembers(e: Envelope): seq<Member>
    requires Storable(e)
  {
    CoercedIsWritten(e);
    KnownMembers(Coerced(e), Written(e)) + Spelled(e.extras)
  }

  /** The spliced object is valid JSON, and compacting it gives the tree of the coerced envelope. */
  lemma SplicedCompacts(e: Envelope)
    requires Storable(e) && (e.data.Some? ==> Compact(e.data.value) == e.data.value)
    ensures IsWritten(Coerced(e), Written(e)) && NamesOk(SplicedMembers(e))
    ensures CompactText(ObjectString(SplicedMembers(e))) == ValueThen(EnvelopeTree(Coerced(e), Written(e)), "")
  {
    var w, c := Coerced(e), Written(e);
    CoercedIsWritten(e);
    assert w.data == e.data;
    SpelledAllOk(e.metaExtras, MAX_NESTING_DEPTH - 2);
    KnownMembersOk(w, c);
    hide IsWritten, KnownMembers, ValueOk, ValueDepth, ValueThen, AllOk, Spelled, Compact, CompactText,
      CompactMembers, ObjectOf, ObjectString, Coerced;
    forall i | 0 <= i < |KnownMembers(w, c)| ensures Compact(KnownMembers(w, c)[i].value) == KnownMembers(w, c)[i].value
    {
      KnownIsCompact(w, c, i);
    }
    SpliceCompacts(KnownMembers(w, c), e.extras, MAX_NESTING_DEPTH - 1);
  }

  /** The same for meta. */
  lemma MetaSplice(e: Envelope)
    requires Storable(e)
    ensures IsWritten(Coerced(e), Written(e)) && NamesOk(MetaMembers(Coerced(e).meta) + Spelled(e.metaExtras))
    ensures CompactText(ObjectString(MetaMembers(Coerced(e).meta) + Spelled(e.metaExtras))) ==
      ValueThen(MetaTree(Coerced(e), Written(e)), "")
  {
    CoercedIsWritten(e);
    var meta := Coerced(e).meta;
    MetaMembersOk(meta);
    Deeper(MetaMembers(meta), 0, MAX_NESTING_DEPTH - 2);
    MetaFieldsAreCompact(meta);
    SpliceCompacts(MetaMembers(meta), e.metaExtras, MAX_NESTING_DEPTH - 2);
    hide MetaMembers, Spelled, Coerced, ValueOk, ValueDepth, ValueThen, CompactText, CompactMembers, ObjectOf,
      ObjectString, AllOk, AreCompact, Carries, Encodable;
  }

  lemma SplicedNamesOk(e: Envelope)
    requires Storable(e)
    ensures IsWritten(Coerced(e), Written(e)) && NamesOk(KnownMembers(Coerced(e), Written(e)))
    ensures NamesOk(MetaMembers(Coerced(e).meta))
  {
    CoercedIsWritten(e);
    KnownMembersOk(Coerced(e), Written(e));
    AllOkMeans(KnownMembers(Coerced(e), Written(e)), MAX_NESTING_DEPTH - 1);
    MetaMembersOk(Coerced(e).meta);
    AllOkMeans(MetaMembers(Coerced(e).meta), 0);
    hide KnownMembers, MetaMembers, Coerced, ValueOk, AllOk, Carries, ValidUtf8, RawOk;
  }

  /** MarshalJSON: meta with its extras spliced in, the frame around it, then the top-level extras. It fails exactly on
      a reserved key; every string is written coerced. */
  method MarshalJSON(e: Envelope) returns (r: Option<string>)
    requires Storable(e)
    ensures HoldsReservedKey(e) ==> r == None
    ensures !HoldsReservedKey(e) ==> NamesOk(SplicedMembers(e)) && r == Some(ObjectString(SplicedMembers(e)))
  {
    if HoldsReservedKey(e) {
      return None;
    }
    SplicedNamesOk(e);
    var written, carried := Coerced(e), Written(e);
    hide IsWritten, KnownMembers, MetaMembers, Spelled, ObjectString, MetaTree, HoldsReservedKey, Storable, Coerced,
      Written;
    var meta := ObjectString(MetaMembers(written.meta));
    var spliced := AppendRawFields(meta, e.metaExtras, MetaMembers(written.meta));
    // The frame holds meta as a raw message, which the encoder compacts: that is the text of its tree.
    MetaSplice(e);
    assert CompactText(spliced) == ValueThen(MetaTree(written, carried), "");
    var body := ObjectString(KnownMembers(written, carried));
    var text := AppendRawFields(body, e.extras, KnownMembers(written, carried));
    return Some(text);
  }

  /** Encode. */
  method Encode(e: Envelope) returns (r: Option<string>)
    requires Storable(e) && (e.data.Some? ==> Compact(e.data.value) == e.data.value)
    ensures r == Encoded(e)
  {
    hide *;
    var text := MarshalJSON(e);
    EncodedIs(e);
    if text.None? {
      return None;
    }
    return Some(CompactText(text.value));
  }

  lemma EncodedIs(e: Envelope)
    requires Storable(e) && (e.data.Some? ==> Compact(e.data.value) == e.data.value)
    ensures HoldsReservedKey(e) ==> Encoded(e) == None
    ensures NamesOk(SplicedMembers(e))
    ensures !HoldsReservedKey(e) ==> Encoded(e) == Some(CompactText(ObjectString(SplicedMembers(e))))
  {
    CoercedIsReserved(e);
    SplicedCompacts(e);
    BareDocument(EnvelopeTree(Coerced(e), Written(e)));
    hide HoldsReservedKey, SplicedMembers, ObjectString, EnvelopeTree, CompactText, NamesOk, DocText, ValueThen,
      IsWritten, Compact, Coerced, Written, Storable;
  }

  lemma BareDocument(v: Value)
    ensures DocText(Doc("", v, "")) == ValueThen(v, "")
  {
    assert "" + ValueThen(v, "") == ValueThen(v, "");
    hide ValueThen;
  }
}
