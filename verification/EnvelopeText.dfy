/**
  Text that is not valid UTF-8: encoding/json writes every string coerced, each byte that starts no well-formed
  character replaced by U+FFFD. So what is written is the coerced envelope, and a round trip gives that one back. It
  is the envelope itself exactly when its text is valid. The names of raw members are coerced too, after they were
  sorted: of names that become equal the last one is read.
 */
module EnvelopeText {
  import opened Wrappers
  import opened JsonGrammar
  import opened Utf8
  import opened JsonStrings
  import opened KeyOrder
  import opened EnvelopeFields
  import opened EnvelopeDecode
  import opened EnvelopeEncode
  import AsciiSpace

  predicate TextOk(e: Envelope) {
    && ValidUtf8(e.job) && ValidUtf8(e.traceId) && MetaTextOk(e.meta)
    && (e.deadLetter.Some? ==> DeadLetterTextOk(e.deadLetter.value))
    && NamesAreText(e.extras) && NamesAreText(e.metaExtras)
  }

  predicate NamesAreText(m: map<string, Value>) { forall k :: k in m ==> ValidUtf8(k) }

  predicate ValuesOk(m: map<string, Value>, depth: int) {
    forall k :: k in m ==> ValueOk(m[k]) && ValueDepth(m[k]) <= depth
  }

  /** Raw values are JSON that nests no deeper than a document may, under any names. */
  predicate Storable(e: Envelope) {
    && (e.data.Some? ==> ValueOk(e.data.value) && ValueDepth(e.data.value) <= MAX_NESTING_DEPTH - 1)
    && ValuesOk(e.extras, MAX_NESTING_DEPTH - 1) && ValuesOk(e.metaExtras, MAX_NESTING_DEPTH - 2)
  }

  // ---------- Names ----------

  /** Raw members as captured, in the order of these keys. */
  function Raw(m: map<string, Value>, keys: seq<string>): (ms: seq<Member>)
    requires forall i :: 0 <= i < |keys| ==> keys[i] in m
    ensures |ms| == |keys| && forall i :: 0 <= i < |keys| ==> ms[i] == Member(Coerce(keys[i]), m[keys[i]])
  {
    seq(|keys|, i requires 0 <= i < |keys| => Member(Coerce(keys[i]), m[keys[i]]))
  }

  function Spelled(m: map<string, Value>): seq<Member> { Raw(m, Sorted(m.Keys)) }

  function CompactMembers(ms: seq<Member>): (r: seq<Member>)
    ensures |r| == |ms| && forall i :: 0 <= i < |ms| ==> r[i] == Member(ms[i].name, Compact(ms[i].value))
  {
    seq(|ms|, i requires 0 <= i < |ms| => Member(ms[i].name, Compact(ms[i].value)))
  }

  /** The entries that are read: of keys that are written alike, the last one in byte order. */
  function CoercedNames(m: map<string, Value>): map<string, Value> { Unknown(Spelled(m), |m.Keys|, {}) }

  /** The members written for the raw values of an envelope. */
  function Written(e: Envelope): Carried {
    Carried(CompactMembers(Spelled(e.extras)), CompactMembers(Spelled(e.metaExtras)))
  }

  lemma SpelledIs(m: map<string, Value>, i: nat)
    requires i < |m.Keys|
    ensures var k := Sorted(m.Keys)[i]; k in m && Spelled(m)[i] == Member(Coerce(k), m[k])
  {
    assert Sorted(m.Keys)[i] in Sorted(m.Keys);
  }

  lemma {:induction false} LastCompacted(ms: seq<Member>, n: nat, name: string)
    requires n <= |ms|
    ensures Last(CompactMembers(ms), n, name) ==
      match Last(ms, n, name) case None => None case Some(v) => Some(Compact(v))
  {
    hide Compact;
    if n > 0 { LastCompacted(ms, n - 1, name); }
  }

  lemma SpelledCarries(m: map<string, Value>)
    ensures Carries(CompactMembers(Spelled(m)), CoercedNames(m))
  {
    var ms := Spelled(m);
    SpelledLength(m);
    hide Last, Compact, CompactMembers, Spelled, Unknown;
    forall name
      ensures Last(CompactMembers(ms), |ms|, name) ==
        if name in CoercedNames(m) then Some(Compact(CoercedNames(m)[name])) else None
    {
      UnknownIsLast(ms, |ms|, {}, name);
      LastCompacted(ms, |ms|, name);
    }
  }

  lemma NameIsSpelled(m: map<string, Value>, name: string)
    requires name in CoercedNames(m)
    ensures exists k :: k in m && Coerce(k) == name && CoercedNames(m)[name] == m[k]
  {
    var ms := Spelled(m);
    UnknownIsLast(ms, |ms|, {}, name);
    LastIsMember(ms, |ms|, name);
    hide Unknown, Last, Coerce, Spelled;
    var i :| 0 <= i < |ms| && ms[i].name == name && ms[i].value == Last(ms, |ms|, name).value;
    SpelledIs(m, i);
  }

  lemma KeyIsRead(m: map<string, Value>, k: string)
    requires k in m
    ensures Coerce(k) in CoercedNames(m)
  {
    var ms := Spelled(m);
    var i :| 0 <= i < |Sorted(m.Keys)| && Sorted(m.Keys)[i] == k;
    SpelledIs(m, i);
    LastHas(ms, |ms|, i);
    UnknownIsLast(ms, |ms|, {}, Coerce(k));
    hide Unknown, Last, Coerce, Spelled;
  }

  lemma CoercedNamesOk(m: map<string, Value>, depth: int)
    requires ValuesOk(m, depth)
    ensures RawOk(CoercedNames(m), depth) && AllOk(CompactMembers(Spelled(m)), depth)
  {
    hide Coerce, ValidUtf8, ValueOk, ValueDepth, CoercedNames, Spelled, Compact;
    forall name | name in CoercedNames(m)
      ensures ValidUtf8(name) && ValueOk(CoercedNames(m)[name]) && ValueDepth(CoercedNames(m)[name]) <= depth
    {
      NameIsSpelled(m, name);
    }
    SpelledLength(m);
    forall i | 0 <= i < |Spelled(m)| ensures MemberOk(CompactMembers(Spelled(m))[i], depth) {
      SpelledIs(m, i);
      CompactIs(m[Sorted(m.Keys)[i]]);
    }
  }

  lemma SpelledLength(m: map<string, Value>)
    ensures |Spelled(m)| == |m.Keys|
  {
  }

  /** No other text is written as an ASCII one. */
  lemma {:induction false} CoercedAscii(s: string)
    requires IsAscii(Coerce(s))
    ensures Coerce(s) == s
    decreases |s|
  {
    var n := RuneLength(s);
    assert EncodeRune(0xFFFD)[0] as int == 0xEF;
    if n > 0 {
      assert Coerce(s) == s[..n] + Coerce(s[n..]);
      forall i | 0 <= i < |Coerce(s[n..])| ensures Coerce(s[n..])[i] as int < 0x80 {
        assert Coerce(s)[n + i] == Coerce(s[n..])[i];
      }
      CoercedAscii(s[n..]);
    }
  }

  predicate HoldsOneOf(m: map<string, Value>, names: set<string>) { exists k :: k in m && k in names }

  /** A name that is all ASCII occurs exactly where it did. */
  lemma AsciiNames(m: map<string, Value>, names: set<string>)
    requires forall name :: name in names ==> IsAscii(name)
    ensures HoldsOneOf(CoercedNames(m), names) <==> HoldsOneOf(m, names)
  {
    hide Coerce, CoercedNames, IsAscii;
    if HoldsOneOf(CoercedNames(m), names) {
      var name :| name in CoercedNames(m) && name in names;
      NameIsSpelled(m, name);
      var k :| k in m && Coerce(k) == name;
      CoercedAscii(k);
    }
    if HoldsOneOf(m, names) {
      var k :| k in m && k in names;
      AsciiIsValid(k);
      CoerceKeepsValid(k);
      KeyIsRead(m, k);
    }
  }

  // ---------- Envelopes ----------

  function CoercedMeta(m: Meta): Meta { m.(id := Coerce(m.id), queue := Coerce(m.queue), lang := Coerce(m.lang)) }

  function CoercedPointer(s: Option<string>): Option<string> { if s.Some? then Some(Coerce(s.value)) else None }

  function CoercedDeadLetter(d: DeadLetter): DeadLetter {
    d.(reason := Coerce(d.reason), error := CoercedPointer(d.error), exception := CoercedPointer(d.exception),
       originalQueue := Coerce(d.originalQueue), lang := Coerce(d.lang))
  }

  function Coerced(e: Envelope): Envelope {
    e.(job := Coerce(e.job), traceId := Coerce(e.traceId), meta := CoercedMeta(e.meta),
       deadLetter := if e.deadLetter.Some? then Some(CoercedDeadLetter(e.deadLetter.value)) else None,
       extras := CoercedNames(e.extras), metaExtras := CoercedNames(e.metaExtras))
  }

  lemma CoercedIsEncodable(e: Envelope)
    requires Storable(e)
    ensures Encodable(Coerced(e))
  {
    hide Coerce, ValidUtf8, ValueOk, ValueDepth, ValuesOk, RawOk, AllOk, CoercedNames, Spelled, CompactMembers;
    CoercedNamesOk(e.extras, MAX_NESTING_DEPTH - 1);
    CoercedNamesOk(e.metaExtras, MAX_NESTING_DEPTH - 2);
  }

  lemma CoercedIsWritten(e: Envelope)
    requires Storable(e)
    ensures IsWritten(Coerced(e), Written(e))
  {
    CoercedIsEncodable(e);
    CoercedNamesOk(e.extras, MAX_NESTING_DEPTH - 1);
    CoercedNamesOk(e.metaExtras, MAX_NESTING_DEPTH - 2);
    SpelledCarries(e.extras);
    SpelledCarries(e.metaExtras);
    CoercedCarries(e);
    hide Coerced, Encodable, ValueOk, ValueDepth, ValuesOk, RawOk, AllOk, Carries, CoercedNames, Spelled,
      CompactMembers;
  }

  lemma CoercedCarries(e: Envelope)
    ensures Coerced(e).extras == CoercedNames(e.extras) && Coerced(e).metaExtras == CoercedNames(e.metaExtras)
  {
  }

  /** Coercing makes no reserved key and takes none away. */
  lemma CoercedIsReserved(e: Envelope)
    ensures HoldsReservedKey(Coerced(e)) <==> HoldsReservedKey(e)
  {
    hide *;
    ReservedAreAscii();
    AsciiNames(e.extras, FORBIDDEN + {"urn"});
    AsciiNames(e.metaExtras, FORBIDDEN_META + CORE_META);
    CoercedCarries(e);
    ReservedIs(e);
    ReservedIs(Coerced(e));
  }

  lemma ReservedAreAscii()
    ensures forall name :: name in FORBIDDEN + {"urn"} ==> IsAscii(name)
    ensures forall name :: name in FORBIDDEN_META + CORE_META ==> IsAscii(name)
  {
    forall name | name in FORBIDDEN + {"urn"} ensures IsAscii(name) {}
    forall name | name in FORBIDDEN_META + CORE_META ensures IsAscii(name) {}
  }

  lemma ReservedIs(e: Envelope)
    ensures HoldsReservedKey(e) <==>
      HoldsOneOf(e.extras, FORBIDDEN + {"urn"}) || HoldsOneOf(e.metaExtras, FORBIDDEN_META + CORE_META)
  {
    hide FORBIDDEN, FORBIDDEN_META, CORE_META;
    if k :| k in e.extras && (k in FORBIDDEN || k == "urn") { assert k in FORBIDDEN + {"urn"}; }
    if k :| k in e.metaExtras && (k in FORBIDDEN_META || k in CORE_META) { assert k in FORBIDDEN_META + CORE_META; }
  }

  lemma CoercesToItselfExactlyWhen(s: string)
    ensures Coerce(s) == s <==> ValidUtf8(s)
  {
    if ValidUtf8(s) { CoerceKeepsValid(s); }
    hide ValidUtf8;
  }

  lemma SpelledText(m: map<string, Value>)
    requires NamesAreText(m)
    ensures CompactMembers(Spelled(m)) == SortedMembers(m)
  {
    hide Coerce, ValidUtf8, Compact;
    forall i | 0 <= i < |m.Keys| ensures CompactMembers(Spelled(m))[i] == SortedMembers(m)[i] {
      SpelledIs(m, i);
      CoerceKeepsValid(Sorted(m.Keys)[i]);
    }
  }

  lemma NamesStayExactlyWhen(m: map<string, Value>)
    ensures CoercedNames(m) == m <==> NamesAreText(m)
  {
    hide Coerce, ValidUtf8, CoercedNames;
    forall name | name in CoercedNames(m)
      ensures ValidUtf8(name) && (NamesAreText(m) ==> name in m && m[name] == CoercedNames(m)[name])
    {
      NameIsSpelled(m, name);
      var k :| k in m && Coerce(k) == name && CoercedNames(m)[name] == m[k];
      if NamesAreText(m) { CoerceKeepsValid(k); }
    }
    forall k | k in m ensures NamesAreText(m) ==> k in CoercedNames(m) {
      KeyIsRead(m, k);
      if NamesAreText(m) { CoerceKeepsValid(k); }
    }
  }

  /** Keys that are written apart keep their values. */
  lemma ApartNamesAreKept(m: map<string, Value>)
    requires forall j, k :: j in m && k in m && Coerce(j) == Coerce(k) ==> j == k
    ensures forall k :: k in m ==> Coerce(k) in CoercedNames(m) && CoercedNames(m)[Coerce(k)] == m[k]
  {
    hide Coerce, CoercedNames;
    forall k | k in m ensures Coerce(k) in CoercedNames(m) && CoercedNames(m)[Coerce(k)] == m[k] {
      KeyIsRead(m, k);
      NameIsSpelled(m, Coerce(k));
    }
  }

  /** What is written is the envelope itself exactly when its text is valid. */
  lemma CoercedIsItselfExactlyWhen(e: Envelope)
    ensures Coerced(e) == e <==> TextOk(e)
  {
    CoercesToItselfExactlyWhen(e.job);
    CoercesToItselfExactlyWhen(e.traceId);
    CoercesToItselfExactlyWhen(e.meta.id);
    CoercesToItselfExactlyWhen(e.meta.queue);
    CoercesToItselfExactlyWhen(e.meta.lang);
    NamesStayExactlyWhen(e.extras);
    NamesStayExactlyWhen(e.metaExtras);
    if e.deadLetter.Some? {
      var d := e.deadLetter.value;
      CoercesToItselfExactlyWhen(d.reason);
      CoercesToItselfExactlyWhen(d.originalQueue);
      CoercesToItselfExactlyWhen(d.lang);
      if d.error.Some? { CoercesToItselfExactlyWhen(d.error.value); }
      if d.exception.Some? { CoercesToItselfExactlyWhen(d.exception.value); }
    }
    hide Coerce, ValidUtf8, CoercedNames, NamesAreText;
  }

  // ---------- Encoding any text ----------

  /** What Encode writes. */
  function Encoded(e: Envelope): Option<string>
    requires Storable(e)
  {
    CoercedIsWritten(e);
    EncodeWith(Coerced(e), Written(e))
  }

  /** Decoding it gives the coerced envelope. */
  lemma EncodedRoundTrip(canon: Canon, e: Envelope)
    requires Storable(e) && Canonical(canon, Coerced(e))
    ensures Encoded(e).Some? && DecodeBody(canon, Encoded(e).value) == Ok(AsWritten(Coerced(e)))
  {
    CoercedIsWritten(e);
    WrittenRoundTrip(canon, Coerced(e), Written(e));
    hide Canonical, DecodeBody, AsWritten, EncodeWith, IsWritten, Coerced;
  }

  /** Valid text is written as it is, its raw members in ascending key order. */
  lemma TextEncodes(e: Envelope)
    requires Storable(e) && TextOk(e)
    ensures Encodable(e) && Encoded(e) == EncodeBody(e)
  {
    CoercedIsWritten(e);
    CoercedIsItselfExactlyWhen(e);
    SpelledText(e.extras);
    SpelledText(e.metaExtras);
    hide Coerced, CompactMembers, Spelled, SortedMembers, EncodeWith, Carries, AllOk, Storable, TextOk, ValidUtf8,
      ValueOk, RawOk;
  }

  /** Coercing makes nothing blank. */
  lemma {:induction false} CoercedIsNotBlank(s: string)
    requires !AsciiSpace.IsBlank(s)
    ensures !AsciiSpace.IsBlank(Coerce(s))
    decreases |s|
  {
    var n := RuneLength(s);
    if n > 0 {
      if AsciiSpace.IsBlank(s[..n]) {
        assert s == s[..n] + s[n..];
        CoercedIsNotBlank(s[n..]);
        NotBlankAfter(s[..n], Coerce(s[n..]));
      } else {
        NotBlankBefore(s[..n], Coerce(s[n..]));
      }
    } else {
      assert EncodeRune(0xFFFD)[0] as int == 0xEF;
      NotBlankBefore(EncodeRune(0xFFFD), Coerce(s[1..]));
    }
  }

  lemma NotBlankAfter(a: string, b: string)
    requires !AsciiSpace.IsBlank(b)
    ensures !AsciiSpace.IsBlank(a + b)
  {
    var i :| 0 <= i < |b| && !AsciiSpace.IsSpace(b[i]);
    assert (a + b)[|a| + i] == b[i];
  }

  lemma NotBlankBefore(a: string, b: string)
    requires !AsciiSpace.IsBlank(a)
    ensures !AsciiSpace.IsBlank(a + b)
  {
    var i :| 0 <= i < |a| && !AsciiSpace.IsSpace(a[i]);
    assert (a + b)[i] == a[i];
  }
}
