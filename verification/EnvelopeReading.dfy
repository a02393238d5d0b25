/** What a decoded envelope says. */
module EnvelopeReading {
  // In terms of the JSON alone: which values each typed member accepts, which field each name fills, and that null
  // puts a field back to its zero value.

  import opened Wrappers
  import opened JsonGrammar
  import opened JsonParser
  import opened JsonStrings
  import opened Utf8
  import opened Decimal
  import opened KeyOrder
  import opened EnvelopeFields
  import opened EnvelopeDecode
  import opened UnicodeSpace
  import AsciiSpace

  const NULL: Value := Literal("null")

  // ---------- Which values are accepted ----------

  /** An integer literal, without fraction or exponent, of 64 bits. */
  predicate IsInteger(v: Value)
    requires ValueOk(v)
  {
    v.Numeric? && v.number.fraction == "" && v.number.exponent == None && IsInt64(IntegerOf(v.number))
  }

  function IntegerOf(n: Number): int
    requires NumberOk(n)
  {
    if n.minus then -(DigitsValue(n.whole) as int) else DigitsValue(n.whole)
  }

  predicate AcceptsMeta(m: Member)
    requires ValueOk(m.value)
  {
    && (m.name in {"id", "queue", "lang"} ==> m.value == NULL || m.value.Text?)
    && (m.name in {"schema_version", "created_at"} ==> m.value == NULL || IsInteger(m.value))
  }

  predicate AcceptsDeadLetter(m: Member)
    requires ValueOk(m.value)
  {
    && (m.name in {"reason", "original_queue", "lang", "error", "exception"} ==> m.value == NULL || m.value.Text?)
    && (m.name in {"failed_at", "attempts"} ==> m.value == NULL || IsInteger(m.value))
  }

  /** A job and an alias may be anything, and so may every member with no place of its own. */
  predicate Accepts(canon: Canon, m: Member)
    requires ValueOk(m.value)
  {
    && (m.name == "trace_id" ==> m.value == NULL || m.value.Text?)
    && (m.name == "attempts" ==> m.value == NULL || IsInteger(m.value))
    && (m.name == "data" ==> m.value == NULL || (IsObject(m.value) && canon(m.value).Some?))
    && (m.name == "meta" ==> m.value == NULL || (IsObject(m.value) && AllAccepted(m.value, AcceptsMeta)))
    && (m.name == "dead_letter" ==> m.value == NULL || (IsObject(m.value) && AllAccepted(m.value, AcceptsDeadLetter)))
  }

  predicate AllAccepted(v: Value, accepts: Member --> bool)
    requires ValueOk(v) && IsObject(v) && forall m: Member :: ValueOk(m.value) ==> accepts.requires(m)
  {
    MembersOfOk(v);
    forall i :: 0 <= i < |Named(Members(v))| ==> accepts(Named(Members(v))[i])
  }

  lemma TextIsAccepted(v: Value)
    requires ValueOk(v)
    ensures AssignString(v) == None <==> v != NULL && !v.Text?
    ensures AssignPointer(v) == None <==> v != NULL && !v.Text?
  {
  }

  lemma IntegerIsAccepted(v: Value)
    requires ValueOk(v)
    ensures AssignInt(v) == None <==> v != NULL && !IsInteger(v)
  {
  }

  lemma MetaIsAccepted(m: Member)
    requires ValueOk(m.value)
    ensures MetaFails(m) <==> !AcceptsMeta(m)
  {
    TextIsAccepted(m.value);
    IntegerIsAccepted(m.value);
    hide AssignString, AssignInt, IsInteger;
  }

  lemma DeadLetterIsAccepted(m: Member)
    requires ValueOk(m.value)
    ensures DeadLetterFails(m) <==> !AcceptsDeadLetter(m)
  {
    TextIsAccepted(m.value);
    IntegerIsAccepted(m.value);
    hide AssignString, AssignPointer, AssignInt, IsInteger;
  }

  lemma MetaBlockIsAccepted(v: Value)
    requires ValueOk(v)
    ensures MetaBlockFails(v) <==> v != NULL && !(IsObject(v) && AllAccepted(v, AcceptsMeta))
  {
    if IsObject(v) {
      var ms := BlockMembers(v).value;
      hide MetaFails, AcceptsMeta;
      forall i | 0 <= i < |ms| ensures MetaFails(ms[i]) <==> !AcceptsMeta(ms[i]) { MetaIsAccepted(ms[i]); }
    }
  }

  lemma DeadLetterBlockIsAccepted(v: Value)
    requires ValueOk(v)
    ensures DeadLetterBlockFails(v) <==> v != NULL && !(IsObject(v) && AllAccepted(v, AcceptsDeadLetter))
  {
    if IsObject(v) {
      var ms := BlockMembers(v).value;
      hide DeadLetterFails, AcceptsDeadLetter;
      forall i | 0 <= i < |ms| ensures DeadLetterFails(ms[i]) <==> !AcceptsDeadLetter(ms[i]) {
        DeadLetterIsAccepted(ms[i]);
      }
    }
  }

  lemma MemberIsAccepted(canon: Canon, m: Member)
    requires ValueOk(m.value)
    ensures MemberFails(canon, m) <==> !Accepts(canon, m)
  {
    TextIsAccepted(m.value);
    IntegerIsAccepted(m.value);
    MetaBlockIsAccepted(m.value);
    DeadLetterBlockIsAccepted(m.value);
    hide AssignString, AssignInt, IsInteger, MetaBlockFails, DeadLetterBlockFails, AllAccepted;
  }

  /** An object is decoded exactly when each of its members is accepted, also one that a later one displaces. */
  lemma FailsExactlyWhen(canon: Canon, ms: seq<Member>)
    requires MembersOk(ms)
    ensures DecodeMembers(canon, ms).Failed? <==> exists i :: 0 <= i < |ms| && !Accepts(canon, ms[i])
  {
    forall i | 0 <= i < |ms| ensures MemberFails(canon, ms[i]) <==> !Accepts(canon, ms[i]) {
      MemberIsAccepted(canon, ms[i]);
    }
    hide MemberFails, Accepts, Collected;
  }

  // ---------- Which field each name fills ----------

  /** The text of a string literal. */
  predicate IsTextOf(v: Option<Value>, s: string) {
    v.Some? && v.value.Text? && ItemsOk(v.value.items) && s == Coerce(Meaning(v.value.items))
  }

  predicate IsMissing(v: Option<Value>) { v.None? || v.value == NULL }

  predicate ReadsText(v: Option<Value>, s: string) { if IsMissing(v) then s == "" else IsTextOf(v, s) }

  predicate ReadsPointer(v: Option<Value>, p: Option<string>) {
    if IsMissing(v) then p == None else p.Some? && IsTextOf(v, p.value)
  }

  predicate ReadsInteger(v: Option<Value>, n: int) {
    if IsMissing(v) then n == 0 else ValueOk(v.value) && IsInteger(v.value) && n == IntegerOf(v.value.number)
  }

  predicate ReadsData(canon: Canon, v: Option<Value>, data: Option<Value>) {
    if IsMissing(v) then data == None else IsObject(v.value) && data.Some? && canon(v.value) == data
  }

  /** The members of an object, and the last value of a name among them. */
  predicate HasMembers(v: Option<Value>, ms: seq<Member>) {
    v.Some? && ValueOk(v.value) && IsObject(v.value) && ms == Named(Members(v.value))
  }

  function Of(ms: seq<Member>, name: string): Option<Value> { Last(ms, |ms|, name) }

  ghost predicate ReadsMeta(v: Option<Value>, meta: Meta, extras: map<string, Value>) {
    if IsMissing(v) then meta == Meta("", "", "", 0, 0) && extras == map[]
    else exists ms | HasMembers(v, ms) ::
      && ReadsText(Of(ms, "id"), meta.id) && ReadsText(Of(ms, "queue"), meta.queue)
      && ReadsText(Of(ms, "lang"), meta.lang)
      && ReadsInteger(Of(ms, "schema_version"), meta.schemaVersion)
      && ReadsInteger(Of(ms, "created_at"), meta.createdAt)
      && (forall name :: name in extras <==> name !in CORE_META + FORBIDDEN_META && Of(ms, name).Some?)
      && (forall name :: name in extras ==> Some(extras[name]) == Of(ms, name))
  }

  ghost predicate ReadsDeadLetter(v: Option<Value>, d: Option<DeadLetter>) {
    if IsMissing(v) then d == None
    else d.Some? && exists ms | HasMembers(v, ms) ::
      && ReadsText(Of(ms, "reason"), d.value.reason) && ReadsPointer(Of(ms, "error"), d.value.error)
      && ReadsPointer(Of(ms, "exception"), d.value.exception)
      && ReadsInteger(Of(ms, "failed_at"), d.value.failedAt)
      && ReadsText(Of(ms, "original_queue"), d.value.originalQueue)
      && ReadsInteger(Of(ms, "attempts"), d.value.attempts) && ReadsText(Of(ms, "lang"), d.value.lang)
  }

  lemma TextIsRead(v: Option<Value>)
    requires v.Some? ==> ValueOk(v.value) && (v.value == NULL || v.value.Text?)
    ensures ReadsText(v, StringField(v)) && ReadsPointer(v, PointerField(v))
  {
    hide Meaning, Coerce;
  }

  lemma IntegerIsRead(v: Option<Value>)
    requires v.Some? ==> ValueOk(v.value) && (v.value == NULL || IsInteger(v.value))
    ensures ReadsInteger(v, IntField(v))
  {
    hide DigitsValue;
  }

  lemma DataIsRead(canon: Canon, v: Option<Value>)
    requires v.Some? ==> v.value == NULL || (IsObject(v.value) && canon(v.value).Some?)
    ensures ReadsData(canon, v, DataField(canon, v))
  {
  }

  /** The last member of a name is one of the members. */
  lemma {:induction false} LastIs(ms: seq<Member>, n: nat, name: string)
    requires n <= |ms| && Last(ms, n, name).Some?
    ensures exists i :: 0 <= i < n && ms[i] == Member(name, Last(ms, n, name).value)
  {
    if ms[n - 1].name != name { LastIs(ms, n - 1, name); }
  }

  lemma MetaLastIsAccepted(ms: seq<Member>, name: string)
    requires MembersOk(ms) && (forall i :: 0 <= i < |ms| ==> AcceptsMeta(ms[i])) && Of(ms, name).Some?
    ensures ValueOk(Of(ms, name).value) && AcceptsMeta(Member(name, Of(ms, name).value))
  {
    hide Last, AcceptsMeta;
    LastIs(ms, |ms|, name);
  }

  lemma MetaIsRead(v: Option<Value>)
    requires v.Some? ==> ValueOk(v.value)
    requires IsMissing(v) || (IsObject(v.value) && AllAccepted(v.value, AcceptsMeta))
    ensures ReadsMeta(v, MetaField(v).meta, MetaField(v).extras)
  {
    if !IsMissing(v) {
      MembersOfOk(v.value);
      var ms := Named(Members(v.value));
      MetaMembersAreRead(ms);
      hide AcceptsMeta, Last, ReadsText, ReadsInteger, StringField, IntField, CORE_META, FORBIDDEN_META;
      assert HasMembers(v, ms);
      forall name
        ensures name in MetaField(v).extras <==> name !in CORE_META + FORBIDDEN_META && Of(ms, name).Some?
        ensures name in MetaField(v).extras ==> Some(MetaField(v).extras[name]) == Of(ms, name)
      {
        UnknownIsLast(ms, |ms|, CORE_META + FORBIDDEN_META, name);
      }
    }
  }

  lemma MetaMembersAreRead(ms: seq<Member>)
    requires MembersOk(ms) && forall i :: 0 <= i < |ms| ==> AcceptsMeta(ms[i])
    ensures ReadsText(Of(ms, "id"), StringField(Of(ms, "id")))
    ensures ReadsText(Of(ms, "queue"), StringField(Of(ms, "queue")))
    ensures ReadsText(Of(ms, "lang"), StringField(Of(ms, "lang")))
    ensures ReadsInteger(Of(ms, "schema_version"), IntField(Of(ms, "schema_version")))
    ensures ReadsInteger(Of(ms, "created_at"), IntField(Of(ms, "created_at")))
  {
    hide Of, IsInteger, ReadsText, ReadsPointer, ReadsInteger, StringField, IntField, PointerField;
    MetaTextIsRead(ms, "id");
    MetaTextIsRead(ms, "queue");
    MetaTextIsRead(ms, "lang");
    MetaIntegerIsRead(ms, "schema_version");
    MetaIntegerIsRead(ms, "created_at");
  }

  lemma MetaTextIsRead(ms: seq<Member>, name: string)
    requires MembersOk(ms) && (forall i :: 0 <= i < |ms| ==> AcceptsMeta(ms[i])) && name in {"id", "queue", "lang"}
    ensures ReadsText(Of(ms, name), StringField(Of(ms, name)))
  {
    hide Of, IsInteger, ReadsText, ReadsPointer, StringField, PointerField;
    if Of(ms, name).Some? { MetaLastIsAccepted(ms, name); }
    TextIsRead(Of(ms, name));
  }

  lemma MetaIntegerIsRead(ms: seq<Member>, name: string)
    requires MembersOk(ms) && forall i :: 0 <= i < |ms| ==> AcceptsMeta(ms[i])
    requires name in {"schema_version", "created_at"}
    ensures ReadsInteger(Of(ms, name), IntField(Of(ms, name)))
  {
    hide Of, IsInteger, ReadsInteger, IntField;
    if Of(ms, name).Some? { MetaLastIsAccepted(ms, name); }
    IntegerIsRead(Of(ms, name));
  }

  lemma DeadLetterLastIsAccepted(ms: seq<Member>, name: string)
    requires MembersOk(ms) && (forall i :: 0 <= i < |ms| ==> AcceptsDeadLetter(ms[i])) && Of(ms, name).Some?
    ensures ValueOk(Of(ms, name).value) && AcceptsDeadLetter(Member(name, Of(ms, name).value))
  {
    hide Last, AcceptsDeadLetter;
    LastIs(ms, |ms|, name);
  }

  lemma DeadLetterTextIsRead(ms: seq<Member>, name: string)
    requires MembersOk(ms) && forall i :: 0 <= i < |ms| ==> AcceptsDeadLetter(ms[i])
    requires name in {"reason", "original_queue", "lang", "error", "exception"}
    ensures ReadsText(Of(ms, name), StringField(Of(ms, name))) && ReadsPointer(Of(ms, name), PointerField(Of(ms, name)))
  {
    hide Of, IsInteger, ReadsText, ReadsPointer, StringField, PointerField;
    if Of(ms, name).Some? { DeadLetterLastIsAccepted(ms, name); }
    TextIsRead(Of(ms, name));
  }

  lemma DeadLetterIntegerIsRead(ms: seq<Member>, name: string)
    requires MembersOk(ms) && forall i :: 0 <= i < |ms| ==> AcceptsDeadLetter(ms[i])
    requires name in {"failed_at", "attempts"}
    ensures ReadsInteger(Of(ms, name), IntField(Of(ms, name)))
  {
    hide Of, IsInteger, ReadsInteger, IntField;
    if Of(ms, name).Some? { DeadLetterLastIsAccepted(ms, name); }
    IntegerIsRead(Of(ms, name));
  }

  lemma DeadLetterIsRead(v: Option<Value>)
    requires v.Some? ==> ValueOk(v.value)
    requires IsMissing(v) || (IsObject(v.value) && AllAccepted(v.value, AcceptsDeadLetter))
    ensures ReadsDeadLetter(v, DeadLetterField(v))
  {
    if !IsMissing(v) {
      MembersOfOk(v.value);
      var ms := Named(Members(v.value));
      assert HasMembers(v, ms);
      hide AcceptsDeadLetter, Last, ReadsText, ReadsPointer, ReadsInteger, StringField, IntField, PointerField;
      DeadLetterTextIsRead(ms, "reason");
      DeadLetterTextIsRead(ms, "error");
      DeadLetterTextIsRead(ms, "exception");
      DeadLetterIntegerIsRead(ms, "failed_at");
      DeadLetterTextIsRead(ms, "original_queue");
      DeadLetterIntegerIsRead(ms, "attempts");
      DeadLetterTextIsRead(ms, "lang");
    }
  }

  lemma LastIsAccepted(canon: Canon, ms: seq<Member>, name: string)
    requires MembersOk(ms) && (forall i :: 0 <= i < |ms| ==> Accepts(canon, ms[i])) && Of(ms, name).Some?
    ensures ValueOk(Of(ms, name).value) && Accepts(canon, Member(name, Of(ms, name).value))
  {
    hide Last, Accepts;
    LastIs(ms, |ms|, name);
  }

  /** Every field of a decoded envelope is what the last member of its name says; a missing or null one is the zero
      value of the field. */
  lemma FieldsAreRead(canon: Canon, ms: seq<Member>)
    requires MembersOk(ms) && !DecodeMembers(canon, ms).Failed?
    ensures var e := DecodeMembers(canon, ms).envelope;
      && ReadsText(Of(ms, "trace_id"), e.traceId) && ReadsInteger(Of(ms, "attempts"), e.attempts)
      && ReadsData(canon, Of(ms, "data"), e.data)
      && ReadsMeta(Of(ms, "meta"), e.meta, e.metaExtras)
      && ReadsDeadLetter(Of(ms, "dead_letter"), e.deadLetter)
  {
    FailsExactlyWhen(canon, ms);
    ResolvedKeeps(Collected(canon, ms, |ms|));
    hide Resolved, NoMemberFails, Accepts, ReadsText, ReadsInteger, ReadsData, ReadsMeta, ReadsDeadLetter, IsInteger,
      StringField, IntField, DataField, MetaField, DeadLetterField, JobField, IdentityField, Seen, Unknown, KNOWN,
      FORBIDDEN;
    TopFieldsAreRead(canon, ms);
  }

  lemma ResolvedKeeps(p: Parts)
    ensures !Resolved(p).Failed?
    ensures var e := Resolved(p).envelope;
      && e.traceId == p.traceId && e.attempts == p.attempts && e.data == p.data && e.deadLetter == p.deadLetter
      && e.meta == p.meta.meta && e.metaExtras == p.meta.extras
  {
  }

  lemma TopFieldsAreRead(canon: Canon, ms: seq<Member>)
    requires MembersOk(ms) && forall i :: 0 <= i < |ms| ==> Accepts(canon, ms[i])
    ensures ReadsText(Of(ms, "trace_id"), StringField(Of(ms, "trace_id")))
    ensures ReadsInteger(Of(ms, "attempts"), IntField(Of(ms, "attempts")))
    ensures ReadsData(canon, Of(ms, "data"), DataField(canon, Of(ms, "data")))
    ensures ReadsMeta(Of(ms, "meta"), MetaField(Of(ms, "meta")).meta, MetaField(Of(ms, "meta")).extras)
    ensures ReadsDeadLetter(Of(ms, "dead_letter"), DeadLetterField(Of(ms, "dead_letter")))
  {
    hide Of, Accepts;
    hide ReadsText, ReadsPointer, ReadsInteger, ReadsData, ReadsMeta, ReadsDeadLetter, IsInteger, AllAccepted,
      StringField, IntField, PointerField, DataField, MetaField, DeadLetterField;
    TraceIsRead(canon, ms);
    AttemptsAreRead(canon, ms);
    DataFieldIsRead(canon, ms);
    MetaFieldIsRead(canon, ms);
    DeadLetterFieldIsRead(canon, ms);
  }

  lemma TraceIsRead(canon: Canon, ms: seq<Member>)
    requires MembersOk(ms) && forall i :: 0 <= i < |ms| ==> Accepts(canon, ms[i])
    ensures ReadsText(Of(ms, "trace_id"), StringField(Of(ms, "trace_id")))
  {
    hide Of, ReadsText, ReadsPointer, IsInteger, AllAccepted, StringField, PointerField;
    if Of(ms, "trace_id").Some? { LastIsAccepted(canon, ms, "trace_id"); }
    TextIsRead(Of(ms, "trace_id"));
  }

  lemma AttemptsAreRead(canon: Canon, ms: seq<Member>)
    requires MembersOk(ms) && forall i :: 0 <= i < |ms| ==> Accepts(canon, ms[i])
    ensures ReadsInteger(Of(ms, "attempts"), IntField(Of(ms, "attempts")))
  {
    hide Of, ReadsInteger, IsInteger, AllAccepted, IntField;
    if Of(ms, "attempts").Some? { LastIsAccepted(canon, ms, "attempts"); }
    IntegerIsRead(Of(ms, "attempts"));
  }

  lemma DataFieldIsRead(canon: Canon, ms: seq<Member>)
    requires MembersOk(ms) && forall i :: 0 <= i < |ms| ==> Accepts(canon, ms[i])
    ensures ReadsData(canon, Of(ms, "data"), DataField(canon, Of(ms, "data")))
  {
    hide Of, ReadsData, IsInteger, AllAccepted, DataField;
    if Of(ms, "data").Some? { LastIsAccepted(canon, ms, "data"); }
    DataIsRead(canon, Of(ms, "data"));
  }

  lemma MetaFieldIsRead(canon: Canon, ms: seq<Member>)
    requires MembersOk(ms) && forall i :: 0 <= i < |ms| ==> Accepts(canon, ms[i])
    ensures ReadsMeta(Of(ms, "meta"), MetaField(Of(ms, "meta")).meta, MetaField(Of(ms, "meta")).extras)
  {
    hide Of, ReadsMeta, IsInteger, AllAccepted, MetaField;
    if Of(ms, "meta").Some? { LastIsAccepted(canon, ms, "meta"); }
    MetaIsRead(Of(ms, "meta"));
  }

  lemma DeadLetterFieldIsRead(canon: Canon, ms: seq<Member>)
    requires MembersOk(ms) && forall i :: 0 <= i < |ms| ==> Accepts(canon, ms[i])
    ensures ReadsDeadLetter(Of(ms, "dead_letter"), DeadLetterField(Of(ms, "dead_letter")))
  {
    hide Of, ReadsDeadLetter, IsInteger, AllAccepted, DeadLetterField;
    if Of(ms, "dead_letter").Some? { LastIsAccepted(canon, ms, "dead_letter"); }
    DeadLetterIsRead(Of(ms, "dead_letter"));
  }

  /** The identity is the text of the last job, if that is a string with some ink, or else of the last alias; without
      such a string there is none. */
  lemma IdentityIsRead(canon: Canon, ms: seq<Member>)
    requires MembersOk(ms) && !DecodeMembers(canon, ms).Failed?
    ensures var r := DecodeMembers(canon, ms);
      && (r.Ok? <==> exists s :: (IsTextOf(Of(ms, "job"), s) || IsTextOf(Of(ms, "urn"), s)) && !AsciiSpace.IsBlank(s))
      && (forall s :: IsTextOf(Of(ms, "job"), s) && !AsciiSpace.IsBlank(s) ==> r.envelope.job == s)
      && ((forall s :: IsTextOf(Of(ms, "job"), s) ==> AsciiSpace.IsBlank(s)) ==>
          forall s :: IsTextOf(Of(ms, "urn"), s) ==> r.envelope.job == s)
  {
    TextOfIs(ms, "job");
    TextOfIs(ms, "urn");
    hide Of, IdentityField, StringField, DataField, IntField, MetaField, DeadLetterField, Seen, Unknown, DroppedKeys,
      NoMemberFails, IsTextOf, Sorted;
    LastOfName(ms);
    ResolvedJob(Collected(canon, ms, |ms|));
    hide Resolved;
  }

  lemma LastOfName(ms: seq<Member>)
    ensures forall name :: Of(ms, name) == Last(ms, |ms|, name)
  {
  }

  lemma TextOfIs(ms: seq<Member>, name: string)
    requires MembersOk(ms)
    ensures forall s :: IsTextOf(Of(ms, name), s) <==> IdentityField(Of(ms, name)) == Some(s)
  {
    if Of(ms, name).Some? { LastIs(ms, |ms|, name); }
    hide Last, Meaning, Coerce;
  }

  lemma ResolvedJob(p: Parts)
    ensures Resolved(p).envelope.job == if AsciiSpace.IsBlank(p.job) && p.alias.Some? then p.alias.value else p.job
    ensures Resolved(p).Ok? <==> !AsciiSpace.IsBlank(Resolved(p).envelope.job)
  {
  }

  // ---------- Null ----------

  /** Putting null in the place of a typed member keeps what decodes decodable, and if that member counts, the field is
      the zero value. */
  lemma NullResets(canon: Canon, ms: seq<Member>, i: nat)
    requires MembersOk(ms) && !DecodeMembers(canon, ms).Failed? && i < |ms|
    requires forall j :: i < j < |ms| ==> ms[j].name != ms[i].name
    ensures var now := ms[i := Member(ms[i].name, NULL)]; var r := DecodeMembers(canon, now);
      && MembersOk(now) && !r.Failed?
      && (ms[i].name == "trace_id" ==> r.envelope.traceId == "")
      && (ms[i].name == "attempts" ==> r.envelope.attempts == 0)
      && (ms[i].name == "data" ==> r.envelope.data == None)
      && (ms[i].name == "meta" ==> r.envelope.meta == Meta("", "", "", 0, 0) && r.envelope.metaExtras == map[])
      && (ms[i].name == "dead_letter" ==> r.envelope.deadLetter == None)
  {
    var now := ms[i := Member(ms[i].name, NULL)];
    NullIsAccepted(canon, ms[i].name);
    FailsExactlyWhen(canon, ms);
    hide DecodeMembers, Accepts, Last, ValueOk, ReadsMeta, ReadsDeadLetter;
    FailsExactlyWhen(canon, now);
    LastIsAt(now, |now|, i);
    FieldsAreRead(canon, now);
    MissingReads(canon, DecodeMembers(canon, now).envelope);
  }

  lemma MissingReads(canon: Canon, e: Envelope)
    ensures ReadsMeta(Some(NULL), e.meta, e.metaExtras) ==> e.meta == Meta("", "", "", 0, 0) && e.metaExtras == map[]
    ensures ReadsDeadLetter(Some(NULL), e.deadLetter) ==> e.deadLetter == None
  {
  }

  lemma NullIsAccepted(canon: Canon, name: string)
    ensures ValueOk(NULL) && Accepts(canon, Member(name, NULL))
    ensures AcceptsMeta(Member(name, NULL)) && AcceptsDeadLetter(Member(name, NULL))
  {
  }

  lemma {:induction false} LastIsAt(ms: seq<Member>, n: nat, i: nat)
    requires i < n <= |ms| && forall j :: i < j < n ==> ms[j].name != ms[i].name
    ensures Last(ms, n, ms[i].name) == Some(ms[i].value)
  {
    if n - 1 != i { LastIsAt(ms, n - 1, i); }
  }

  /** The same inside meta and dead_letter. */
  lemma NullResetsInside(ms: seq<Member>, i: nat)
    requires MembersOk(ms) && i < |ms| && forall j :: i < j < |ms| ==> ms[j].name != ms[i].name
    ensures var now := ms[i := Member(ms[i].name, NULL)]; var name := ms[i].name;
      && MembersOk(now)
      && (NoMetaFails(ms, |ms|) ==>
          && NoMetaFails(now, |now|)
          && (name in {"id", "queue", "lang"} ==> StringField(Of(now, name)) == "")
          && (name in {"schema_version", "created_at"} ==> IntField(Of(now, name)) == 0))
      && (NoDeadLetterFails(ms, |ms|) ==>
          && NoDeadLetterFails(now, |now|)
          && (name in {"reason", "original_queue", "lang"} ==> StringField(Of(now, name)) == "")
          && (name in {"failed_at", "attempts"} ==> IntField(Of(now, name)) == 0)
          && (name in {"error", "exception"} ==> PointerField(Of(now, name)) == None))
  {
    var now := ms[i := Member(ms[i].name, NULL)];
    NullIsAccepted(v => None, ms[i].name);
    MetaIsAccepted(Member(ms[i].name, NULL));
    DeadLetterIsAccepted(Member(ms[i].name, NULL));
    LastIsAt(now, |now|, i);
    hide Last, MetaFails, DeadLetterFails, AcceptsMeta, AcceptsDeadLetter;
  }

  // ---------- The document ----------

  /** What a body is decoded as, by its reading: nothing for null, the members for an object, a failure otherwise. */
  lemma BodyIsRead(canon: Canon, body: string, d: Doc)
    requires Reads(d, body)
    ensures d.value == NULL ==> DecodeBody(canon, body) == NoIdentity(NO_ENVELOPE)
    ensures IsObject(d.value) ==> MembersOk(Named(Members(d.value)))
    ensures IsObject(d.value) ==> DecodeBody(canon, body) == DecodeMembers(canon, Named(Members(d.value)))
    ensures d.value != NULL && !IsObject(d.value) ==> DecodeBody(canon, body).Failed?
  {
    ReadingIsUnique(d, body);
    NullDocument(d);
    if IsObject(d.value) { MembersOfOk(d.value); }
    hide ParseDoc, IsJsonNull, DecodeMembers, Reads;
  }

  lemma {:induction false} BlankIsSkipped(blank: string, t: string)
    requires IsBlank(blank)
    ensures SkipSpaces(blank + t) == SkipSpaces(t)
  {
    if blank == "" {
      assert blank + t == t;
    } else {
      assert AsciiSpace.IsSpace(blank[0]);
      assert SpaceLength(blank + t) == 1;
      BlankIsSkipped(blank[1..], t);
      assert (blank + t)[1..] == blank[1..] + t;
    }
  }

  lemma NullDocument(d: Doc)
    requires DocOk(d)
    ensures IsJsonNull(DocText(d)) <==> d.value == NULL
  {
    var t := ValueThen(d.value, d.after);
    BlankIsSkipped(d.before, t);
    BlankIsSkipped(d.after, "");
    assert d.after + "" == d.after;
    ValueStart(d.value, d.after);
    StartIsInk(t);
    if d.value == NULL {
      assert t == "null" + d.after && t[4..] == d.after;
    } else if "null" <= t {
      OnlyNull(d.value, d.after);
    }
  }

  lemma StartIsInk(t: string)
    requires t != "" && StartsValue(t[0])
    ensures SkipSpaces(t) == t
  {
  }

  lemma OnlyNull(v: Value, rest: string)
    requires ValueOk(v) && "null" <= ValueThen(v, rest)
    ensures v == NULL
  {
    if v.Numeric? { NumberStart(v.number, rest); }
    assert "null"[0] == 'n' && "true"[0] == 't' && "false"[0] == 'f';
  }
}
