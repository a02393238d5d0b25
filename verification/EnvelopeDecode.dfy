/**
  Decode of envelope_codec.go: one pass over the members of an object that ends in exactly what the last
  occurrence of each name says, whatever was repeated, displaced, forbidden or unknown. The passes over
  meta and dead_letter are of the same kind.
 */
module EnvelopeDecode {
  import opened Wrappers
  import opened JsonGrammar
  import opened JsonParser
  import opened JsonStrings
  import opened KeyOrder
  import opened EnvelopeFields
  import opened UnicodeSpace
  import AsciiSpace

  datatype Meta = Meta(id: string, queue: string, lang: string, schemaVersion: int, createdAt: int)

  datatype DeadLetter = DeadLetter(
    reason: string, error: Option<string>, exception: Option<string>, failedAt: int, originalQueue: string,
    attempts: int, lang: string)

  datatype Warning = IgnoredJob | DroppedKey(pointer: string)

  /** data is None for a nil map; extras and metaExtras hold raw values. */
  datatype Envelope = Envelope(
    job: string, traceId: string, data: Option<Value>, meta: Meta, attempts: int, deadLetter: Option<DeadLetter>,
    extras: map<string, Value>, metaExtras: map<string, Value>, warnings: seq<Warning>)

  datatype Decoded = Ok(envelope: Envelope) | NoIdentity(envelope: Envelope) | Failed

  const NO_META := Meta("", "", "", 0, 0)
  const NO_ENVELOPE := Envelope("", "", None, NO_META, 0, None, map[], map[], [])

  const CORE_META := {"id", "queue", "lang", "schema_version", "created_at"}
  const FORBIDDEN_META := {"max_retries", "attempts", "source", "ts"}
  const KNOWN := {"job", "trace_id", "data", "attempts", "meta", "dead_letter", "urn"}
  const FORBIDDEN := {"timestamp"}

  /** What map[string]any makes of an object: None where it cannot hold the value. */
  type Canon = Value -> Option<Value>

  /** A map: null or an object. */
  function AssignData(canon: Canon, v: Value): Option<Option<Value>> {
    if IsNull(v) then Some(None)
    else if !IsObject(v) then None
    else match canon(v) case None => None case Some(u) => Some(Some(u))
  }

  // ---------- What the last occurrence says ----------

  /** The value of the last member so named among the first n. */
  function Last(ms: seq<Member>, n: nat, name: string): Option<Value>
    requires n <= |ms|
  {
    if n == 0 then None else if ms[n - 1].name == name then Some(ms[n - 1].value) else Last(ms, n - 1, name)
  }

  function StringField(v: Option<Value>): string {
    if v.Some? && ValueOk(v.value) && AssignString(v.value).Some? then AssignString(v.value).value else ""
  }

  function IntField(v: Option<Value>): int {
    if v.Some? && ValueOk(v.value) && AssignInt(v.value).Some? then AssignInt(v.value).value else 0
  }

  function PointerField(v: Option<Value>): Option<string> {
    if v.Some? && ValueOk(v.value) && AssignPointer(v.value).Some? then AssignPointer(v.value).value else None
  }

  /** Only a JSON string is a job or an alias. */
  function IdentityField(v: Option<Value>): Option<string> {
    if v.Some? && ValueOk(v.value) then StringOf(v.value) else None
  }

  /** The members whose names are not in `own`, each with its last value. */
  function Unknown(ms: seq<Member>, n: nat, own: set<string>): map<string, Value>
    requires n <= |ms|
  {
    if n == 0 then map[]
    else
      var before := Unknown(ms, n - 1, own);
      if ms[n - 1].name in own then before else before[ms[n - 1].name := ms[n - 1].value]
  }

  lemma {:induction false} UnknownIsLast(ms: seq<Member>, n: nat, own: set<string>, name: string)
    requires n <= |ms|
    ensures name in Unknown(ms, n, own) <==> name !in own && Last(ms, n, name).Some?
    ensures name in Unknown(ms, n, own) ==> Unknown(ms, n, own)[name] == Last(ms, n, name).value
  {
    if n > 0 { UnknownIsLast(ms, n - 1, own, name); }
  }

  function Seen(ms: seq<Member>, n: nat, names: set<string>): set<string>
    requires n <= |ms|
  {
    set k | k in names && Last(ms, n, k).Some?
  }

  // ---------- The specification ----------

  predicate MetaFails(m: Member)
    requires ValueOk(m.value)
  {
    (m.name in {"id", "queue", "lang"} && AssignString(m.value) == None)
    || (m.name in {"schema_version", "created_at"} && AssignInt(m.value) == None)
  }

  predicate DeadLetterFails(m: Member)
    requires ValueOk(m.value)
  {
    (m.name in {"reason", "original_queue", "lang"} && AssignString(m.value) == None)
    || (m.name in {"failed_at", "attempts"} && AssignInt(m.value) == None)
    || (m.name in {"error", "exception"} && AssignPointer(m.value) == None)
  }

  /** None of the first n members fails. */
  predicate NoMetaFails(ms: seq<Member>, n: nat)
    requires n <= |ms| && MembersOk(ms)
  {
    forall k :: 0 <= k < n ==> !MetaFails(ms[k])
  }

  predicate NoDeadLetterFails(ms: seq<Member>, n: nat)
    requires n <= |ms| && MembersOk(ms)
  {
    forall k :: 0 <= k < n ==> !DeadLetterFails(ms[k])
  }

  /** The members of an object that are fit to be read: what MembersOf gives, and always is. */
  function BlockMembers(v: Value): (ms: Option<seq<Member>>)
    requires ValueOk(v)
    ensures ms == MembersOf(v)
    ensures ms.Some? ==> MembersOk(ms.value)
  {
    if IsObject(v) then MembersOfOk(v); MembersOf(v) else None
  }

  predicate MetaBlockFails(v: Value)
    requires ValueOk(v)
  {
    !IsNull(v) && (BlockMembers(v).None? || !NoMetaFails(BlockMembers(v).value, |BlockMembers(v).value|))
  }

  predicate DeadLetterBlockFails(v: Value)
    requires ValueOk(v)
  {
    !IsNull(v) && (BlockMembers(v).None? || !NoDeadLetterFails(BlockMembers(v).value, |BlockMembers(v).value|))
  }

  /** The occurrence is type-checked and fails, whether or not a later one displaces it. */
  predicate MemberFails(canon: Canon, m: Member)
    requires ValueOk(m.value)
  {
    (m.name == "trace_id" && AssignString(m.value) == None)
    || (m.name == "data" && AssignData(canon, m.value) == None)
    || (m.name == "attempts" && AssignInt(m.value) == None)
    || (m.name == "meta" && MetaBlockFails(m.value))
    || (m.name == "dead_letter" && DeadLetterBlockFails(m.value))
  }

  function MetaOf(ms: seq<Member>, n: nat): Meta
    requires n <= |ms|
  {
    Meta(StringField(Last(ms, n, "id")), StringField(Last(ms, n, "queue")), StringField(Last(ms, n, "lang")),
      IntField(Last(ms, n, "schema_version")), IntField(Last(ms, n, "created_at")))
  }

  datatype MetaState = MetaState(meta: Meta, extras: map<string, Value>, forbidden: set<string>)

  function CollectedMeta(ms: seq<Member>, n: nat): MetaState
    requires n <= |ms|
  {
    MetaState(MetaOf(ms, n), Unknown(ms, n, CORE_META + FORBIDDEN_META), Seen(ms, n, FORBIDDEN_META))
  }

  function DeadLetterOf(ms: seq<Member>, n: nat): DeadLetter
    requires n <= |ms|
  {
    DeadLetter(StringField(Last(ms, n, "reason")), PointerField(Last(ms, n, "error")),
      PointerField(Last(ms, n, "exception")), IntField(Last(ms, n, "failed_at")),
      StringField(Last(ms, n, "original_queue")), IntField(Last(ms, n, "attempts")), StringField(Last(ms, n, "lang")))
  }

  /** The members of the block that counts: none when it is missing or null. */
  function Block(v: Option<Value>): Option<seq<Member>> {
    if v.Some? && ValueOk(v.value) && !IsNull(v.value) then MembersOf(v.value) else None
  }

  /** Everything the first n members say, with the identity not yet resolved. */
  datatype Parts = Parts(
    job: string, jobIgnored: bool, traceId: string, data: Option<Value>, attempts: int, meta: MetaState,
    deadLetter: Option<DeadLetter>, alias: Option<string>, urnSeen: bool, forbidden: set<string>,
      extras: map<string, Value>)

  const NO_META_STATE := MetaState(NO_META, map[], {})
  const NO_PARTS := Parts("", false, "", None, 0, NO_META_STATE, None, None, false, {}, map[])

  function DataField(canon: Canon, v: Option<Value>): Option<Value> {
    if v.Some? && AssignData(canon, v.value).Some? then AssignData(canon, v.value).value else None
  }

  function JobField(v: Option<Value>): string { if IdentityField(v).Some? then IdentityField(v).value else "" }

  function MetaField(v: Option<Value>): MetaState {
    var ms := Block(v);
    if ms.Some? then CollectedMeta(ms.value, |ms.value|) else NO_META_STATE
  }

  function DeadLetterField(v: Option<Value>): Option<DeadLetter> {
    var ms := Block(v);
    if ms.Some? then Some(DeadLetterOf(ms.value, |ms.value|)) else None
  }

  function Collected(canon: Canon, ms: seq<Member>, n: nat): Parts
    requires n <= |ms|
  {
    Parts(
      JobField(Last(ms, n, "job")),
      Last(ms, n, "job").Some? && IdentityField(Last(ms, n, "job")).None?,
      StringField(Last(ms, n, "trace_id")),
      DataField(canon, Last(ms, n, "data")),
      IntField(Last(ms, n, "attempts")),
      MetaField(Last(ms, n, "meta")),
      DeadLetterField(Last(ms, n, "dead_letter")),
      IdentityField(Last(ms, n, "urn")),
      Last(ms, n, "urn").Some?,
      Seen(ms, n, FORBIDDEN),
      Unknown(ms, n, KNOWN + FORBIDDEN))
  }

  function DroppedKeys(keys: seq<string>, prefix: string): seq<Warning> {
    seq(|keys|, i requires 0 <= i < |keys| => DroppedKey(prefix + keys[i]))
  }

  /** The identity, and the warnings in their order. */
  function Resolved(p: Parts): Decoded {
    var usesAlias := AsciiSpace.IsBlank(p.job) && p.alias.Some?;
    var forbidden := p.forbidden + if p.urnSeen && !usesAlias then {"urn"} else {};
    var e := Envelope(
      if usesAlias then p.alias.value else p.job, p.traceId, p.data, p.meta.meta, p.attempts, p.deadLetter,
      p.extras, p.meta.extras,
      (if p.jobIgnored then [IgnoredJob] else [])
      + DroppedKeys(Sorted(forbidden), "/") + DroppedKeys(Sorted(p.meta.forbidden), "/meta/"));
    if AsciiSpace.IsBlank(e.job) then NoIdentity(e) else Ok(e)
  }

  predicate NoMemberFails(canon: Canon, ms: seq<Member>, n: nat)
    requires n <= |ms| && MembersOk(ms)
  {
    forall k :: 0 <= k < n ==> !MemberFails(canon, ms[k])
  }

  function DecodeMembers(canon: Canon, ms: seq<Member>): Decoded
    requires MembersOk(ms)
  {
    if NoMemberFails(canon, ms, |ms|) then Resolved(Collected(canon, ms, |ms|)) else Failed
  }

  // ---------- The code: one pass, member by member ----------

  /** What one member of a meta object changes; None when it fails. */
  function MetaMember(s: MetaState, m: Member): Option<MetaState>
    requires ValueOk(m.value)
  {
    var text := AssignString(m.value);
    var number := AssignInt(m.value);
    if m.name == "id" then (if text == None then None else Some(s.(meta := s.meta.(id := text.value))))
    else if m.name == "queue" then (if text == None then None else Some(s.(meta := s.meta.(queue := text.value))))
    else if m.name == "lang" then (if text == None then None else Some(s.(meta := s.meta.(lang := text.value))))
    else if m.name == "schema_version" then
      (if number == None then None else Some(s.(meta := s.meta.(schemaVersion := number.value))))
    else if m.name == "created_at" then
      (if number == None then None else Some(s.(meta := s.meta.(createdAt := number.value))))
    else if m.name in FORBIDDEN_META then Some(s.(forbidden := s.forbidden + {m.name}))
    else Some(s.(extras := s.extras[m.name := m.value]))
  }

  lemma SeenNext(ms: seq<Member>, n: nat, names: set<string>)
    requires n < |ms|
    ensures Seen(ms, n + 1, names) ==
      if ms[n].name in names then Seen(ms, n, names) + {ms[n].name} else Seen(ms, n, names)
  {
  }

  lemma UnknownNext(ms: seq<Member>, n: nat, own: set<string>)
    requires n < |ms|
    ensures Unknown(ms, n + 1, own) ==
      if ms[n].name in own then Unknown(ms, n, own) else Unknown(ms, n, own)[ms[n].name := ms[n].value]
  {
  }

  lemma MetaNext(ms: seq<Member>, n: nat)
    requires n < |ms|
    ensures MetaOf(ms, n + 1) ==
      Meta(StringField(if ms[n].name == "id" then Some(ms[n].value) else Last(ms, n, "id")),
           StringField(if ms[n].name == "queue" then Some(ms[n].value) else Last(ms, n, "queue")),
           StringField(if ms[n].name == "lang" then Some(ms[n].value) else Last(ms, n, "lang")),
           IntField(if ms[n].name == "schema_version" then Some(ms[n].value) else Last(ms, n, "schema_version")),
           IntField(if ms[n].name == "created_at" then Some(ms[n].value) else Last(ms, n, "created_at")))
  {
    hide StringField, IntField;
  }

  lemma MetaNamesDiffer(name: string)
    ensures name in FORBIDDEN_META ==> name !in CORE_META
    ensures name in CORE_META <==>
      name == "id" || name == "queue" || name == "lang" || name == "schema_version" || name == "created_at"
  {
    assert "id"[0] == 'i' && "ts"[0] == 't';
  }

  lemma MetaMemberCollects(ms: seq<Member>, n: nat)
    requires n < |ms| && MembersOk(ms)
    ensures MetaMember(CollectedMeta(ms, n), ms[n]) ==
      if MetaFails(ms[n]) then None else Some(CollectedMeta(ms, n + 1))
  {
    if ms[n].name in CORE_META {
      MetaCoreCollects(ms, n);
    } else {
      MetaOtherCollects(ms, n);
    }
    hide MetaMember, CollectedMeta, MetaFails, CORE_META;
  }

  /** A core field changes nothing but the meta itself. */
  lemma MetaCoreCollects(ms: seq<Member>, n: nat)
    requires n < |ms| && MembersOk(ms) && ms[n].name in CORE_META
    ensures MetaMember(CollectedMeta(ms, n), ms[n]) ==
      if MetaFails(ms[n]) then None else Some(CollectedMeta(ms, n + 1))
  {
    MetaFieldCollects(CollectedMeta(ms, n), ms[n]);
    MetaNamesDiffer(ms[n].name);
    SeenNext(ms, n, FORBIDDEN_META);
    UnknownNext(ms, n, CORE_META + FORBIDDEN_META);
    MetaNext(ms, n);
    hide MetaMember, MetaFails, StringField, IntField, Seen, Last, Unknown, CORE_META, FORBIDDEN_META;
  }

  lemma MetaFieldCollects(s: MetaState, m: Member)
    requires ValueOk(m.value) && m.name in CORE_META
    ensures MetaMember(s, m) ==
      if MetaFails(m) then None
      else Some(s.(meta := Meta(
        if m.name == "id" then StringField(Some(m.value)) else s.meta.id,
        if m.name == "queue" then StringField(Some(m.value)) else s.meta.queue,
        if m.name == "lang" then StringField(Some(m.value)) else s.meta.lang,
        if m.name == "schema_version" then IntField(Some(m.value)) else s.meta.schemaVersion,
        if m.name == "created_at" then IntField(Some(m.value)) else s.meta.createdAt)))
  {
    hide AssignString, AssignInt;
  }

  /** Any other member leaves the meta as it is. */
  lemma MetaOtherCollects(ms: seq<Member>, n: nat)
    requires n < |ms| && MembersOk(ms) && ms[n].name !in CORE_META
    ensures !MetaFails(ms[n]) && MetaMember(CollectedMeta(ms, n), ms[n]) == Some(CollectedMeta(ms, n + 1))
  {
    SeenNext(ms, n, FORBIDDEN_META);
    UnknownNext(ms, n, CORE_META + FORBIDDEN_META);
    MetaNext(ms, n);
    MetaNamesDiffer(ms[n].name);
    SameMeta(ms, n);
    hide AssignString, AssignInt, Seen, Last, Unknown, MetaOf, CORE_META, FORBIDDEN_META;
  }

  lemma SameMeta(ms: seq<Member>, n: nat)
    requires n < |ms| && ms[n].name !in CORE_META
    ensures MetaOf(ms, n + 1) == MetaOf(ms, n)
  {
    hide StringField, IntField;
  }

  lemma MetaStart(ms: seq<Member>)
    ensures CollectedMeta(ms, 0) == NO_META_STATE
  {
  }

  method DecodeMeta(ms: seq<Member>) returns (r: Option<MetaState>)
    requires MembersOk(ms)
    ensures r == if NoMetaFails(ms, |ms|) then Some(CollectedMeta(ms, |ms|)) else None
  {
    var s := NO_META_STATE;
    MetaStart(ms);
    hide CollectedMeta, MetaFails, MetaMember;
    for i := 0 to |ms|
      invariant NoMetaFails(ms, i)
      invariant s == CollectedMeta(ms, i)
    {
      MetaMemberCollects(ms, i);
      var next := MetaMember(s, ms[i]);
      if next.None? {
        return None;
      }
      s := next.value;
    }
    return Some(s);
  }

  function DeadLetterMember(d: DeadLetter, m: Member): Option<DeadLetter>
    requires ValueOk(m.value)
  {
    var text := AssignString(m.value);
    var number := AssignInt(m.value);
    var pointer := AssignPointer(m.value);
    if m.name == "reason" then (if text == None then None else Some(d.(reason := text.value)))
    else if m.name == "error" then (if pointer == None then None else Some(d.(error := pointer.value)))
    else if m.name == "exception" then (if pointer == None then None else Some(d.(exception := pointer.value)))
    else if m.name == "failed_at" then (if number == None then None else Some(d.(failedAt := number.value)))
    else if m.name == "original_queue" then (if text == None then None else Some(d.(originalQueue := text.value)))
    else if m.name == "attempts" then (if number == None then None else Some(d.(attempts := number.value)))
    else if m.name == "lang" then (if text == None then None else Some(d.(lang := text.value)))
    else Some(d)
  }

  lemma DeadLetterNext(ms: seq<Member>, n: nat)
    requires n < |ms|
    ensures DeadLetterOf(ms, n + 1) ==
      DeadLetter(StringField(if ms[n].name == "reason" then Some(ms[n].value) else Last(ms, n, "reason")),
                 PointerField(if ms[n].name == "error" then Some(ms[n].value) else Last(ms, n, "error")),
                 PointerField(if ms[n].name == "exception" then Some(ms[n].value) else Last(ms, n, "exception")),
                 IntField(if ms[n].name == "failed_at" then Some(ms[n].value) else Last(ms, n, "failed_at")),
                 StringField(
                   if ms[n].name == "original_queue" then Some(ms[n].value) else Last(ms, n, "original_queue")),
                 IntField(if ms[n].name == "attempts" then Some(ms[n].value) else Last(ms, n, "attempts")),
                 StringField(if ms[n].name == "lang" then Some(ms[n].value) else Last(ms, n, "lang")))
  {
    hide StringField, IntField, PointerField;
  }

  lemma DeadLetterMemberCollects(ms: seq<Member>, n: nat)
    requires n < |ms| && MembersOk(ms)
    ensures DeadLetterMember(DeadLetterOf(ms, n), ms[n]) ==
      if DeadLetterFails(ms[n]) then None else Some(DeadLetterOf(ms, n + 1))
  {
    DeadLetterNext(ms, n);
    hide AssignString, AssignInt, AssignPointer, Last;
  }

  lemma DeadLetterStart(ms: seq<Member>)
    ensures DeadLetterOf(ms, 0) == DeadLetter("", None, None, 0, "", 0, "")
  {
  }

  method DecodeDeadLetter(ms: seq<Member>) returns (r: Option<DeadLetter>)
    requires MembersOk(ms)
    ensures r == if NoDeadLetterFails(ms, |ms|) then Some(DeadLetterOf(ms, |ms|)) else None
  {
    var d := DeadLetter("", None, None, 0, "", 0, "");
    DeadLetterStart(ms);
    hide DeadLetterOf, DeadLetterFails, DeadLetterMember;
    for i := 0 to |ms|
      invariant NoDeadLetterFails(ms, i)
      invariant d == DeadLetterOf(ms, i)
    {
      DeadLetterMemberCollects(ms, i);
      var next := DeadLetterMember(d, ms[i]);
      if next.None? {
        return None;
      }
      d := next.value;
    }
    return Some(d);
  }

  // ---------- The envelope ----------

  /** What one member of the document changes. */
  function PartsMember(canon: Canon, s: Parts, m: Member): Option<Parts>
    requires ValueOk(m.value)
  {
    if MemberFails(canon, m) then None
    else
      var v := Some(m.value);
      if m.name == "job" then Some(s.(job := JobField(v), jobIgnored := IdentityField(v).None?))
      else if m.name == "trace_id" then Some(s.(traceId := StringField(v)))
      else if m.name == "data" then Some(s.(data := DataField(canon, v)))
      else if m.name == "attempts" then Some(s.(attempts := IntField(v)))
      else if m.name == "meta" then Some(s.(meta := MetaField(v)))
      else if m.name == "dead_letter" then Some(s.(deadLetter := DeadLetterField(v)))
      else if m.name == "urn" then Some(s.(alias := IdentityField(v), urnSeen := true))
      else if m.name in FORBIDDEN then Some(s.(forbidden := s.forbidden + {m.name}))
      else Some(s.(extras := s.extras[m.name := m.value]))
  }

  /** The switch of decodeEnvelope. */
  method ReadMember(canon: Canon, s: Parts, m: Member) returns (r: Option<Parts>)
    requires ValueOk(m.value)
    ensures r == PartsMember(canon, s, m)
  {
    hide CollectedMeta, DeadLetterOf, NoMetaFails, NoDeadLetterFails;
    if m.name == "job" {
      var text := StringOf(m.value);
      r := Some(s.(job := if text.Some? then text.value else "", jobIgnored := text.None?));
    } else if m.name == "trace_id" {
      var text := AssignString(m.value);
      r := if text.Some? then Some(s.(traceId := text.value)) else None;
    } else if m.name == "data" {
      var data := AssignData(canon, m.value);
      r := if data.Some? then Some(s.(data := data.value)) else None;
    } else if m.name == "attempts" {
      var n := AssignInt(m.value);
      r := if n.Some? then Some(s.(attempts := n.value)) else None;
    } else if m.name == "meta" {
      // Replaced wholesale, with the warnings of the block it displaces.
      if IsNull(m.value) {
        return Some(s.(meta := NO_META_STATE));
      }
      var ms := BlockMembers(m.value);
      if ms.None? {
        return None;
      }
      var meta := DecodeMeta(ms.value);
      r := if meta.Some? then Some(s.(meta := meta.value)) else None;
    } else if m.name == "dead_letter" {
      if IsNull(m.value) {
        return Some(s.(deadLetter := None));
      }
      var ms := BlockMembers(m.value);
      if ms.None? {
        return None;
      }
      var d := DecodeDeadLetter(ms.value);
      r := if d.Some? then Some(s.(deadLetter := d)) else None;
    } else if m.name == "urn" {
      r := Some(s.(alias := StringOf(m.value), urnSeen := true));
    } else if m.name in FORBIDDEN {
      r := Some(s.(forbidden := s.forbidden + {m.name}));
    } else {
      r := Some(s.(extras := s.extras[m.name := m.value]));
    }
  }

  lemma NamesDiffer(name: string)
    ensures name in FORBIDDEN ==> name !in KNOWN
    ensures name in KNOWN <==>
      name == "job" || name == "trace_id" || name == "data" || name == "attempts" || name == "meta"
        || name == "dead_letter" || name == "urn"
  {
    assert |"timestamp"| == 9;
  }

  lemma CollectedNext(canon: Canon, ms: seq<Member>, n: nat)
    requires n < |ms|
    ensures var m := ms[n];
      Collected(canon, ms, n + 1) == Parts(
        JobField(if m.name == "job" then Some(m.value) else Last(ms, n, "job")),
        if m.name == "job" then IdentityField(Some(m.value)).None?
        else Last(ms, n, "job").Some? && IdentityField(Last(ms, n, "job")).None?,
        StringField(if m.name == "trace_id" then Some(m.value) else Last(ms, n, "trace_id")),
        DataField(canon, if m.name == "data" then Some(m.value) else Last(ms, n, "data")),
        IntField(if m.name == "attempts" then Some(m.value) else Last(ms, n, "attempts")),
        MetaField(if m.name == "meta" then Some(m.value) else Last(ms, n, "meta")),
        DeadLetterField(if m.name == "dead_letter" then Some(m.value) else Last(ms, n, "dead_letter")),
        IdentityField(if m.name == "urn" then Some(m.value) else Last(ms, n, "urn")),
        m.name == "urn" || Last(ms, n, "urn").Some?,
        if m.name in FORBIDDEN then Seen(ms, n, FORBIDDEN) + {m.name} else Seen(ms, n, FORBIDDEN),
        if m.name in KNOWN + FORBIDDEN then Unknown(ms, n, KNOWN + FORBIDDEN)
        else Unknown(ms, n, KNOWN + FORBIDDEN)[m.name := m.value])
  {
    SeenNext(ms, n, FORBIDDEN);
    UnknownNext(ms, n, KNOWN + FORBIDDEN);
    hide Seen, Unknown, JobField, IdentityField, StringField, DataField, IntField, MetaField, DeadLetterField;
  }

  lemma PartsMemberCollects(canon: Canon, ms: seq<Member>, n: nat)
    requires n < |ms| && MembersOk(ms)
    ensures PartsMember(canon, Collected(canon, ms, n), ms[n]) ==
      if MemberFails(canon, ms[n]) then None else Some(Collected(canon, ms, n + 1))
  {
    hide Seen, Unknown, Last, JobField, IdentityField, StringField, DataField, IntField, MetaField, DeadLetterField,
      MemberFails;
    CollectedNext(canon, ms, n);
    NamesDiffer(ms[n].name);
    hide KNOWN, FORBIDDEN;
  }

  lemma CollectedStart(canon: Canon, ms: seq<Member>)
    ensures Collected(canon, ms, 0) == NO_PARTS
  {
  }

  /** decodeEnvelope on an object: one pass, then the alias and the warnings. */
  method DecodeEnvelope(canon: Canon, ms: seq<Member>) returns (r: Decoded)
    requires MembersOk(ms)
    ensures r == DecodeMembers(canon, ms)
  {
    var s := NO_PARTS;
    CollectedStart(canon, ms);
    hide Collected, MemberFails, PartsMember, Resolved;
    for i := 0 to |ms|
      invariant NoMemberFails(canon, ms, i)
      invariant s == Collected(canon, ms, i)
    {
      PartsMemberCollects(canon, ms, i);
      var next := ReadMember(canon, s, ms[i]);
      if next.None? {
        AFailure(canon, ms, i);
        return Failed;
      }
      s := next.value;
    }
    return Resolved(s);
  }

  lemma AFailure(canon: Canon, ms: seq<Member>, i: nat)
    requires i < |ms| && MembersOk(ms) && PartsMember(canon, Collected(canon, ms, i), ms[i]) == None
    ensures DecodeMembers(canon, ms) == Failed
  {
    hide Collected, Resolved;
    assert MemberFails(canon, ms[i]) by {
      hide MemberFails;
    }
  }

  // ---------- The document ----------

  /** isJSONNull: bytes.TrimSpace leaves null. It is asked before the text is known to be JSON. */
  predicate IsJsonNull(body: string) {
    var t := SkipSpaces(body);
    "null" <= t && SkipSpaces(t[4..]) == ""
  }

  function DecodeValue(canon: Canon, v: Value): Decoded
    requires ValueOk(v)
  {
    if BlockMembers(v).None? then Failed else DecodeMembers(canon, BlockMembers(v).value)
  }

  /** Decode, on the bytes of a body. */
  function DecodeBody(canon: Canon, body: string): Decoded {
    if IsJsonNull(body) then NoIdentity(NO_ENVELOPE)
    else
      match ParseDoc(body)
      case None => Failed
      case Some(d) => DecodeValue(canon, d.value)
  }

  method Decode(canon: Canon, body: string) returns (r: Decoded)
    ensures r == DecodeBody(canon, body)
  {
    hide DecodeMembers;
    if IsJsonNull(body) {
      return NoIdentity(NO_ENVELOPE);
    }
    var d := ParseDoc(body);
    if d.None? {
      return Failed;
    }
    var ms := BlockMembers(d.value.value);
    if ms.None? {
      return Failed;
    }
    r := DecodeEnvelope(canon, ms.value);
  }

  // ---------- What the specification says, name by name ----------

  /** An envelope comes out exactly when every type-checked occurrence passes; it has an identity exactly when
      the last job, or else the last alias, is a string that is not blank. */
  lemma DecodesExactlyWhen(canon: Canon, ms: seq<Member>)
    requires MembersOk(ms)
    ensures var r := DecodeMembers(canon, ms);
      var job := IdentityField(Last(ms, |ms|, "job"));
      var alias := IdentityField(Last(ms, |ms|, "urn"));
      && (r.Failed? <==> exists i :: 0 <= i < |ms| && MemberFails(canon, ms[i]))
      && (!r.Failed? ==>
          (r.Ok? <==>
            || (job.Some? && !AsciiSpace.IsBlank(job.value))
            || (alias.Some? && !AsciiSpace.IsBlank(alias.value))))
      && (r.Ok? ==> r.envelope.job == if job.Some? && !AsciiSpace.IsBlank(job.value) then job.value else alias.value)
  {
    hide MemberFails, Last, IdentityField, StringField, DataField, IntField, MetaField, DeadLetterField, Seen,
      Unknown, DroppedKeys;
  }

  /** Exactly the unknown names are carried, each with its last raw value. */
  lemma CarriesTheUnknown(canon: Canon, ms: seq<Member>, name: string)
    requires MembersOk(ms) && !DecodeMembers(canon, ms).Failed?
    ensures var extras := DecodeMembers(canon, ms).envelope.extras;
      && (name in extras <==> name !in KNOWN + FORBIDDEN && Last(ms, |ms|, name).Some?)
      && (name in extras ==> extras[name] == Last(ms, |ms|, name).value)
  {
    UnknownIsLast(ms, |ms|, KNOWN + FORBIDDEN, name);
    hide Last, IdentityField, StringField, DataField, IntField, MetaField, DeadLetterField, Seen, Unknown,
      DroppedKeys, KNOWN, FORBIDDEN;
  }

  /** Each warning comes up exactly for its reason: a job that is no string, a forbidden key, an alias that is not
      the identity, and a forbidden key of the meta block that counts, the last one. */
  lemma WarnsExactly(canon: Canon, ms: seq<Member>, k: string)
    requires MembersOk(ms) && !DecodeMembers(canon, ms).Failed?
    ensures var warnings := DecodeMembers(canon, ms).envelope.warnings;
      var job := Last(ms, |ms|, "job"); var alias := Last(ms, |ms|, "urn"); var block := Block(Last(ms, |ms|, "meta"));
      && (IgnoredJob in warnings <==> job.Some? && IdentityField(job).None?)
      && (DroppedKey("/timestamp") in warnings <==> Last(ms, |ms|, "timestamp").Some?)
      && (DroppedKey("/urn") in warnings <==>
          alias.Some? && !(AsciiSpace.IsBlank(JobField(job)) && IdentityField(alias).Some?))
      && (k in FORBIDDEN_META ==>
          (DroppedKey("/meta/" + k) in warnings <==> block.Some? && Last(block.value, |block.value|, k).Some?))
  {
    var p := Collected(canon, ms, |ms|);
    ForbiddenMeta(Last(ms, |ms|, "meta"), k);
    ResolvedWarns(p, k);
    hide *;
  }

  /** The keys reported at the top level. */
  function TopForbidden(p: Parts): set<string> {
    p.forbidden + if p.urnSeen && !(AsciiSpace.IsBlank(p.job) && p.alias.Some?) then {"urn"} else {}
  }

  lemma ResolvedWarns(p: Parts, k: string)
    requires p.forbidden <= FORBIDDEN
    ensures !Resolved(p).Failed?
    ensures IgnoredJob in Resolved(p).envelope.warnings <==> p.jobIgnored
    ensures DroppedKey("/timestamp") in Resolved(p).envelope.warnings <==> "timestamp" in p.forbidden
    ensures DroppedKey("/urn") in Resolved(p).envelope.warnings <==> "urn" in TopForbidden(p)
    ensures DroppedKey("/meta/" + k) in Resolved(p).envelope.warnings <==> k in p.meta.forbidden
  {
    WarningsOf(p, IgnoredJob);
    TopNames(p);
    hide *;
    TopWarns(p, "timestamp");
    TopWarns(p, "urn");
    MetaWarns(p, k);
  }

  lemma TopNames(p: Parts)
    requires p.forbidden <= FORBIDDEN
    ensures TopForbidden(p) <= FORBIDDEN + {"urn"} && ("timestamp" in TopForbidden(p) <==> "timestamp" in p.forbidden)
    ensures "/timestamp" == "/" + "timestamp" && "/urn" == "/" + "urn"
    ensures "timestamp"[0] == 't' && "urn"[0] == 'u'
  {
  }

  lemma TopWarns(p: Parts, name: string)
    requires name != "" && name[0] != 'm'
    ensures !Resolved(p).Failed?
    ensures DroppedKey("/" + name) in Resolved(p).envelope.warnings <==> name in TopForbidden(p)
  {
    WarningsOf(p, DroppedKey("/" + name));
    Pointers(TopForbidden(p), p.meta.forbidden, name);
    hide *;
  }

  lemma MetaWarns(p: Parts, k: string)
    requires TopForbidden(p) <= FORBIDDEN + {"urn"}
    ensures !Resolved(p).Failed?
    ensures DroppedKey("/meta/" + k) in Resolved(p).envelope.warnings <==> k in p.meta.forbidden
  {
    WarningsOf(p, DroppedKey("/meta/" + k));
    MetaPointers(TopForbidden(p), p.meta.forbidden, k);
    hide *;
  }

  lemma WarningsOf(p: Parts, w: Warning)
    ensures !Resolved(p).Failed?
    ensures w in Resolved(p).envelope.warnings <==>
      (match w
       case IgnoredJob => p.jobIgnored
       case DroppedKey(pointer) =>
         IsDropped(TopForbidden(p), "/", pointer) || IsDropped(p.meta.forbidden, "/meta/", pointer))
  {
    DroppedAre(TopForbidden(p), "/", w);
    DroppedAre(p.meta.forbidden, "/meta/", w);
    hide DroppedKeys, Sorted, IsDropped;
  }

  lemma Pointers(top: set<string>, meta: set<string>, name: string)
    requires name != "" && name[0] != 'm'
    ensures IsDropped(top, "/", "/" + name) <==> name in top
    ensures !IsDropped(meta, "/meta/", "/" + name)
  {
    forall k | "/" + name == "/" + k ensures k == name { assert ("/" + k)[1..] == k && ("/" + name)[1..] == name; }
    forall k ensures "/" + name != "/meta/" + k { assert ("/" + name)[1] == name[0] && ("/meta/" + k)[1] == 'm'; }
  }

  lemma MetaPointers(top: set<string>, meta: set<string>, k: string)
    requires top <= FORBIDDEN + {"urn"}
    ensures IsDropped(meta, "/meta/", "/meta/" + k) <==> k in meta
    ensures !IsDropped(top, "/", "/meta/" + k)
  {
    forall j | "/meta/" + k == "/meta/" + j
      ensures k == j { assert ("/meta/" + k)[6..] == k && ("/meta/" + j)[6..] == j; }
    assert "timestamp"[0] == 't' && "urn"[0] == 'u';
    forall j | j in top ensures "/" + j != "/meta/" + k { assert ("/" + j)[1] == j[0] && ("/meta/" + k)[1] == 'm'; }
  }

  lemma DroppedAre(keys: set<string>, prefix: string, w: Warning)
    ensures w in DroppedKeys(Sorted(keys), prefix) <==> w.DroppedKey? && IsDropped(keys, prefix, w.pointer)
  {
    hide Sorted;
    var names := Sorted(keys);
    var ws := DroppedKeys(names, prefix);
    if w in ws {
      var i :| 0 <= i < |ws| && ws[i] == w;
      assert names[i] in keys;
    }
    if w.DroppedKey? && IsDropped(keys, prefix, w.pointer) {
      var k :| k in keys && w.pointer == prefix + k;
      var i :| 0 <= i < |names| && names[i] == k;
      assert ws[i] == w;
    }
  }

  ghost predicate IsDropped(keys: set<string>, prefix: string, pointer: string) {
    exists k :: k in keys && pointer == prefix + k
  }

  lemma ForbiddenMeta(v: Option<Value>, k: string)
    ensures MetaField(v).forbidden <= FORBIDDEN_META
    ensures k in FORBIDDEN_META ==>
      (k in MetaField(v).forbidden <==> Block(v).Some? && Last(Block(v).value, |Block(v).value|, k).Some?)
  {
    hide Last;
  }
}
