/** Make and its options: what a producer may add to meta, and that what it makes survives the codec. */
module EnvelopeMake {
  import opened Wrappers
  import opened JsonGrammar
  import opened JsonStrings
  import opened Utf8
  import opened EnvelopeFields
  import opened EnvelopeDecode
  import opened EnvelopeEncode
  import opened EnvelopeText
  import AsciiSpace

  /** WithMeta carries its value as encoded, or None when it does not encode. */
  datatype MakeOption = WithQueue(queue: string) | WithTraceId(traceId: string)
      | WithMeta(key: string, value: Option<Value>)

  datatype Error = EmptyUrn | EmptyMetaKey | ReservedMetaKey(key: string) | ForbiddenKey(key: string)
      | DuplicateMetaKey(key: string)
    | UnencodableMeta(key: string)

  const SCHEMA_VERSION := 1
  const SOURCE_LANG := "go"

  // ---------- What is asked for ----------

  /** What is wrong with entry i, given the ones before it. */
  function Violation(opts: seq<MakeOption>, i: nat): Option<Error>
    requires i < |opts|
  {
    match opts[i]
    case WithMeta(key, value) =>
      if key == "" then Some(EmptyMetaKey)
      else if key in CORE_META then Some(ReservedMetaKey(key))
      else if key in FORBIDDEN_META then Some(ForbiddenKey(key))
      else if exists j :: 0 <= j < i && opts[j].WithMeta? && opts[j].key == key then Some(DuplicateMetaKey(key))
      else if value == None then Some(UnencodableMeta(key))
      else None
    case _ => None
  }

  predicate FirstViolation(opts: seq<MakeOption>, i: nat) {
    i < |opts| && Violation(opts, i).Some? && forall j :: 0 <= j < i ==> Violation(opts, j) == None
  }

  // ---------- makeConfig ----------

  class MakeConfig {
    var queue: string
    var traceId: string
    var meta: map<string, Value>
    var metaErr: Option<Error>

    constructor ()
      ensures queue == "default" && traceId == "" && meta == map[] && metaErr == None
    {
      queue, traceId, meta, metaErr := "default", "", map[], None;
    }

    /** The first violation wins: after it nothing changes any more. */
    method AddMeta(key: string, value: Option<Value>)
      modifies this`meta, this`metaErr
      ensures old(metaErr).Some? ==> meta == old(meta) && metaErr == old(metaErr)
      ensures old(metaErr) == None ==>
        metaErr == (if key == "" then Some(EmptyMetaKey)
                    else if key in CORE_META then Some(ReservedMetaKey(key))
                    else if key in FORBIDDEN_META then Some(ForbiddenKey(key))
                    else if key in old(meta) then Some(DuplicateMetaKey(key))
                    else if value == None then Some(UnencodableMeta(key)) else None)
      ensures old(metaErr) == None ==> meta == if metaErr == None then old(meta)[key := value.value] else old(meta)
    {
      if metaErr.Some? {
        return;
      }
      if key == "" {
        metaErr := Some(EmptyMetaKey);
      } else if key in CORE_META {
        metaErr := Some(ReservedMetaKey(key));
      } else if key in FORBIDDEN_META {
        metaErr := Some(ForbiddenKey(key));
      } else if key in meta {
        metaErr := Some(DuplicateMetaKey(key));
      } else if value == None {
        metaErr := Some(UnencodableMeta(key));
      } else {
        meta := meta[key := value.value];
      }
    }
  }

  /** The entries of WithMeta among the first n options. */
  function MetaEntries(opts: seq<MakeOption>, n: nat): map<string, Value>
    requires n <= |opts|
  {
    if n == 0 then map[]
    else
      var before := MetaEntries(opts, n - 1);
      if opts[n - 1].WithMeta? && opts[n - 1].value.Some? then before[opts[n - 1].key := opts[n - 1].value.value]
      else before
  }

  function LastQueue(opts: seq<MakeOption>, n: nat): string
    requires n <= |opts|
  {
    if n == 0 then "default" else if opts[n - 1].WithQueue? then opts[n - 1].queue else LastQueue(opts, n - 1)
  }

  function LastTrace(opts: seq<MakeOption>, n: nat): string
    requires n <= |opts|
  {
    if n == 0 then "" else if opts[n - 1].WithTraceId? then opts[n - 1].traceId else LastTrace(opts, n - 1)
  }

  lemma {:induction false} EntriesAre(opts: seq<MakeOption>, n: nat, key: string)
    requires n <= |opts| && forall j :: 0 <= j < n ==> Violation(opts, j) == None
    ensures key in MetaEntries(opts, n) <==> exists j :: 0 <= j < n && opts[j].WithMeta? && opts[j].key == key
    ensures key in MetaEntries(opts, n) ==> key != "" && key !in CORE_META && key !in FORBIDDEN_META
    ensures key in MetaEntries(opts, n) ==>
      exists j :: 0 <= j < n && opts[j] == WithMeta(key, Some(MetaEntries(opts, n)[key]))
  {
    hide CORE_META, FORBIDDEN_META;
    if n > 0 {
      EntriesAre(opts, n - 1, key);
      assert Violation(opts, n - 1) == None;
    }
  }

  /** The outcome of Make; ids and the clock are parameters. */
  datatype Made = Made(envelope: Envelope) | Invalid(error: Error)

  method Make(urn: string, data: Option<Value>, opts: seq<MakeOption>, id: string, traceId: string, now: int)
      returns (r: Made)
    ensures AsciiSpace.IsBlank(urn) ==> r == Invalid(EmptyUrn)
    ensures !AsciiSpace.IsBlank(urn) ==>
      forall i :: FirstViolation(opts, i) ==> r == Invalid(Violation(opts, i).value)
    ensures !AsciiSpace.IsBlank(urn) && (forall i :: 0 <= i < |opts| ==> Violation(opts, i) == None) ==>
      r == Made(Fresh(urn, data, opts, id, traceId, now))
  {
    var job := AsciiSpace.Trim(urn);
    AsciiSpace.TrimIsBlank(urn);
    if job == "" {
      return Invalid(EmptyUrn);
    }
    var cfg := new MakeConfig();
    ghost var first: nat := 0;
    for i := 0 to |opts|
      invariant cfg.queue == LastQueue(opts, i) && cfg.traceId == LastTrace(opts, i)
      invariant cfg.metaErr == None ==> cfg.meta == MetaEntries(opts, i) && forall j :: 0 <= j < i ==>
        Violation(opts, j) == None
      invariant cfg.metaErr.Some? ==> first < i && FirstViolation(opts, first) && cfg.metaErr == Violation(opts, first)
    {
      match opts[i]
      case WithQueue(queue) => cfg.queue := queue;
      case WithTraceId(trace) => cfg.traceId := trace;
      case WithMeta(key, value) =>
        if cfg.metaErr == None {
          EntriesAre(opts, i, key);
          first := i;
        }
        cfg.AddMeta(key, value);
    }
    if cfg.metaErr.Some? {
      return Invalid(cfg.metaErr.value);
    }
    var trace := AsciiSpace.Trim(cfg.traceId);
    if trace == "" {
      trace := traceId;
    }
    return Made(Envelope(job, trace, if data.Some? then data else Some(Empty(Curly, "")),
      Meta(id, cfg.queue, SOURCE_LANG, SCHEMA_VERSION, now), 0, None, map[], cfg.meta, []));
  }

  function Fresh(urn: string, data: Option<Value>, opts: seq<MakeOption>, id: string, traceId: string,
      now: int): Envelope {
    var trace := AsciiSpace.Trim(LastTrace(opts, |opts|));
    Envelope(AsciiSpace.Trim(urn), if trace == "" then traceId else trace,
      if data.Some? then data else Some(Empty(Curly, "")),
      Meta(id, LastQueue(opts, |opts|), SOURCE_LANG, SCHEMA_VERSION, now), 0, None, map[],
        MetaEntries(opts, |opts|), [])
  }

  /** Option i is the last of its kind among the first n. */
  predicate IsLast(opts: seq<MakeOption>, n: nat, i: nat, kind: MakeOption -> bool)
    requires n <= |opts|
  {
    i < n && kind(opts[i]) && forall j :: i < j < n ==> !kind(opts[j])
  }

  predicate NamesQueue(o: MakeOption) { o.WithQueue? }

  predicate NamesTrace(o: MakeOption) { o.WithTraceId? }

  lemma {:induction false} LastQueueIs(opts: seq<MakeOption>, n: nat, i: nat)
    requires n <= |opts|
    ensures IsLast(opts, n, i, NamesQueue) ==> LastQueue(opts, n) == opts[i].queue
    ensures (forall j :: 0 <= j < n ==> !opts[j].WithQueue?) ==> LastQueue(opts, n) == "default"
  {
    if n > 0 { LastQueueIs(opts, n - 1, i); }
  }

  lemma {:induction false} LastTraceIs(opts: seq<MakeOption>, n: nat, i: nat)
    requires n <= |opts|
    ensures IsLast(opts, n, i, NamesTrace) ==> LastTrace(opts, n) == opts[i].traceId
    ensures (forall j :: 0 <= j < n ==> !opts[j].WithTraceId?) ==> LastTrace(opts, n) == ""
  {
    if n > 0 { LastTraceIs(opts, n - 1, i); }
  }

  /** What is made, field by field: the trimmed URN; the given data or an empty object; the id and the time as given;
      version 1, language go and no attempts; and the queue of the last queue option, or default. */
  lemma FreshIs(urn: string, data: Option<Value>, opts: seq<MakeOption>, id: string, traceId: string, now: int,
      i: nat)
    ensures var e := Fresh(urn, data, opts, id, traceId, now);
      && e.job == AsciiSpace.Trim(urn) && e.attempts == 0 && e.deadLetter == None && e.extras == map[]
      && e.warnings == [] && e.meta.id == id && e.meta.lang == "go" && e.meta.schemaVersion == 1
      && e.meta.createdAt == now && e.data == Some(if data.Some? then data.value else Empty(Curly, ""))
      && (IsLast(opts, |opts|, i, NamesQueue) ==> e.meta.queue == opts[i].queue)
      && ((forall j :: 0 <= j < |opts| ==> !opts[j].WithQueue?) ==> e.meta.queue == "default")
  {
    LastQueueIs(opts, |opts|, i);
    hide LastQueue, LastTrace, MetaEntries, AsciiSpace.Trim, IsLast;
  }

  /** Its meta carries exactly the entries of the meta options, each with its value. */
  lemma FreshEntries(urn: string, data: Option<Value>, opts: seq<MakeOption>, id: string, traceId: string, now: int,
      key: string)
    requires forall i :: 0 <= i < |opts| ==> Violation(opts, i) == None
    ensures var m := Fresh(urn, data, opts, id, traceId, now).metaExtras;
      && (key in m <==> exists i :: 0 <= i < |opts| && opts[i].WithMeta? && opts[i].key == key)
      && (key in m ==> exists i :: 0 <= i < |opts| && opts[i] == WithMeta(key, Some(m[key])))
  {
    EntriesAre(opts, |opts|, key);
    hide Violation, LastQueue, LastTrace, MetaEntries, AsciiSpace.Trim;
  }

  /** The trace id: that of the last such option, trimmed, or the new one when there is none or it is blank. */
  lemma FreshTrace(urn: string, data: Option<Value>, opts: seq<MakeOption>, id: string, traceId: string, now: int,
      i: nat)
    ensures var e := Fresh(urn, data, opts, id, traceId, now);
      && (IsLast(opts, |opts|, i, NamesTrace) ==>
          e.traceId == if AsciiSpace.IsBlank(opts[i].traceId) then traceId else AsciiSpace.Trim(opts[i].traceId))
      && ((forall j :: 0 <= j < |opts| ==> !opts[j].WithTraceId?) ==> e.traceId == traceId)
  {
    LastTraceIs(opts, |opts|, i);
    AsciiSpace.TrimIsBlank(LastTrace(opts, |opts|));
    assert AsciiSpace.IsBlank("");
    hide LastTrace, MetaEntries, AsciiSpace.Trim, AsciiSpace.IsBlank, IsLast;
  }

  lemma MetaEntriesAreOk(opts: seq<MakeOption>, n: nat, depth: int)
    requires n <= |opts| && forall j :: 0 <= j < n ==> Violation(opts, j) == None
    requires forall j :: 0 <= j < n && opts[j].WithMeta? && opts[j].value.Some? ==>
      ValueOk(opts[j].value.value) && ValueDepth(opts[j].value.value) <= depth
    ensures ValuesOk(MetaEntries(opts, n), depth) && !HoldsOneOf(MetaEntries(opts, n), FORBIDDEN_META + CORE_META)
  {
    hide Violation, ValueOk, ValueDepth, CORE_META, FORBIDDEN_META;
    var m := MetaEntries(opts, n);
    forall k | k in m ensures k !in CORE_META && k !in FORBIDDEN_META && ValueOk(m[k]) && ValueDepth(m[k]) <= depth {
      EntriesAre(opts, n, k);
    }
  }

  /** What Make makes, of any strings and of JSON that nests no deeper than a document may, is canonical once its text
      is coerced. So encoding and decoding gives the coerced envelope, without warnings, and that is the envelope
      itself exactly when its text is valid. */
  lemma MadeIsCanonical(canon: Canon, urn: string, data: Option<Value>, opts: seq<MakeOption>, id: string,
      traceId: string, now: int)
    requires !AsciiSpace.IsBlank(urn) && forall i :: 0 <= i < |opts| ==> Violation(opts, i) == None
    requires forall i :: 0 <= i < |opts| && opts[i].WithMeta? && opts[i].value.Some? ==>
      ValueOk(opts[i].value.value) && ValueDepth(opts[i].value.value) <= MAX_NESTING_DEPTH - 2
    requires IsInt64(now) && IsData(canon, Fresh(urn, data, opts, id, traceId, now).data.value)
    ensures var e := Fresh(urn, data, opts, id, traceId, now);
      && Storable(e) && Canonical(canon, Coerced(e)) && Encoded(e).Some?
      && DecodeBody(canon, Encoded(e).value) == Ok(AsWritten(Coerced(e)))
      && (Coerced(e) == e <==> TextOk(e))
  {
    var e := Fresh(urn, data, opts, id, traceId, now);
    MetaEntriesAreOk(opts, |opts|, MAX_NESTING_DEPTH - 2);
    TrimmedIsNotBlank(urn);
    FreshIsCanonical(canon, e);
    CoercedIsItselfExactlyWhen(e);
    EncodedRoundTrip(canon, e);
    hide *;
  }

  lemma FreshIsCanonical(canon: Canon, e: Envelope)
    requires Storable(e) && !AsciiSpace.IsBlank(e.job) && e.deadLetter == None && e.data.Some? && IsInt64(e.attempts)
      && IsInt64(e.meta.schemaVersion) && IsInt64(e.meta.createdAt) && IsData(canon, e.data.value)
    requires e.extras == map[] && !HoldsOneOf(e.metaExtras, FORBIDDEN_META + CORE_META)
    ensures Canonical(canon, Coerced(e))
  {
    CoercedIsEncodable(e);
    CoercedIsNotBlank(e.job);
    NamesStayExactlyWhen(e.extras);
    ReservedAreAscii();
    AsciiNames(e.metaExtras, FORBIDDEN_META + CORE_META);
    hide CoercedNames, Coerce, Encodable, ValueOk, ValueDepth, ValidUtf8, KNOWN, FORBIDDEN, CORE_META,
      FORBIDDEN_META;
  }

  /** Data in the form the codec writes it. */
  predicate IsData(canon: Canon, d: Value) {
    ValueOk(d) && ValueDepth(d) <= MAX_NESTING_DEPTH - 1 && IsObject(d) && canon(d) == Some(d) && Compact(d) == d
  }

  lemma TrimmedIsNotBlank(s: string)
    requires !AsciiSpace.IsBlank(s)
    ensures !AsciiSpace.IsBlank(AsciiSpace.Trim(s))
  {
    AsciiSpace.TrimIsBlank(s);
  }
}
