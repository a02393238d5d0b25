/** The version gate and the routing properties of pulsar.go. */
module PulsarGate {
  // The gate route is decoded to exactly what it was made from, and re-publishing any number of times changes
  // neither the rejected version, nor the first delivery's bq-job, nor the attempts.

  import opened Wrappers
  import opened JsonGrammar
  import opened Decimal
  import opened KafkaRecords
  import opened UnicodeSpace
  import opened Arithmetic
  import AsciiSpace
  import Dispatch

  type Properties = map<string, string>

  const JOB := "bq-job"
  const SCHEMA := "bq-schema-version"
  const ATTEMPTS := "bq-attempts"
  const CONTRACT := {JOB, "bq-trace-id", "bq-message-id", SCHEMA, "bq-source-lang", ATTEMPTS, "bq-delay"}
  const JOB_PARAM := "?bq-job="
  const MAX_ATTEMPTS := 0x7FFF_FFFF
  const SUPPORTED := "1"

  // ---------- Percent-encoding (RFC 3986 section 2.1, with plus for space) ----------

  predicate Unreserved(c: char) {
    IsDigit(c) || 'a' <= c <= 'z' || 'A' <= c <= 'Z' || c == '-' || c == '_' || c == '.' || c == '~'
  }

  function UpperHex(v: nat): (c: char)
    requires v < 16
    ensures IsHex(c) && HexValue(c) == v && c != '%' && c != '+' && c != '?'
  {
    if v < 10 then ('0' as int + v) as char else ('A' as int + (v - 10)) as char
  }

  /** Bytes are the characters below 256; there are no others to escape. */
  function EscapeByte(c: char): (s: string)
    ensures s != "" && '?' !in s
  {
    if Unreserved(c) || c as int >= 256 then [c]
    else if c == ' ' then "+"
    else ['%', UpperHex(c as int / 16), UpperHex(c as int % 16)]
  }

  /** What each byte is written as: itself where it is unreserved, a space as plus, any other as a percent sign and its
      two hexadecimal digits. */
  lemma EscapeByteIs(c: char)
    requires c as int < 256
    ensures Unreserved(c) ==> EscapeByte(c) == [c]
    ensures EscapeByte(' ') == "+"
    ensures !Unreserved(c) && c != ' ' ==>
      EscapeByte(c) == ['%', "0123456789ABCDEF"[c as int / 16], "0123456789ABCDEF"[c as int % 16]]
  {
    UpperHexIs(c as int / 16);
    UpperHexIs(c as int % 16);
    hide UpperHex;
  }

  lemma UpperHexIs(v: nat)
    requires v < 16
    ensures UpperHex(v) == "0123456789ABCDEF"[v]
  {
  }

  /** url.QueryEscape. */
  function Escape(s: string): (r: string)
    ensures '?' !in r
  {
    if s == "" then "" else EscapeByte(s[0]) + Escape(s[1..])
  }

  /** url.QueryUnescape: None when a percent sign is not followed by two hexadecimal digits. */
  function Unescape(s: string): Option<string> {
    if s == "" then Some("")
    else if s[0] == '%' then
      if |s| < 3 || !IsHex(s[1]) || !IsHex(s[2]) then None
      else match Unescape(s[3..]) case None => None
        case Some(r) => Some([(16 * HexValue(s[1]) + HexValue(s[2])) as char] + r)
    else match Unescape(s[1..]) case None => None case Some(r) => Some([if s[0] == '+' then ' ' else s[0]] + r)
  }

  lemma UnescapeByte(c: char, rest: string)
    requires Unescape(rest).Some?
    ensures Unescape(EscapeByte(c) + rest) == Some([c] + Unescape(rest).value)
  {
    if Unreserved(c) || c as int >= 256 || c == ' ' {
      assert (EscapeByte(c) + rest)[1..] == rest;
    } else {
      var text := EscapeByte(c) + rest;
      assert text[3..] == rest && text[0] == '%';
      assert 16 * (c as int / 16) + c as int % 16 == c as int;
      assert (16 * HexValue(text[1]) + HexValue(text[2])) as char == c;
    }
  }

  lemma {:induction false} UnescapeEscape(s: string)
    ensures Unescape(Escape(s)) == Some(s)
  {
    if s != "" {
      UnescapeEscape(s[1..]);
      var c, rest := s[0], Escape(s[1..]);
      assert s == [c] + s[1..];
      UnescapeByte(c, rest);
    }
  }

  /** A piece of encoded text and the byte it stands for. */
  predicate IsCode(piece: string, c: char) {
    || (piece == [c] && c != '%' && c != '+')
    || (piece == "+" && c == ' ')
    || (|piece| == 3 && piece[0] == '%' && IsHex(piece[1]) && IsHex(piece[2])
        && c as int == 16 * HexValue(piece[1]) + HexValue(piece[2]))
  }

  function Joined(pieces: seq<string>): string { if pieces == [] then "" else pieces[0] + Joined(pieces[1..]) }

  ghost predicate IsCoding(s: string, r: string) {
    exists pieces: seq<string> ::
      |pieces| == |r| && Joined(pieces) == s && forall i :: 0 <= i < |r| ==> IsCode(pieces[i], r[i])
  }

  lemma UnescapePiece(piece: string, c: char, rest: string)
    requires IsCode(piece, c)
    ensures Unescape(piece + rest) ==
      match Unescape(rest) case None => None case Some(r) => Some([c] + r)
  {
    assert (piece + rest)[|piece|..] == rest;
  }

  lemma {:induction false} UnescapeJoined(pieces: seq<string>, r: string)
    requires |pieces| == |r| && forall i :: 0 <= i < |r| ==> IsCode(pieces[i], r[i])
    ensures Unescape(Joined(pieces)) == Some(r)
  {
    if r == "" {
      assert Joined(pieces) == "";
    } else {
      UnescapePiece(pieces[0], r[0], Joined(pieces[1..]));
      UnescapeJoined(pieces[1..], r[1..]);
      assert r == [r[0]] + r[1..];
    }
  }

  lemma {:induction false} PiecesExist(s: string) returns (pieces: seq<string>)
    requires Unescape(s).Some?
    ensures var r := Unescape(s).value;
      |pieces| == |r| && Joined(pieces) == s && forall i :: 0 <= i < |r| ==> IsCode(pieces[i], r[i])
  {
    if s == "" {
      pieces := [];
    } else {
      var n := if s[0] == '%' then 3 else 1;
      var rest := PiecesExist(s[n..]);
      pieces := [s[..n]] + rest;
      assert s == s[..n] + s[n..] && pieces[1..] == rest;
    }
  }

  /** Text is decoded exactly when it is a sequence of such pieces, to the bytes they stand for. */
  lemma UnescapeIs(s: string, r: string)
    ensures Unescape(s) == Some(r) <==> IsCoding(s, r)
  {
    if Unescape(s).Some? {
      var pieces := PiecesExist(s);
    }
    if pieces: seq<string> :|
      |pieces| == |r| && Joined(pieces) == s && forall i :: 0 <= i < |r| ==> IsCode(pieces[i], r[i]) {
      UnescapeJoined(pieces, r);
    }
    hide Unescape, IsCode;
  }

  // ---------- The gate route ----------

  function GateRoute(version: string, job: Option<string>): string
  {
    Dispatch.GATE_PREFIX + Escape(version) + match job case None => "" case Some(j) => JOB_PARAM + Escape(j)
  }

  /** The index of the first occurrence of sep, or |s|. */
  function IndexOf(s: string, sep: string): (i: nat)
    requires sep != ""
    ensures i <= |s| && (i < |s| ==> sep <= s[i..])
    ensures forall k :: 0 <= k < i ==> !(sep <= s[k..])
  {
    if sep <= s || s == "" then 0
    else
      var i := 1 + IndexOf(s[1..], sep);
      assert forall k :: 0 < k < i ==> s[k..] == s[1..][k - 1..];
      i
  }

  datatype Parsed = NotGated | Gated(version: string, job: Option<string>)

  function UnescapeOr(s: string): string { match Unescape(s) case None => s case Some(r) => r }

  /** parseGateRoute. */
  function ParseGateRoute(route: string): Parsed {
    if !(Dispatch.GATE_PREFIX <= route) then NotGated
    else
      var rest := route[|Dispatch.GATE_PREFIX|..];
      var i := IndexOf(rest, JOB_PARAM);
      if i < |rest| then Gated(UnescapeOr(rest[..i]), Some(UnescapeOr(rest[i + |JOB_PARAM|..])))
      else Gated(UnescapeOr(rest), None)
  }

  /** Before the separator there is no question mark, so it is found where it was put. */
  lemma FoundAt(a: string, b: string)
    requires '?' !in a
    ensures IndexOf(a + JOB_PARAM + b, JOB_PARAM) == |a|
    ensures IndexOf(a, JOB_PARAM) == |a|
  {
    var s := a + JOB_PARAM + b;
    assert s[|a|..] == JOB_PARAM + b;
    assert JOB_PARAM <= s[|a|..];
    assert JOB_PARAM[0] == '?';
    forall k | 0 <= k < |a| ensures !(JOB_PARAM <= s[k..]) && !(JOB_PARAM <= a[k..]) {
      assert s[k..][0] == a[k] && a[k..][0] == a[k];
    }
  }

  /** What a part of a route is read as: what it decodes to, or itself when it does not decode. */
  ghost predicate IsReadAs(part: string, text: string) {
    IsCoding(part, text) || (text == part && forall r :: !IsCoding(part, r))
  }

  lemma PartIsRead(part: string)
    ensures IsReadAs(part, UnescapeOr(part))
  {
    forall r ensures Unescape(part) == Some(r) <==> IsCoding(part, r) { UnescapeIs(part, r); }
    hide Unescape, IsCoding;
  }

  /** Any route after the reserved prefix is gated: up to its first separator the version, behind it the job. */
  lemma RouteIsRead(a: string, b: string)
    requires '?' !in a
    ensures var p := ParseGateRoute("babelqueue:unsupported-schema-version:" + a + "?bq-job=" + b);
      p.Gated? && IsReadAs(a, p.version) && p.job.Some? && IsReadAs(b, p.job.value)
    ensures var p := ParseGateRoute("babelqueue:unsupported-schema-version:" + a);
      p.Gated? && IsReadAs(a, p.version) && p.job == None
  {
    hide ParseGateRoute, IsReadAs, UnescapeOr, IndexOf;
    PartIsRead(a);
    PartIsRead(b);
    FoundAt(a, b);
    JoinedCuts(a, JOB_PARAM, b);
    Regroup(Dispatch.GATE_PREFIX, a, JOB_PARAM, b);
    AfterPrefix(a + JOB_PARAM + b);
    AfterPrefix(a);
  }

  lemma Regroup(p: string, a: string, s: string, b: string)
    ensures p + a + s + b == p + (a + s + b)
  {
  }

  lemma JoinedCuts(a: string, s: string, b: string)
    ensures (a + s + b)[..|a|] == a && (a + s + b)[|a| + |s|..] == b
  {
  }

  lemma AfterPrefix(rest: string)
    ensures var i := IndexOf(rest, JOB_PARAM);
      ParseGateRoute(Dispatch.GATE_PREFIX + rest) ==
        if i < |rest| then Gated(UnescapeOr(rest[..i]), Some(UnescapeOr(rest[i + |JOB_PARAM|..])))
        else Gated(UnescapeOr(rest), None)
  {
    hide IndexOf, UnescapeOr, Dispatch.GATE_PREFIX;
    Behind(Dispatch.GATE_PREFIX, rest);
  }

  lemma Behind(prefix: string, rest: string)
    ensures prefix <= prefix + rest && (prefix + rest)[|prefix|..] == rest
  {
  }

  /** What follows the prefix. */
  function Tail(version: string, job: Option<string>): string {
    match job case None => Escape(version) case Some(j) => Escape(version) + JOB_PARAM + Escape(j)
  }

  lemma TailParses(version: string, job: Option<string>)
    ensures var rest := Tail(version, job); var i := IndexOf(rest, JOB_PARAM);
      && i == |Escape(version)| && UnescapeOr(rest[..i]) == version
      && (i < |rest| <==> job.Some?)
      && (job.Some? ==> UnescapeOr(rest[i + |JOB_PARAM|..]) == job.value)
  {
    hide Escape, Unescape, IndexOf;
    UnescapeEscape(version);
    var v := Escape(version);
    match job
    case None =>
      FoundAt(v, "");
      assert v[..|v|] == v;
    case Some(j) =>
      UnescapeEscape(j);
      FoundAt(v, Escape(j));
      var rest := v + JOB_PARAM + Escape(j);
      assert rest[..|v|] == v && rest[|v| + |JOB_PARAM|..] == Escape(j);
  }

  /** Parsing inverts making, for every version and every job there may have been. */
  lemma ParseUndoesGate(version: string, job: Option<string>)
    ensures ParseGateRoute(GateRoute(version, job)) == Gated(version, job)
    ensures Dispatch.GATE_PREFIX <= GateRoute(version, job)
  {
    hide Escape, IndexOf, UnescapeOr;
    var route, rest, prefix := GateRoute(version, job), Tail(version, job), Dispatch.GATE_PREFIX;
    assert route == prefix + rest;
    hide Tail, GateRoute;
    assert route[..|prefix|] == prefix && route[|prefix|..] == rest;
    TailParses(version, job);
    assert rest[..|rest|] == rest;
  }

  // ---------- Properties ----------

  /** unsupportedSchemaVersion: the rejected raw value. */
  function Rejected(props: Properties): Option<string> {
    if SCHEMA !in props || AsciiSpace.IsBlank(props[SCHEMA]) || props[SCHEMA] == SUPPORTED then None
    else Some(props[SCHEMA])
  }

  /** A delivery is gated on its raw version: any but the supported one, unless it is missing or nothing but ASCII white
      space. */
  lemma RejectedIs(props: Properties, version: string)
    ensures Rejected(props) == Some(version) <==>
      && SCHEMA in props && props[SCHEMA] == version && version != "1"
      && exists c :: c in version && c !in " \t\n\U{000B}\U{000C}\r"
  {
  }

  function Put(props: Properties, key: string, value: string): Properties {
    if value != "" then props[key := value] else props
  }

  /** properties. */
  function Projected(f: Fields): Properties {
    var a := Put(Put(Put(map[], JOB, f.job), "bq-trace-id", f.traceId), "bq-message-id", f.id);
    var b := if f.schemaVersion != 0 then a[SCHEMA := Itoa(f.schemaVersion)] else a;
    Put(b, "bq-source-lang", f.lang)[ATTEMPTS := Itoa(f.attempts)]
  }

  function Property(props: Properties, key: string): Option<string> {
    if key in props then Some(props[key]) else None
  }

  /** Each property holds its own field of the envelope, and there is no other; an empty field has none. */
  lemma PropertiesAreFields(f: Fields)
    ensures var props := Projected(f);
      && Property(props, "bq-job") == NonEmpty(f.job)
      && Property(props, "bq-trace-id") == NonEmpty(f.traceId)
      && Property(props, "bq-message-id") == NonEmpty(f.id)
      && Property(props, "bq-schema-version") == (if f.schemaVersion != 0 then Some(Itoa(f.schemaVersion)) else None)
      && Property(props, "bq-source-lang") == NonEmpty(f.lang)
      && Property(props, "bq-attempts") == Some(Itoa(f.attempts))
      && forall key :: key in props ==> IsProjected(key)
  {
    hide Projected, Property, Itoa, IsProjected;
    PropertyIs(f, "bq-job");
    PropertyIs(f, "bq-trace-id");
    PropertyIs(f, "bq-message-id");
    PropertyIs(f, "bq-schema-version");
    PropertyIs(f, "bq-source-lang");
    PropertyIs(f, "bq-attempts");
    NamesDiffer();
    forall key | key in Projected(f) ensures IsProjected(key) { PropertyIs(f, key); }
  }

  lemma PropertyIs(f: Fields, key: string)
    ensures key in Projected(f) ==> IsProjected(key)
    ensures Property(Projected(f), key) ==
      if key == ATTEMPTS then Some(Itoa(f.attempts))
      else if key == "bq-source-lang" && f.lang != "" then Some(f.lang)
      else if key == SCHEMA && f.schemaVersion != 0 then Some(Itoa(f.schemaVersion))
      else if key == "bq-message-id" && f.id != "" then Some(f.id)
      else if key == "bq-trace-id" && f.traceId != "" then Some(f.traceId)
      else if key == JOB && f.job != "" then Some(f.job) else None
  {
    hide Itoa;
  }

  /** message: the properties a body is sent with on behalf of a route. */
  function Sent(codec: Codec, body: string, route: string): Properties {
    var decoded := codec.decode(body);
    var base := if decoded.Some? then Projected(decoded.value.fields) else map[];
    match ParseGateRoute(route)
    case Gated(version, job) =>
      var gated := base[SCHEMA := version];
      if job.Some? then gated[JOB := job.value] else gated
    case NotGated => if decoded.Some? && route != "" then base[JOB := route] else base
  }

  /** mergeOutOfBand. */
  function Merged(props: Properties, extra: Properties): Properties {
    map k | k in props.Keys + extra.Keys && (k in props || (k != "" && extra[k] != "" && k !in CONTRACT)) ::
      if k in props then props[k] else extra[k]
  }

  lemma MergedKeepsContract(props: Properties, extra: Properties)
    ensures forall k :: k in CONTRACT ==>
      (k in Merged(props, extra) <==> k in props) && (k in props ==> Merged(props, extra)[k] == props[k])
    ensures forall k :: k !in CONTRACT && k != "" ==>
      Property(Merged(props, extra), k) ==
        if k in props then Some(props[k]) else if k in extra then NonEmpty(extra[k]) else None
  {
  }

  function Job(props: Properties): Option<string> { if JOB in props then Some(props[JOB]) else None }

  /** The job the body itself names, if it decodes and names one. */
  function BodyJob(codec: Codec, body: string): Option<string> {
    match codec.decode(body)
    case None => None
    case Some(e) => if e.fields.job != "" then Some(e.fields.job) else None
  }

  lemma ProjectedJob(f: Fields)
    ensures Job(Projected(f)) == if f.job != "" then Some(f.job) else None
  {
    assert JOB[3] == 'j' && ATTEMPTS[3] == 'a' && |JOB| == 6;
  }

  /** What a re-publish writes as bq-job, by its route and its body. */
  function WrittenJob(route: string, own: Option<string>): Option<string> {
    match ParseGateRoute(route)
    case Gated(_, Some(job)) => Some(job)
    case Gated(_, None) => own
    case NotGated => if own.Some? && route != "" then Some(route) else own
  }

  lemma SentJob(codec: Codec, body: string, route: string)
    requires IsDecodable(codec)
    ensures Job(Sent(codec, body, route)) == WrittenJob(route, BodyJob(codec, body))
  {
    hide ParseGateRoute, Projected;
    if codec.decode(body).Some? {
      ProjectedJob(codec.decode(body).value.fields);
    }
    assert |SCHEMA| != |JOB|;
  }

  /** What is sent for a gate route. */
  lemma SentGated(codec: Codec, body: string, version: string, job: Option<string>)
    requires IsDecodable(codec)
    ensures var sent := Sent(codec, body, GateRoute(version, job));
      && SCHEMA in sent && sent[SCHEMA] == version
      && Job(sent) == if job.Some? then job else BodyJob(codec, body)
  {
    hide GateRoute, ParseGateRoute, Projected;
    ParseUndoesGate(version, job);
    SentJob(codec, body, GateRoute(version, job));
    assert |SCHEMA| != |JOB|;
  }

  // ---------- Attempts ----------

  /** parseAttempts. */
  function ParseAttempts(raw: string): Option<nat> {
    if raw == "" || !AreDigits(raw) || DigitsValue(raw) > MAX_ATTEMPTS then None else Some(DigitsValue(raw))
  }

  /** The attempts Pop settles on. */
  function ReconciledAttempts(f: Fields, props: Properties, redeliveries: UInt32): (n: int)
    ensures Dispatch.IsInt(f.attempts) ==> Dispatch.IsInt(n)
  {
    var parsed := if ATTEMPTS in props then ParseAttempts(props[ATTEMPTS]) else None;
    var n := if parsed.Some? then parsed.value else f.attempts;
    if redeliveries > n then redeliveries else n
  }

  /** An attempts property is read exactly when it is a number of at most 31 bits, in decimal digits, leading zeros
      included and nothing else. */
  lemma AttemptsAreRead(raw: string, n: nat)
    ensures ParseAttempts(raw) == Some(n) <==> n < 0x8000_0000 && exists k: nat :: Decimal.IsPadded(raw, n, k)
  {
    hide Digits, DigitsValue, AreDigits;
    if raw != "" && AreDigits(raw) {
      var k := DigitsArePadded(raw);
    }
    if k: nat :| Decimal.IsPadded(raw, n, k) {
      PaddedValue(n, k);
    }
  }

  lemma ItoaParses(n: int)
    ensures ParseAttempts(Itoa(n)) == if 0 <= n <= MAX_ATTEMPTS then Some(n) else None
  {
    if n < 0 {
      assert Itoa(n)[0] == '-';
    } else {
      ValueOfDigits(n);
    }
  }

  /** An envelope published with its attempts is popped with them, or with the broker's count when that is
      larger, whatever the number and whatever route it takes. */
  lemma AttemptsSurviveTheHop(codec: Codec, body: string, route: string, extra: Properties,
      redeliveries: UInt32)
    requires codec.decode(body).Some?
    ensures var f := codec.decode(body).value.fields;
      ReconciledAttempts(f, Merged(Sent(codec, body, route), extra), redeliveries)
        == if redeliveries > f.attempts then redeliveries else f.attempts
  {
    hide Merged, Itoa, ParseAttempts, ParseGateRoute;
    var f := codec.decode(body).value.fields;
    ItoaParses(f.attempts);
    MergedKeepsContract(Sent(codec, body, route), extra);
    SentAttempts(codec, body, route);
    assert ATTEMPTS in CONTRACT;
    hide Sent, CONTRACT;
  }

  lemma SentAttempts(codec: Codec, body: string, route: string)
    requires codec.decode(body).Some?
    ensures ATTEMPTS in Sent(codec, body, route)
      && Sent(codec, body, route)[ATTEMPTS] == Itoa(codec.decode(body).value.fields.attempts)
  {
    assert |ATTEMPTS| == 11 && |SCHEMA| == 17 && |JOB| == 6;
    hide ParseGateRoute, Itoa;
  }

  // ---------- Deliveries ----------

  /** A message on the topic. */
  datatype Delivery = Delivery(body: string, props: Properties)

  /** A message as Pop hands it over. */
  datatype Popped = Popped(body: string, route: string, count: int)

  /** Go's int and uint32. */
  type Int64 = n: int | Dispatch.IsInt(n) witness 0
  type UInt32 = n: nat | n < 0x1_0000_0000 witness 0

  function WithAttempts(e: Envelope, n: Int64): Envelope { e.(fields := e.fields.(attempts := n)) }

  /** What decodes names a job that is not blank, and has attempts that are an int. */
  ghost predicate IsDecodable(codec: Codec) {
    forall body {:trigger codec.decode(body)} :: codec.decode(body).Some? ==>
      var f := codec.decode(body).value.fields; !AsciiSpace.IsBlank(f.job) && Dispatch.IsInt(f.attempts)
  }

  predicate IsReadBack(codec: Codec, e: Envelope) {
    codec.encode(e).Some? ==>
      var d := codec.decode(codec.encode(e).value); d.Some? && d.value.fields == e.fields
  }

  /** What was decoded reads back with its fields when it is encoded again, with any attempts; and an empty envelope
      has no identity. Both hold of the library's codec: EnvelopeEncode shows it. */
  ghost predicate ReadsBack(codec: Codec) {
    && (forall body, n: Int64 {:trigger WithAttempts(codec.decode(body).value, n)} ::
          codec.decode(body).Some? ==> IsReadBack(codec, WithAttempts(codec.decode(body).value, n)))
    && (forall n: Int64 {:trigger WithAttempts(EMPTY, n)} ::
          var body := codec.encode(WithAttempts(EMPTY, n)); body.Some? ==> codec.decode(body.value) == None)
  }

  ghost predicate IsFaithful(codec: Codec) { IsDecodable(codec) && ReadsBack(codec) }

  /** The route reconcile supplies: bq-job without the white space around it, for a body that names a job. */
  function RouteOf(codec: Codec, d: Delivery): string {
    if BodyJob(codec, d.body).Some? && Job(d.props).Some? then TrimSpace(Job(d.props).value) else ""
  }

  /** The body reconcile hands over: with the reconciled attempts, where they differ and it can be encoded. */
  function ReconciledBody(codec: Codec, d: Delivery, redeliveries: UInt32): string {
    match codec.decode(d.body)
    case None => d.body
    case Some(e) =>
      var n := ReconciledAttempts(e.fields, d.props, redeliveries);
      var next := if n == e.fields.attempts || !Dispatch.IsInt(n) then None else codec.encode(WithAttempts(e, n));
      if next.Some? then next.value else d.body
  }

  /** The larger of the broker's redeliveries and a valid bq-attempts. */
  function Floor(props: Properties, redeliveries: UInt32): nat {
    if ATTEMPTS in props && ParseAttempts(props[ATTEMPTS]).Some? && ParseAttempts(props[ATTEMPTS]).value > redeliveries
    then ParseAttempts(props[ATTEMPTS]).value else redeliveries
  }

  /** Pop. */
  function Pop(codec: Codec, d: Delivery, redeliveries: UInt32): Popped {
    match Rejected(d.props)
    case Some(version) => Popped(d.body, GateRoute(version, Job(d.props)), 0)
    case None => Popped(ReconciledBody(codec, d, redeliveries), RouteOf(codec, d), Floor(d.props, redeliveries) + 1)
  }

  /** The bq-attempts property names this number. */
  ghost predicate NamesAttempts(props: Properties, n: nat) {
    ATTEMPTS in props && n < 0x8000_0000 && exists k: nat :: Decimal.IsPadded(props[ATTEMPTS], n, k)
  }

  /** The same body, or, where the attempts differ and it can be encoded, the envelope with these attempts. */
  predicate HasAttempts(codec: Codec, body: string, e: Envelope, n: Int64, out: string) {
    if n == e.fields.attempts || codec.encode(WithAttempts(e, n)) == None then out == body
    else codec.encode(WithAttempts(e, n)) == Some(out)
  }

  lemma PropertyIsRead(props: Properties, n: nat)
    ensures NamesAttempts(props, n) <==> ATTEMPTS in props && ParseAttempts(props[ATTEMPTS]) == Some(n)
  {
    if ATTEMPTS in props { AttemptsAreRead(props[ATTEMPTS], n); }
    hide ParseAttempts;
  }

  /** The attempts of a decodable delivery that is not gated: the number its property names, or else those of its body,
      and in either case at least the broker's redeliveries. It is counted as one delivery more than the larger of the
      property and the redeliveries. */
  lemma AttemptsAreReconciled(codec: Codec, d: Delivery, redeliveries: UInt32)
    requires IsDecodable(codec) && codec.decode(d.body).Some? && Rejected(d.props) == None
    ensures var e, p := codec.decode(d.body).value, Pop(codec, d, redeliveries);
      && (forall n: nat :: NamesAttempts(d.props, n) ==>
           HasAttempts(codec, d.body, e, Max(n, redeliveries), p.body) && p.count == Max(n, redeliveries) + 1)
      && ((forall n: nat :: !NamesAttempts(d.props, n)) ==>
           HasAttempts(codec, d.body, e, Max(e.fields.attempts, redeliveries), p.body) && p.count == redeliveries + 1)
  {
    hide ParseAttempts, NamesAttempts, Rejected, GateRoute, RouteOf, AsciiSpace.IsBlank;
    forall n: nat ensures NamesAttempts(d.props, n) <==>
        ATTEMPTS in d.props && ParseAttempts(d.props[ATTEMPTS]) == Some(n) {
      PropertyIsRead(d.props, n);
    }
  }

  // ---------- Hops ----------

  /** A delivery is popped and written back: as it is, or with new attempts; to any queue, with any headers. */
  datatype Hop = Hop(redeliveries: UInt32, retry: Option<Int64>, extra: Properties)

  const EMPTY: Envelope := Envelope(Fields("", "", "", 0, "", 0, 0), "")

  /** What the App encodes for a retry; of a body that does not decode nothing is left but the attempts. */
  function RetryBody(codec: Codec, body: string, n: Int64): Option<string> {
    var e := if codec.decode(body).Some? then codec.decode(body).value else EMPTY;
    codec.encode(WithAttempts(e, n))
  }

  function HopBody(codec: Codec, d: Delivery, h: Hop): Option<string> {
    var body := Pop(codec, d, h.redeliveries).body;
    match h.retry case None => Some(body) case Some(n) => RetryBody(codec, body, n)
  }

  /** The copy; a body that cannot be encoded is not written. */
  function Copy(codec: Codec, d: Delivery, h: Hop): Delivery
    requires HopBody(codec, d, h).Some?
  {
    var body := HopBody(codec, d, h).value;
    Delivery(body, Merged(Sent(codec, body, Pop(codec, d, h.redeliveries).route), h.extra))
  }

  predicate AreHops(codec: Codec, d: Delivery, hops: seq<Hop>)
    decreases |hops|
  {
    hops == [] || (HopBody(codec, d, hops[0]).Some? && AreHops(codec, Copy(codec, d, hops[0]), hops[1..]))
  }

  /** The last copy. */
  function After(codec: Codec, d: Delivery, hops: seq<Hop>): Delivery
    requires AreHops(codec, d, hops)
    decreases |hops|
  {
    if hops == [] then d else After(codec, Copy(codec, d, hops[0]), hops[1..])
  }

  lemma BlankIsEmpty()
    ensures AsciiSpace.IsBlank("")
  {
  }

  lemma BodyJobIs(codec: Codec, body: string)
    requires IsDecodable(codec)
    ensures BodyJob(codec, body) ==
      if codec.decode(body).Some? then Some(codec.decode(body).value.fields.job) else None
    ensures BodyJob(codec, body).Some? ==> !AsciiSpace.IsBlank(BodyJob(codec, body).value)
  {
    BlankIsEmpty();
    hide AsciiSpace.IsBlank;
  }

  /** No hop changes the job the body names. */
  lemma BodyJobStays(codec: Codec, d: Delivery, h: Hop)
    requires IsFaithful(codec) && HopBody(codec, d, h).Some?
    ensures BodyJob(codec, HopBody(codec, d, h).value) == BodyJob(codec, d.body)
  {
    hide AsciiSpace.IsBlank, Rejected, GateRoute, RouteOf, ReconciledAttempts, Floor, BodyJob;
    var body := Pop(codec, d, h.redeliveries).body;
    BodyJobIs(codec, d.body);
    BodyJobIs(codec, body);
    BlankIsEmpty();
    assert BodyJob(codec, body) == BodyJob(codec, d.body);
    if h.retry.Some? {
      BodyJobIs(codec, HopBody(codec, d, h).value);
    }
  }

  /** The job a copy carries. */
  lemma CopyJob(codec: Codec, d: Delivery, h: Hop)
    requires IsFaithful(codec) && HopBody(codec, d, h).Some?
    ensures Job(Copy(codec, d, h).props) == WrittenJob(Pop(codec, d, h.redeliveries).route, BodyJob(codec, d.body))
  {
    hide Pop, Sent, Merged, WrittenJob, BodyJob, HopBody;
    var body, route := HopBody(codec, d, h).value, Pop(codec, d, h.redeliveries).route;
    BodyJobStays(codec, d, h);
    SentJob(codec, body, route);
    MergedKeepsContract(Sent(codec, body, route), h.extra);
    assert JOB in CONTRACT;
    hide CONTRACT;
  }

  // ---------- Gated deliveries ----------

  /** After one hop: still gated on the same version, and routed as before, or on the body where there was no
      bq-job. */
  lemma OneHop(codec: Codec, d: Delivery, h: Hop)
    requires IsFaithful(codec) && Rejected(d.props).Some? && HopBody(codec, d, h).Some?
    ensures var next := Copy(codec, d, h);
      && Rejected(next.props) == Rejected(d.props)
      && Job(next.props) == (if JOB in d.props then Job(d.props) else BodyJob(codec, d.body))
      && BodyJob(codec, next.body) == BodyJob(codec, d.body)
  {
    hide GateRoute, Sent, Merged, BodyJob, HopBody;
    var version := Rejected(d.props).value;
    var body := HopBody(codec, d, h).value;
    BodyJobStays(codec, d, h);
    SentGated(codec, body, version, Job(d.props));
    MergedKeepsContract(Sent(codec, body, GateRoute(version, Job(d.props))), h.extra);
    assert SCHEMA in CONTRACT && JOB in CONTRACT;
    hide CONTRACT;
  }

  /** Over any number of hops the rejected version is unchanged, so is the bq-job of the first delivery, and
      without one the body's own job takes its place from the first hop on. */
  lemma {:induction false} HopsAreStable(codec: Codec, d: Delivery, hops: seq<Hop>)
    requires IsFaithful(codec) && Rejected(d.props).Some? && AreHops(codec, d, hops)
    ensures var last := After(codec, d, hops);
      && Rejected(last.props) == Rejected(d.props)
      && (JOB in d.props ==> Job(last.props) == Job(d.props))
      && (JOB !in d.props ==> Job(last.props) == if hops == [] then None else BodyJob(codec, d.body))
    decreases |hops|
  {
    hide Copy, Rejected, IsFaithful, HopBody, BodyJob;
    if hops != [] {
      OneHop(codec, d, hops[0]);
      HopsAreStable(codec, Copy(codec, d, hops[0]), hops[1..]);
    }
  }

  // ---------- Ordinary deliveries ----------

  /** A reserved prefix with no job behind it. */
  predicate IsBareGate(route: string) { ParseGateRoute(route).Gated? && ParseGateRoute(route).job == None }

  /** What a bq-job has to be, next to the job of the body, to be written again. A job that is not routed on, or
      that is read as a gate route, is replaced by the body's. */
  predicate JobStays(job: string, own: Option<string>) {
    && own.Some?
    && var route := TrimSpace(job);
      if route == "" || IsBareGate(route) then own.value == job
      else route == job && !(Dispatch.GATE_PREFIX <= job)
  }

  lemma {:induction false} UnescapeShrinks(s: string)
    ensures |UnescapeOr(s)| <= |s| && (Unescape(s).Some? ==> |Unescape(s).value| <= |s|)
    decreases |s|
  {
    if s != "" {
      if s[0] == '%' {
        if |s| >= 3 { UnescapeShrinks(s[3..]); }
      } else {
        UnescapeShrinks(s[1..]);
      }
    }
  }

  lemma ParsedJobIsShorter(route: string)
    requires ParseGateRoute(route).Gated? && ParseGateRoute(route).job.Some?
    ensures |ParseGateRoute(route).job.value| < |route|
  {
    hide UnescapeOr, IndexOf;
    var rest := route[|Dispatch.GATE_PREFIX|..];
    var i := IndexOf(rest, JOB_PARAM);
    UnescapeShrinks(rest[i + |JOB_PARAM|..]);
  }

  /** The first hop writes the job again exactly when it stays. */
  lemma FirstHopKeepsJobExactlyWhen(codec: Codec, d: Delivery, h: Hop)
    requires IsFaithful(codec) && Rejected(d.props) == None && JOB in d.props && HopBody(codec, d, h).Some?
    ensures Job(Copy(codec, d, h).props) == Job(d.props) <==> JobStays(d.props[JOB], BodyJob(codec, d.body))
  {
    hide Copy, HopBody, BodyJob, Rejected, ReconciledBody, Floor, WrittenJob, JobStays, TrimSpace, IsFaithful;
    CopyJob(codec, d, h);
    WritesItsJobExactlyWhen(d.props[JOB], BodyJob(codec, d.body));
  }

  lemma WritesItsJobExactlyWhen(job: string, own: Option<string>)
    ensures WrittenJob(if own.Some? then TrimSpace(job) else "", own) == Some(job) <==> JobStays(job, own)
  {
    var route := TrimSpace(job);
    TrimmedStays(job);
    GatedIs(route);
    GatedIs("");
    if ParseGateRoute(route).Gated? && ParseGateRoute(route).job.Some? {
      ParsedJobIsShorter(route);
    }
    hide ParseGateRoute, TrimSpace;
  }

  lemma GatedIs(route: string)
    ensures ParseGateRoute(route).Gated? <==> Dispatch.GATE_PREFIX <= route
    ensures route == "" ==> ParseGateRoute(route) == NotGated
  {
    hide IndexOf, UnescapeOr;
  }

  lemma NothingIsGated()
    ensures ParseGateRoute("") == NotGated && forall r :: ParseGateRoute(r).Gated? <==> Dispatch.GATE_PREFIX <= r
  {
    hide IndexOf, UnescapeOr;
  }

  /** A delivery that passed the gate keeps its bq-job over every number of hops exactly when it stays. */
  lemma JobSurvivesExactlyWhen(codec: Codec, d: Delivery, hops: seq<Hop>)
    requires IsFaithful(codec) && Rejected(d.props) == None && JOB in d.props && AreHops(codec, d, hops) && hops != []
    ensures (forall n :: 0 <= n <= |hops| ==> HopsKeepJob(codec, d, hops[..n])) <==>
      JobStays(d.props[JOB], BodyJob(codec, d.body))
  {
    hide Copy, HopBody, BodyJob, Rejected, JobStays, IsFaithful;
    if JobStays(d.props[JOB], BodyJob(codec, d.body)) {
      forall n | 0 <= n <= |hops| ensures HopsKeepJob(codec, d, hops[..n]) {
        FewerHops(codec, d, hops, n);
        StayingJobSurvives(codec, d, hops[..n]);
      }
    } else {
      FewerHops(codec, d, hops, 1);
      assert hops[..1] == [hops[0]] && [hops[0]][1..] == [];
      assert After(codec, d, hops[..1]) == After(codec, Copy(codec, d, hops[0]), []);
      FirstHopKeepsJobExactlyWhen(codec, d, hops[0]);
    }
  }

  predicate HopsKeepJob(codec: Codec, d: Delivery, hops: seq<Hop>) {
    AreHops(codec, d, hops) && Job(After(codec, d, hops).props) == Job(d.props)
  }

  lemma {:induction false} FewerHops(codec: Codec, d: Delivery, hops: seq<Hop>, n: nat)
    requires AreHops(codec, d, hops) && n <= |hops|
    ensures AreHops(codec, d, hops[..n])
    decreases |hops|
  {
    hide Copy, HopBody;
    if n > 0 {
      FewerHops(codec, Copy(codec, d, hops[0]), hops[1..], n - 1);
      assert hops[..n][1..] == hops[1..][..n - 1];
    }
  }

  lemma {:induction false} StayingJobSurvives(codec: Codec, d: Delivery, hops: seq<Hop>)
    requires IsFaithful(codec) && Rejected(d.props) == None && JOB in d.props && AreHops(codec, d, hops)
    requires JobStays(d.props[JOB], BodyJob(codec, d.body))
    ensures Job(After(codec, d, hops).props) == Job(d.props)
    decreases |hops|
  {
    hide Copy, HopBody, BodyJob, Rejected, JobStays, IsFaithful;
    if hops != [] {
      FirstHopKeepsJobExactlyWhen(codec, d, hops[0]);
      var next := Copy(codec, d, hops[0]);
      CopyBodyJob(codec, d, hops[0]);
      if Rejected(next.props) == None {
        StayingJobSurvives(codec, next, hops[1..]);
      } else {
        HopsAreStable(codec, next, hops[1..]);
      }
    }
  }

  lemma CopyBodyJob(codec: Codec, d: Delivery, h: Hop)
    requires IsFaithful(codec) && HopBody(codec, d, h).Some?
    ensures BodyJob(codec, Copy(codec, d, h).body) == BodyJob(codec, d.body)
  {
    hide HopBody, BodyJob, Merged, Sent, Pop;
    BodyJobStays(codec, d, h);
  }

  // ---------- The reserved prefix ----------

  predicate IsReserved(job: Option<string>) { job.Some? && Dispatch.GATE_PREFIX <= job.value }

  /** A hop writes the reserved prefix as a bq-job exactly when it forwards it: from the bq-job of a gated delivery,
      from the body where no bq-job is routed on, or from inside a bq-job that is itself a gate route. */
  lemma ReservedPrefixIsWrittenExactlyWhen(codec: Codec, d: Delivery, h: Hop)
    requires IsFaithful(codec) && HopBody(codec, d, h).Some?
    ensures IsReserved(Job(Copy(codec, d, h).props)) <==>
      if Rejected(d.props).Some? then IsReserved(if JOB in d.props then Job(d.props) else BodyJob(codec, d.body))
      else
        match ParseGateRoute(RouteOf(codec, d))
        case Gated(_, Some(job)) => IsReserved(Some(job))
        case Gated(_, None) => IsReserved(BodyJob(codec, d.body))
        case NotGated => RouteOf(codec, d) == "" && IsReserved(BodyJob(codec, d.body))
  {
    hide Copy, HopBody, BodyJob, ReconciledBody, Floor, GateRoute, ParseGateRoute, TrimSpace;
    if Rejected(d.props).Some? {
      OneHop(codec, d, h);
    } else {
      CopyJob(codec, d, h);
      NothingIsGated();
    }
    hide IsFaithful;
  }

  /** Nothing that is, or is trimmed to, the reserved prefix. */
  predicate IsClean(job: Option<string>) {
    job.Some? ==> !(Dispatch.GATE_PREFIX <= job.value) && !(Dispatch.GATE_PREFIX <= TrimSpace(job.value))
  }

  /** Where neither bq-job nor the body carries it, no number of hops ever writes it. */
  lemma {:induction false} ReservedPrefixIsNeverMade(codec: Codec, d: Delivery, hops: seq<Hop>)
    requires IsFaithful(codec) && AreHops(codec, d, hops)
    requires IsClean(Job(d.props)) && IsClean(BodyJob(codec, d.body))
    ensures IsClean(Job(After(codec, d, hops).props))
    decreases |hops|
  {
    hide Copy, HopBody, BodyJob, Rejected, IsFaithful, IsClean, Pop;
    if hops != [] {
      CleanHop(codec, d, hops[0]);
      CopyBodyJob(codec, d, hops[0]);
      ReservedPrefixIsNeverMade(codec, Copy(codec, d, hops[0]), hops[1..]);
    }
  }

  lemma CleanHop(codec: Codec, d: Delivery, h: Hop)
    requires IsFaithful(codec) && HopBody(codec, d, h).Some?
    requires IsClean(Job(d.props)) && IsClean(BodyJob(codec, d.body))
    ensures IsClean(Job(Copy(codec, d, h).props))
  {
    hide Copy, HopBody, BodyJob, ReconciledBody, Floor, GateRoute, ParseGateRoute, TrimSpace, IsClean;
    if Rejected(d.props).Some? {
      OneHop(codec, d, h);
    } else {
      CopyJob(codec, d, h);
      NothingIsGated();
      CleanRoute(codec, d);
    }
    hide IsFaithful, Rejected;
  }

  lemma CleanRoute(codec: Codec, d: Delivery)
    requires IsClean(Job(d.props))
    ensures !(Dispatch.GATE_PREFIX <= RouteOf(codec, d)) && IsClean(Some(RouteOf(codec, d)))
  {
    hide BodyJob, TrimSpace;
    TrimmedStays("");
    if JOB in d.props {
      TrimmedStays(d.props[JOB]);
    }
    assert Dispatch.GATE_PREFIX != "";
    EmptyTrims();
  }

  lemma EmptyTrims()
    ensures TrimSpace("") == ""
  {
  }

  // ---------- Where it does not hold ----------

  /** The reserved route of version 7 has no white space around it, and is what a gate route of it is. */
  lemma ReservedRoute()
    ensures var r := Dispatch.GATE_PREFIX + "7"; TrimSpace(r) == r && r == GateRoute("7", None)
  {
    var r := Dispatch.GATE_PREFIX + "7";
    assert r[0] == 'b' && r[|r| - 1] == '7';
    AsciiEndsStay(r);
    SevenEscapes();
    hide TrimSpace, Escape;
  }

  lemma SevenEscapes()
    ensures Escape("7") == "7"
  {
    assert "7"[1..] == "" && EscapeByte('7') == "7";
  }

  /** A bq-job that is a gate route, on a delivery of the supported version: the App takes the delivery for a gated
      one, and what is written for it is gated on a version nobody declared, and routed on the body. */
  lemma ForgedRouteIsGated(codec: Codec, d: Delivery, h: Hop)
    requires IsFaithful(codec) && BodyJob(codec, d.body) == Some("u") && HopBody(codec, d, h).Some?
    requires d.props == map[JOB := Dispatch.GATE_PREFIX + "7", SCHEMA := SUPPORTED]
    ensures Rejected(d.props) == None && Dispatch.GATE_PREFIX <= Pop(codec, d, h.redeliveries).route
    ensures Rejected(Copy(codec, d, h).props) == Some("7") && Job(Copy(codec, d, h).props) == Some("u")
  {
    hide ReconciledBody, HopBody, BodyJob, Floor, GateRoute, ParseGateRoute, TrimSpace, Sent, Merged;
    assert |SCHEMA| != |JOB|;
    ReservedRoute();
    ParseUndoesGate("7", None);
    CopyJob(codec, d, h);
    var body, route := HopBody(codec, d, h).value, Pop(codec, d, h.redeliveries).route;
    assert route == GateRoute("7", None);
    SentGated(codec, body, "7", None);
    MergedKeepsContract(Sent(codec, body, route), h.extra);
    assert SCHEMA in CONTRACT;
    assert "7"[0] == '7' && SUPPORTED[0] == '1';
    hide CONTRACT, IsFaithful;
  }

  /** A body whose own job is the reserved prefix, delivered without a bq-job: the first copy carries it as one. */
  lemma ReservedJobIsForwarded(codec: Codec, body: string, h: Hop)
    requires IsFaithful(codec) && BodyJob(codec, body) == Some(Dispatch.GATE_PREFIX + "7")
    requires HopBody(codec, Delivery(body, map[]), h).Some?
    ensures Job(Copy(codec, Delivery(body, map[]), h).props) == Some(Dispatch.GATE_PREFIX + "7")
  {
    hide ReconciledBody, HopBody, BodyJob, Floor, ParseGateRoute, TrimSpace, Copy;
    CopyJob(codec, Delivery(body, map[]), h);
    NothingIsGated();
  }

  // ---------- The App on such deliveries ----------

  /** A gate route is never run nor retried by the App: it is dropped, moved as it is, or left to the broker. */
  lemma GatedIsNeverRetried(c: Dispatch.Config, t: Dispatch.Capabilities, m: Dispatch.Message, ok: bool,
      version: string, job: Option<string>)
    requires Dispatch.MessageOk(m) && m.routeURN == GateRoute(version, job)
    ensures !Dispatch.RunsHandler(c, m)
    ensures Dispatch.Plan(c, t, m, ok) in
      {Dispatch.Drop, Dispatch.ToDeadLetter(Dispatch.SameBody, false), Dispatch.LeaveNative}
  {
    ParseUndoesGate(version, job);
  }
}
