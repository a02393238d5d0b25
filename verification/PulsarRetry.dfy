/** The retry bound of RetryBound for the re-publishing transport of pulsar.go. */
module PulsarRetry {
  // Pop routes every copy of a delivery alike, and counts it by the attempts it carries. So the bound holds for all
  // messages but one kind, whose exact description is here.

  import opened Wrappers
  import opened Decimal
  import opened JsonGrammar
  import opened KafkaRecords
  import opened UnicodeSpace
  import opened PulsarGate
  import AsciiSpace
  import Dispatch
  import RetryBound

  /** The schema version a copy of the body is gated on, if it is. */
  function Declared(codec: Codec, body: string): Option<string> {
    match codec.decode(body)
    case None => None
    case Some(e) =>
      if e.fields.schemaVersion == 0 || Itoa(e.fields.schemaVersion) == SUPPORTED then None
      else Some(Itoa(e.fields.schemaVersion))
  }

  /** The bq-job the copies carry: the route of the delivery, or else the job of the body. */
  function CopiedJob(codec: Codec, d: Delivery): Option<string> {
    if RouteOf(codec, d) != "" then Some(RouteOf(codec, d)) else BodyJob(codec, d.body)
  }

  /** The route every copy comes back with. */
  function CopyRoute(codec: Codec, d: Delivery): string {
    match CopiedJob(codec, d)
    case None => ""
    case Some(job) =>
      match Declared(codec, d.body) case Some(v) => GateRoute(v, Some(job)) case None => TrimSpace(job)
  }

  /** The count a copy comes back with: 0 behind the gate, and otherwise by its own attempts. */
  function CopyCount(codec: Codec, d: Delivery): Dispatch.Body -> int {
    (b: Dispatch.Body) =>
      if Declared(codec, d.body).Some? then 0
      else if b.Envelope? && 0 <= b.attempts <= MAX_ATTEMPTS then b.attempts + 1 else 1
  }

  function Copies(codec: Codec, d: Delivery): RetryBound.Redelivery {
    RetryBound.Republished(CopyRoute(codec, d), CopyCount(codec, d))
  }

  /** What the App makes of the body. */
  ghost predicate IsBodyOf(codec: Codec, body: string, b: Dispatch.Body) {
    match codec.decode(body)
    case None => !b.Envelope?
    case Some(e) => b == Dispatch.Envelope(e.fields.job, e.fields.attempts)
  }

  lemma ItoaIsNotBlank(n: int)
    ensures !AsciiSpace.IsBlank(Itoa(n))
  {
    FirstOfItoa(n);
    hide Itoa;
    assert !AsciiSpace.IsSpace(Itoa(n)[0]);
  }

  lemma FirstOfItoa(n: int)
    ensures Itoa(n) != "" && (Itoa(n)[0] == '-' || IsDigit(Itoa(n)[0]))
  {
    if n >= 0 { ValueOfDigits(n); }
    hide Digits;
  }

  lemma DeclaredHasJob(codec: Codec, body: string)
    requires IsFaithful(codec)
    ensures Declared(codec, body).Some? ==> BodyJob(codec, body).Some?
  {
    BodyJobIs(codec, body);
  }

  lemma SentSchema(codec: Codec, body: string, route: string)
    requires !(Dispatch.GATE_PREFIX <= route)
    ensures Rejected(Sent(codec, body, route)) == Declared(codec, body)
  {
    GatedIs(route);
    hide ParseGateRoute, Itoa;
    assert |SCHEMA| == 17 && |JOB| == 6 && |ATTEMPTS| == 11 && |"bq-trace-id"| == 11 && |"bq-message-id"| == 13;
    assert |"bq-source-lang"| == 14;
    match codec.decode(body)
    case None => return;
    case Some(e) => ItoaIsNotBlank(e.fields.schemaVersion);
  }

  /** What is declared stays declared. */
  lemma DeclaredStays(codec: Codec, d: Delivery, h: Hop)
    requires IsFaithful(codec) && HopBody(codec, d, h).Some?
    ensures Declared(codec, HopBody(codec, d, h).value) == Declared(codec, d.body)
  {
    hide AsciiSpace.IsBlank, Rejected, GateRoute, RouteOf, ReconciledAttempts, Floor, Itoa;
    BlankIsEmpty();
  }

  lemma MergedSchema(props: Properties, extra: Properties)
    ensures Rejected(Merged(props, extra)) == Rejected(props) && Job(Merged(props, extra)) == Job(props)
  {
    MergedKeepsContract(props, extra);
    assert SCHEMA in CONTRACT && JOB in CONTRACT;
    hide Merged, CONTRACT;
  }

  /** Every copy of a delivery that is not gated is routed as the first one is. */
  lemma CopiesAreRoutedAlike(codec: Codec, d: Delivery, h: Hop, redeliveries: UInt32)
    requires IsFaithful(codec) && Rejected(d.props) == None && !(Dispatch.GATE_PREFIX <= RouteOf(codec, d))
    requires HopBody(codec, d, h).Some?
    ensures var copy := Copy(codec, d, h);
      && Pop(codec, copy, redeliveries).route == CopyRoute(codec, d)
      && (Declared(codec, d.body) == None ==> CopyRoute(codec, copy) == CopyRoute(codec, d))
      && Declared(codec, copy.body) == Declared(codec, d.body)
  {
    hide HopBody, BodyJob, Sent, Merged, Declared, TrimSpace, GateRoute, ReconciledBody, Floor, IsFaithful, Rejected;
    var body, route := HopBody(codec, d, h).value, RouteOf(codec, d);
    CopyJob(codec, d, h);
    CopyBodyJob(codec, d, h);
    GatedIs(route);
    SentSchema(codec, body, route);
    MergedSchema(Sent(codec, body, route), h.extra);
    DeclaredStays(codec, d, h);
    DeclaredHasJob(codec, d.body);
    TrimmedRoute(codec, d);
    hide ParseGateRoute;
  }

  lemma TrimmedRoute(codec: Codec, d: Delivery)
    ensures TrimSpace(RouteOf(codec, d)) == RouteOf(codec, d)
    ensures RouteOf(codec, d) != "" ==> BodyJob(codec, d.body).Some?
    ensures BodyJob(codec, d.body).Some? ==>
      TrimSpace(TrimSpace(BodyJob(codec, d.body).value)) == TrimSpace(BodyJob(codec, d.body).value)
  {
    hide BodyJob, TrimSpace;
    EmptyTrims();
    if JOB in d.props {
      TrimmedStays(d.props[JOB]);
    }
    if BodyJob(codec, d.body).Some? {
      TrimmedStays(BodyJob(codec, d.body).value);
    }
  }

  /** A retried copy comes back with the count its attempts say, on its first delivery. */
  lemma CopiesAreCounted(codec: Codec, d: Delivery, h: Hop, b: Dispatch.Body)
    requires IsFaithful(codec) && Rejected(d.props) == None && !(Dispatch.GATE_PREFIX <= RouteOf(codec, d))
    requires HopBody(codec, d, h).Some? && IsBodyOf(codec, Copy(codec, d, h).body, b)
    ensures Pop(codec, Copy(codec, d, h), 0).count == CopyCount(codec, d)(b)
  {
    hide HopBody, BodyJob, Sent, Merged, Declared, TrimSpace, GateRoute, ReconciledBody, IsFaithful, Rejected,
      ParseAttempts, Itoa;
    var body, route := HopBody(codec, d, h).value, RouteOf(codec, d);
    SentSchema(codec, body, route);
    MergedSchema(Sent(codec, body, route), h.extra);
    MergedKeepsContract(Sent(codec, body, route), h.extra);
    DeclaredStays(codec, d, h);
    assert ATTEMPTS in CONTRACT;
    hide CONTRACT;
    if codec.decode(body).Some? {
      SentAttempts(codec, body, route);
      ItoaParses(codec.decode(body).value.fields.attempts);
    } else {
      NothingSent(codec, body, route);
    }
  }

  lemma NothingSent(codec: Codec, body: string, route: string)
    requires codec.decode(body) == None && !(Dispatch.GATE_PREFIX <= route)
    ensures Sent(codec, body, route) == map[]
  {
    GatedIs(route);
    hide ParseGateRoute;
  }

  lemma CountsRecount(codec: Codec, d: Delivery)
    ensures RetryBound.Recounts(Copies(codec, d))
  {
    hide Declared;
  }

  lemma RouteIsNotBlank(codec: Codec, d: Delivery)
    ensures RouteOf(codec, d) != "" ==> !AsciiSpace.IsBlank(RouteOf(codec, d))
  {
    hide BodyJob, TrimSpace;
    if JOB in d.props {
      TrimmedIsNotBlank(d.props[JOB]);
    }
  }

  /** The first delivery of a message, as the App sees it. */
  ghost predicate IsDelivered(codec: Codec, d: Delivery, redeliveries: UInt32, m: Dispatch.Message) {
    && Dispatch.MessageOk(m) && !m.poison
    && var popped := Pop(codec, d, redeliveries);
      m.routeURN == popped.route && m.deliveryCount == popped.count && IsBodyOf(codec, popped.body, m.body)
  }

  /** Reconciling the attempts does not touch the job. */
  lemma PoppedJob(codec: Codec, d: Delivery, redeliveries: UInt32)
    requires IsFaithful(codec)
    ensures BodyJob(codec, Pop(codec, d, redeliveries).body) == BodyJob(codec, d.body)
  {
    BodyJobStays(codec, d, Hop(redeliveries, None, map[]));
    hide Pop, BodyJob, IsFaithful;
  }

  /** A job with white space around it that no bq-job stands in for: the copies are routed on it without. */
  predicate IsPadded(codec: Codec, d: Delivery, c: Dispatch.Config) {
    && RouteOf(codec, d) == "" && BodyJob(codec, d.body).Some? && Declared(codec, d.body) == None
    && var trimmed := TrimSpace(BodyJob(codec, d.body).value);
      trimmed != "" && trimmed !in c.handlers && !(Dispatch.GATE_PREFIX <= trimmed)
  }

  /** It is delivered ungated, and retried at least once. */
  ghost predicate IsRetriedFirst(codec: Codec, d: Delivery, redeliveries: UInt32, c: Dispatch.Config,
      t: Dispatch.Capabilities, m: Dispatch.Message) {
    && IsFaithful(codec) && Rejected(d.props) == None && IsDelivered(codec, d, redeliveries, m)
    && RetryBound.IsRetried(c, t, m) && Dispatch.Attempts(m) < Dispatch.MAX_INT && !RetryBound.IsLast(c, m)
  }

  lemma RetriedIsRouted(codec: Codec, d: Delivery, redeliveries: UInt32, c: Dispatch.Config,
      t: Dispatch.Capabilities, m: Dispatch.Message)
    requires IsRetriedFirst(codec, d, redeliveries, c, t, m)
    ensures m.routeURN == RouteOf(codec, d) && !(Dispatch.GATE_PREFIX <= RouteOf(codec, d))
    ensures m.body.Envelope? <==> BodyJob(codec, d.body).Some?
    ensures m.body.Envelope? ==> BodyJob(codec, d.body) == Some(m.body.job)
    ensures c.strategy.Release? && m.body.Envelope? && !AsciiSpace.IsBlank(Dispatch.Urn(m)) ==>
      Dispatch.Urn(m) in c.handlers
  {
    RetryBound.RetryRoute(c, t, m);
    BodyJobIs(codec, Pop(codec, d, redeliveries).body);
    PoppedJob(codec, d, redeliveries);
    hide AsciiSpace.IsBlank, ReconciledBody, Floor, GateRoute, BodyJob, Dispatch.Attempts;
  }

  lemma CopyRouteIs(codec: Codec, d: Delivery)
    requires IsFaithful(codec)
    ensures Declared(codec, d.body).Some? ==> Dispatch.GATE_PREFIX <= CopyRoute(codec, d)
    ensures Declared(codec, d.body) == None ==>
      CopyRoute(codec, d) ==
        if RouteOf(codec, d) != "" then RouteOf(codec, d)
        else if BodyJob(codec, d.body).Some? then TrimSpace(BodyJob(codec, d.body).value) else ""
  {
    TrimmedRoute(codec, d);
    DeclaredHasJob(codec, d.body);
    if Declared(codec, d.body).Some? {
      ParseUndoesGate(Declared(codec, d.body).value, CopiedJob(codec, d));
    }
    hide TrimSpace, GateRoute, Declared, BodyJob, RouteOf, IsFaithful;
  }

  /** What the copies are dispatched on. */
  lemma CopyUrnIs(codec: Codec, d: Delivery, m: Dispatch.Message)
    requires IsFaithful(codec) && (m.body.Envelope? ==> BodyJob(codec, d.body) == Some(m.body.job))
    requires m.body.Envelope? <==> BodyJob(codec, d.body).Some?
    ensures RetryBound.ComesBackGated(Copies(codec, d)) <==> Dispatch.GATE_PREFIX <= CopyRoute(codec, d)
    ensures Declared(codec, d.body).Some? ==> RetryBound.ComesBackGated(Copies(codec, d))
    ensures Declared(codec, d.body) == None ==>
      RetryBound.CopyUrn(Copies(codec, d), m) ==
        if RouteOf(codec, d) != "" then RouteOf(codec, d)
        else if !m.body.Envelope? then ""
        else if TrimSpace(m.body.job) != "" then TrimSpace(m.body.job) else m.body.job
  {
    CopyRouteIs(codec, d);
    hide TrimSpace, CopyRoute, CopyCount, Declared, BodyJob, RouteOf, IsFaithful;
  }

  /** Of the messages that are retried, exactly these go round for ever: under Release, a handler is registered for
      the padded job of the body and none for the job without. */
  lemma EscapesExactlyWhen(codec: Codec, d: Delivery, redeliveries: UInt32, c: Dispatch.Config,
      t: Dispatch.Capabilities, m: Dispatch.Message)
    requires IsRetriedFirst(codec, d, redeliveries, c, t, m)
    ensures RetryBound.Escapes(c, Copies(codec, d), m) <==> c.strategy.Release? && IsPadded(codec, d, c)
  {
    RetriedIsRouted(codec, d, redeliveries, c, t, m);
    CopyUrnIs(codec, d, m);
    CopyRouteIs(codec, d);
    BodyJobIs(codec, d.body);
    TrimmedRoute(codec, d);
    RouteIsNotBlank(codec, d);
    BlankIsEmpty();
    if BodyJob(codec, d.body).Some? {
      TrimmedIsNotBlank(BodyJob(codec, d.body).value);
    }
    hide TrimSpace, GateRoute, Declared, AsciiSpace.IsBlank, BodyJob, RouteOf, IsFaithful, IsRetriedFirst, Copies,
      RetryBound.CopyUrn, RetryBound.ComesBackGated;
  }

  /** So on this transport an always-failing message is delivered as often as RetryBound says, padded jobs under
      Release apart. */
  lemma PulsarIsBounded(codec: Codec, d: Delivery, redeliveries: UInt32, c: Dispatch.Config,
      t: Dispatch.Capabilities, m: Dispatch.Message)
    requires IsRetriedFirst(codec, d, redeliveries, c, t, m) && !t.releaser && Dispatch.IsInt(c.maxAttempts)
    ensures RetryBound.Fits(t, Copies(codec, d), m)
    ensures (exists n :: RetryBound.LeavesAfter(c, t, Copies(codec, d), m, n)) <==>
      !(c.strategy.Release? && IsPadded(codec, d, c))
  {
    CountsRecount(codec, d);
    EscapesExactlyWhen(codec, d, redeliveries, c, t, m);
    hide IsPadded, RetryBound.Escapes, RetryBound.Recounts, IsFaithful;
    RetryBound.RepublishedLeavesExactlyWhen(c, t, Copies(codec, d), m);
  }

  const PADDED: Dispatch.Config := Dispatch.Config(Dispatch.Release, 5, false, {" u"})
  const PADDED_MESSAGE: Dispatch.Message := Dispatch.Message(Dispatch.Envelope(" u", 0), "", 1, false)
  const PADDED_FIELDS: Fields := Fields(" u", "", "", 1, "go", 0, 0)

  /** A job with a space before it, a handler for it as it is, Release: after the first retry it is released for
      ever. */
  lemma PaddedJobEscapes(codec: Codec, body: string, n: nat)
    requires IsFaithful(codec) && codec.decode(body).Some? && codec.decode(body).value.fields == PADDED_FIELDS
    ensures IsRetriedFirst(codec, Delivery(body, map[]), 0, PADDED, RetryBound.REPUBLISHES, PADDED_MESSAGE)
    ensures RetryBound.Recounts(Copies(codec, Delivery(body, map[])))
    ensures !RetryBound.LeavesAfter(PADDED, RetryBound.REPUBLISHES, Copies(codec, Delivery(body, map[])),
      PADDED_MESSAGE, n)
  {
    var d := Delivery(body, map[]);
    PaddedIsRetried();
    PaddedIsPadded(codec, body);
    CountsRecount(codec, d);
    PaddedIsDelivered(codec, d);
    EscapesExactlyWhen(codec, d, 0, PADDED, RetryBound.REPUBLISHES, PADDED_MESSAGE);
    assert PADDED.strategy.Release? && PADDED.maxAttempts == 5 && !RetryBound.REPUBLISHES.releaser;
    assert RetryBound.Fits(RetryBound.REPUBLISHES, Copies(codec, d), PADDED_MESSAGE);
    hide RetryBound.Recounts, IsFaithful, RetryBound.LeavesAfter, RetryBound.Escapes, IsPadded, PADDED, PADDED_MESSAGE,
      RetryBound.Fits, RetryBound.IsRetried;
    RetryBound.EscapedIsReleasedForever(PADDED, RetryBound.REPUBLISHES, Copies(codec, d), PADDED_MESSAGE, n);
  }

  lemma PaddedIsRetried()
    ensures Dispatch.MessageOk(PADDED_MESSAGE) && Dispatch.Attempts(PADDED_MESSAGE) == 0
    ensures !RetryBound.IsLast(PADDED, PADDED_MESSAGE)
    ensures RetryBound.IsRetried(PADDED, RetryBound.REPUBLISHES, PADDED_MESSAGE)
  {
    assert " u"[1] == 'u' && !AsciiSpace.IsSpace('u') && !AsciiSpace.IsBlank(" u");
  }

  lemma PaddedIsPadded(codec: Codec, body: string)
    requires codec.decode(body).Some? && codec.decode(body).value.fields == PADDED_FIELDS
    ensures IsPadded(codec, Delivery(body, map[]), PADDED)
  {
    TrimOne();
    OneIsSupported();
    PaddedJob(codec, body);
    hide TrimSpace, Itoa, RouteOf, BodyJob;
    assert Dispatch.GATE_PREFIX[0] == 'b' && "u"[0] == 'u' && |"u"| != |" u"|;
  }

  lemma PaddedJob(codec: Codec, body: string)
    requires codec.decode(body).Some? && codec.decode(body).value.fields == PADDED_FIELDS
    ensures BodyJob(codec, body) == Some(" u") && RouteOf(codec, Delivery(body, map[])) == ""
  {
    hide TrimSpace;
    assert " u"[1] == 'u' && !AsciiSpace.IsSpace('u') && !AsciiSpace.IsBlank(" u");
  }

  lemma OneIsSupported()
    ensures Itoa(1) == SUPPORTED
  {
    assert Digits(1) == "1";
  }

  lemma PaddedIsDelivered(codec: Codec, d: Delivery)
    requires d.props == map[] && codec.decode(d.body).Some? && codec.decode(d.body).value.fields == PADDED_FIELDS
    requires Dispatch.MessageOk(PADDED_MESSAGE)
    ensures Rejected(d.props) == None && IsDelivered(codec, d, 0, PADDED_MESSAGE)
  {
    NothingReconciled(codec, d);
    hide ReconciledBody, Floor, GateRoute, TrimSpace, Dispatch.MessageOk;
  }

  lemma NothingReconciled(codec: Codec, d: Delivery)
    requires d.props == map[] && codec.decode(d.body).Some? && codec.decode(d.body).value.fields.attempts == 0
    ensures ReconciledBody(codec, d, 0) == d.body && Floor(d.props, 0) == 0
  {
  }

  lemma TrimOne()
    ensures TrimSpace(" u") == "u"
  {
    var s := " u";
    assert SpaceLength(s) == 1 && s[1..] == "u";
    AsciiEndsStay("u");
    assert SpaceLength("u") == 0;
  }
}
