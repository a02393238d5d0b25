/**
  The consumer runtime of app.go: what one delivery makes the App ask of its transport. The results of
  the calls (handler, publish, ack, ...) are parameters, so every statement holds for all of them.
 */
module Dispatch {
  import opened AsciiSpace

  const MAX_INT: int := 0x7FFF_FFFF_FFFF_FFFF
  const MIN_INT: int := -0x8000_0000_0000_0000
  const GATE_PREFIX: string := "babelqueue:unsupported-schema-version:"

  /** Unknown-URN strategies; any other string behaves as Fail. */
  datatype Strategy = Fail | Delete | Release | DeadLetter

  datatype Config = Config(strategy: Strategy, maxAttempts: int, deadLetter: bool, handlers: set<string>)

  /** The optional transport capabilities the App looks for. */
  datatype Capabilities = Capabilities(releaser: bool, deadLetterer: bool, rewinder: bool, native: bool)

  /** What Decode makes of the body; a decoded job is never blank. */
  datatype Body = Envelope(job: string, attempts: int) | NoIdentity(attempts: int) | Undecodable

  datatype Message = Message(body: Body, routeURN: string, deliveryCount: int, poison: bool)

  datatype ReleaseResult = Released | Unsupported | ReleaseFailed

  /** The results of the calls one dispatch may make. */
  datatype Outcome = Outcome(
    handler: bool, ack: bool, release: ReleaseResult, encode: bool, publish: bool,
    deadLetter: bool, rewind: bool, native: bool)

  datatype Queue = Own | Dlq

  /** What a written copy carries: the body as it came, an envelope with a new attempts, or a record. */
  datatype Payload = SameBody | WithAttempts(n: int) | DeadLetterRecord

  datatype Event =
    | Handled(ok: bool)
    | Acked(ok: bool)
    | ReleasedInPlace(result: ReleaseResult)
    | Published(queue: Queue, payload: Payload, ok: bool)
    | GatedDeadLetter(payload: Payload, ok: bool)
    | NativeSettle(ok: bool)
    | Rewound(ok: bool)

  predicate IsInt(n: int) { MIN_INT <= n <= MAX_INT }

  /** The counters are Go ints, and a decoded job is not blank. */
  predicate MessageOk(m: Message) {
    && IsInt(m.deliveryCount)
    && (m.body.Envelope? ==> !IsBlank(m.body.job))
    && (!m.body.Undecodable? ==> IsInt(m.body.attempts))
  }

  /** env.Attempts++ on a 64-bit int. */
  function Increment(n: int): (r: int)
    requires IsInt(n)
    ensures IsInt(r)
  {
    if n == MAX_INT then MIN_INT else n + 1
  }

  /** deliveryCount - 1, which wraps at the other end. */
  function Decrement(n: int): (r: int)
    requires IsInt(n)
    ensures IsInt(r)
  {
    if n == MIN_INT then MAX_INT else n - 1
  }

  function BodyAttempts(b: Body): int { if b.Undecodable? then 0 else b.attempts }

  /** The broker's delivery count is a floor for the envelope's attempts. */
  function Attempts(m: Message): (a: int)
    requires MessageOk(m)
    ensures IsInt(a)
  {
    var floor := Decrement(m.deliveryCount);
    if floor > BodyAttempts(m.body) then floor else BodyAttempts(m.body)
  }

  // ---------- What is decided ----------

  /** What becomes of a delivery, before any transport call is made. */
  datatype Action =
    | Finish                          // the handler returned nil
    | Drop                            // a configured drop
    | ToDeadLetter(payload: Payload, encoded: bool)
    | Retry(n: int)                   // again, with attempts n
    | Requeue                         // again, unchanged (an unknown URN under Release)
    | LeaveNative                     // the broker's own mechanism

  predicate IsGated(m: Message) { GATE_PREFIX <= m.routeURN }

  /** The URN a handler is looked up by; "" when the body cannot be used. */
  function Urn(m: Message): string {
    match m.body
    case Undecodable => ""
    case NoIdentity(_) => m.routeURN
    case Envelope(job, _) => if m.routeURN != "" then m.routeURN else job
  }

  /** Decode failed, and no routing override stands in for the missing identity. */
  predicate DecodeFailed(m: Message) { m.body.Undecodable? || (m.body.NoIdentity? && m.routeURN == "") }

  /** A dead-letter record may be written for a delivery no handler can take. */
  predicate WritesDeadLetters(c: Config) { c.deadLetter || c.strategy.DeadLetter? }

  function RetryOrDeadLetter(c: Config, a: int): Action
    requires IsInt(a)
  {
    var n := Increment(a);
    if n < c.maxAttempts then Retry(n) else if c.deadLetter then ToDeadLetter(DeadLetterRecord, true) else Drop
  }

  function Plan(c: Config, t: Capabilities, m: Message, handlerOk: bool): Action
    requires MessageOk(m)
  {
    if IsGated(m) then
      if c.strategy.Delete? then Drop
      else if WritesDeadLetters(c) then ToDeadLetter(SameBody, false)
      else if t.native then LeaveNative else Drop
    else if m.poison then ToDeadLetter(DeadLetterRecord, true)
    else if DecodeFailed(m) || IsBlank(Urn(m)) then
      if c.strategy.Delete? then Drop
      else if WritesDeadLetters(c) && DecodeFailed(m) then ToDeadLetter(DeadLetterRecord, true)
      else if !WritesDeadLetters(c) && t.native then LeaveNative
      else if c.strategy.DeadLetter? then ToDeadLetter(DeadLetterRecord, true)
      else RetryOrDeadLetter(c, Attempts(m))
    else if Urn(m) in c.handlers then
      if handlerOk then Finish else RetryOrDeadLetter(c, Attempts(m))
    else
      match c.strategy
      case Delete => Drop
      case Release => Requeue
      case DeadLetter => ToDeadLetter(DeadLetterRecord, true)
      case Fail => RetryOrDeadLetter(c, Attempts(m))
  }

  predicate RunsHandler(c: Config, m: Message) {
    !IsGated(m) && !m.poison && !DecodeFailed(m) && !IsBlank(Urn(m)) && Urn(m) in c.handlers
  }

  /** A retry re-encodes the envelope; of an undecodable body nothing but the counter is left. */
  function Rewritten(b: Body, p: Payload): Body {
    match p
    case WithAttempts(n) => if b.Envelope? then Envelope(b.job, n) else NoIdentity(n)
    case _ => b
  }

  // ---------- What is called ----------

  function Unsettled(t: Capabilities, o: Outcome): seq<Event> { if t.rewinder then [Rewound(o.rewind)] else [] }

  /** Write a copy, then ack; without the copy no ack. */
  function WriteThenAck(t: Capabilities, q: Queue, p: Payload, o: Outcome): seq<Event> {
    [Published(q, p, o.publish)] + if o.publish then [Acked(o.ack)] else Unsettled(t, o)
  }

  function Perform(t: Capabilities, a: Action, o: Outcome): seq<Event> {
    match a
    case Finish => [Acked(o.ack)]
    case Drop => [Acked(o.ack)]
    case LeaveNative => [NativeSettle(o.native)]
    case ToDeadLetter(p, encoded) =>
      if encoded && !o.encode then Unsettled(t, o)
      else if t.deadLetterer then
        [GatedDeadLetter(p, o.deadLetter)] + if o.deadLetter then [] else Unsettled(t, o)
      else WriteThenAck(t, Dlq, p, o)
    case Retry(n) =>
      (if t.releaser then [ReleasedInPlace(o.release)] else [])
      + if t.releaser && !o.release.Unsupported? then []
        else if !o.encode then Unsettled(t, o)
        else WriteThenAck(t, Own, WithAttempts(n), o)
    case Requeue =>
      (if t.releaser then [ReleasedInPlace(o.release)] else [])
      + if t.releaser && !o.release.Unsupported? then [] else WriteThenAck(t, Own, SameBody, o)
  }

  /** The whole trace of one dispatch. */
  function Trace(c: Config, t: Capabilities, m: Message, o: Outcome): seq<Event>
    requires MessageOk(m)
  {
    (if RunsHandler(c, m) then [Handled(o.handler)] else []) + Perform(t, Plan(c, t, m, o.handler), o)
  }

  lemma Joined(a: seq<Event>, b: seq<Event>, c: seq<Event>)
    ensures (a + b) + c == a + (b + c)
  {
  }

  lemma HandlerTrace(c: Config, t: Capabilities, m: Message, o: Outcome)
    requires MessageOk(m) && RunsHandler(c, m)
    ensures Trace(c, t, m, o) ==
      [Handled(o.handler)]
      + if o.handler then [Acked(o.ack)] else Perform(t, RetryOrDeadLetter(c, Attempts(m)), o)
  {
    assert o.handler ==> Perform(t, Finish, o) == [Acked(o.ack)];
    hide Perform, RetryOrDeadLetter, IsBlank, Attempts;
  }

  // ---------- The App, call by call ----------

  class App {
    const cfg: Config
    const caps: Capabilities
    /** Every call made so far, with its result. */
    var log: seq<Event>

    constructor (cfg: Config, caps: Capabilities)
      ensures this.cfg == cfg && this.caps == caps && log == []
    {
      this.cfg, this.caps, log := cfg, caps, [];
    }

    method Call(e: Event)
      modifies this
      ensures log == old(log) + [e]
    {
      log := log + [e];
    }

    method LeaveUnsettled(o: Outcome)
      modifies this
      ensures log == old(log) + Unsettled(caps, o)
    {
      if caps.rewinder {
        Call(Rewound(o.rewind));
      }
    }

    /** settleNative: false when the transport has no native mechanism. */
    method SettleNative(o: Outcome) returns (done: bool)
      modifies this
      ensures done == caps.native
      ensures log == old(log) + if caps.native then [NativeSettle(o.native)] else []
    {
      if !caps.native {
        return false;
      }
      Call(NativeSettle(o.native));
      return true;
    }

    /** release: false when the caller has to re-publish and ack instead. */
    method Release(o: Outcome) returns (handled: bool)
      modifies this
      ensures handled <==> caps.releaser && !o.release.Unsupported?
      ensures log == old(log) + if caps.releaser then [ReleasedInPlace(o.release)] else []
    {
      if !caps.releaser {
        return false;
      }
      Call(ReleasedInPlace(o.release));
      return !o.release.Unsupported?;
    }

    /** deadLetterRaw and what its callers do with the result. */
    method DeadLetterRaw(p: Payload, o: Outcome)
      modifies this
      ensures log == old(log) + Perform(caps, ToDeadLetter(p, false), o)
    {
      var settled, ok;
      if caps.deadLetterer {
        Call(GatedDeadLetter(p, o.deadLetter));
        settled, ok := true, o.deadLetter;
      } else {
        Call(Published(Dlq, p, o.publish));
        settled, ok := false, o.publish;
      }
      if !ok {
        LeaveUnsettled(o);
      } else if !settled {
        Call(Acked(o.ack));
      }
    }

    /** deadLetterMessage and settleRawPoison: the record is encoded first. */
    method DeadLetterRecorded(o: Outcome)
      modifies this
      ensures log == old(log) + Perform(caps, ToDeadLetter(DeadLetterRecord, true), o)
    {
      if !o.encode {
        LeaveUnsettled(o);
        return;
      }
      DeadLetterRaw(DeadLetterRecord, o);
    }

    method RetryOrDeadLetterMessage(attempts: int, o: Outcome)
      requires IsInt(attempts)
      modifies this
      ensures log == old(log) + Perform(caps, RetryOrDeadLetter(cfg, attempts), o)
    {
      var n := Increment(attempts);
      if n < cfg.maxAttempts {
        var handled := Release(o);
        if handled {
          return;
        }
        if !o.encode {
          LeaveUnsettled(o);
          return;
        }
        Call(Published(Own, WithAttempts(n), o.publish));
        if !o.publish {
          LeaveUnsettled(o);
          return;
        }
        Call(Acked(o.ack));
        return;
      }
      if cfg.deadLetter {
        DeadLetterRecorded(o);
        return;
      }
      Call(Acked(o.ack));
    }

    method RouteUnknown(attempts: int, o: Outcome)
      requires IsInt(attempts)
      modifies this
      ensures log == old(log) + Perform(caps,
        (match cfg.strategy
         case Delete => Drop
         case Release => Requeue
         case DeadLetter => ToDeadLetter(DeadLetterRecord, true)
         case Fail => RetryOrDeadLetter(cfg, attempts)), o)
    {
      match cfg.strategy
      case Delete => Call(Acked(o.ack));
      case Release =>
        var handled := Release(o);
        if handled {
          return;
        }
        Call(Published(Own, SameBody, o.publish));
        if !o.publish {
          LeaveUnsettled(o);
          return;
        }
        Call(Acked(o.ack));
      case DeadLetter => DeadLetterRecorded(o);
      case Fail => RetryOrDeadLetterMessage(attempts, o);
    }

    method SettleVersionGated(m: Message, o: Outcome)
      requires MessageOk(m) && IsGated(m)
      modifies this
      ensures log == old(log) + Perform(caps, Plan(cfg, caps, m, o.handler), o)
    {
      if cfg.strategy.Delete? {
        Call(Acked(o.ack));
        return;
      }
      if !cfg.deadLetter && !cfg.strategy.DeadLetter? {
        var done := SettleNative(o);
        if !done {
          Call(Acked(o.ack));
        }
        return;
      }
      DeadLetterRaw(SameBody, o);
    }

    method RoutePoison(m: Message, o: Outcome)
      requires MessageOk(m) && !IsGated(m) && !m.poison && (DecodeFailed(m) || IsBlank(Urn(m)))
      modifies this
      ensures log == old(log) + Perform(caps, Plan(cfg, caps, m, o.handler), o)
    {
      if DecodeFailed(m) && !cfg.strategy.Delete? && (cfg.deadLetter || cfg.strategy.DeadLetter?) {
        DeadLetterRecorded(o);
        return;
      }
      if !cfg.strategy.Delete? && !cfg.deadLetter && !cfg.strategy.DeadLetter? {
        var done := SettleNative(o);
        if done {
          return;
        }
      }
      if !cfg.strategy.Release? {
        RouteUnknown(Attempts(m), o);
        return;
      }
      RetryOrDeadLetterMessage(Attempts(m), o);
    }

    method RunHandler(m: Message, o: Outcome)
      requires MessageOk(m) && RunsHandler(cfg, m)
      modifies this
      ensures log == old(log) + Trace(cfg, caps, m, o)
    {
      hide *;
      HandlerTrace(cfg, caps, m, o);
      Joined(log, [Handled(o.handler)],
        if o.handler then [Acked(o.ack)] else Perform(caps, RetryOrDeadLetter(cfg, Attempts(m)), o));
      Call(Handled(o.handler));
      if !o.handler {
        RetryOrDeadLetterMessage(Attempts(m), o);
        return;
      }
      Call(Acked(o.ack));
    }

    /** dispatch. */
    method Dispatch(m: Message, o: Outcome)
      requires MessageOk(m)
      modifies this
      ensures log == old(log) + Trace(cfg, caps, m, o)
    {
      hide Perform, RetryOrDeadLetter, IsBlank, Attempts;
      if IsGated(m) {
        SettleVersionGated(m, o);
        return;
      }
      if m.poison {
        DeadLetterRecorded(o);
        return;
      }
      if DecodeFailed(m) || IsBlank(Urn(m)) {
        RoutePoison(m, o);
        return;
      }
      if Urn(m) !in cfg.handlers {
        RouteUnknown(Attempts(m), o);
        return;
      }
      RunHandler(m, o);
    }
  }
}
