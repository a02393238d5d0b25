/** The copies of Redrive, written and read by the codec of the library. */
module RedriveCopies {
  import opened Wrappers
  import opened Redrive
  import EnvelopeDecode
  import EnvelopeEncode
  import EnvelopeText

  /** Decode and Encode as they are modelled. */
  ghost predicate IsLibrary(codec: Codec, canon: EnvelopeDecode.Canon) {
    && (forall body {:trigger codec.decode(body)} ::
          codec.decode(body) == match EnvelopeDecode.DecodeBody(canon, body) case Ok(e) => Some(e) case _ => None)
    && (forall e {:trigger codec.encode(e)} :: EnvelopeText.Storable(e) ==>
          codec.encode(e) == EnvelopeText.Encoded(e))
  }

  /** What is written for a drained message is its identical body on the DLQ; or a copy that reads back as the message
      without its dead_letter and with no attempts, up to white space in carried raw values, on the queue it goes to. */
  lemma ResetCopyReadsBack(codec: Codec, canon: EnvelopeDecode.Canon, o: Options, t: Capabilities, dlq: string,
      body: string, c: Call)
    requires IsLibrary(codec, canon) && EnvelopeEncode.CanonOk(canon)
    requires c.Wrote? && Faithful(codec, o, t, dlq, body, c)
    ensures (c.queue == dlq && c.body == body && !c.bypass)
      || (&& codec.decode(body).Some? && GoesTo(o, codec.decode(body).value, c.queue)
          && exists copy | IsReset(codec.decode(body).value, copy) ::
            codec.decode(c.body) == Some(EnvelopeEncode.AsWritten(copy)))
  {
    hide EnvelopeDecode.DecodeBody, EnvelopeText.Encoded, EnvelopeEncode.EncodeBody, EnvelopeEncode.AsWritten,
      EnvelopeEncode.CanonOk;
    if !(c.queue == dlq && c.body == body && !c.bypass) {
      var e := codec.decode(body).value;
      var copy :| IsReset(e, copy) && codec.encode(copy) == Some(c.body);
      assert copy == Cleared(e);
      EnvelopeEncode.DecodesCanonically(canon, body);
      ClearedIsCanonical(canon, e);
      EnvelopeText.TextEncodes(copy);
      EnvelopeEncode.RoundTrip(canon, copy);
    }
    hide EnvelopeEncode.Canonical;
  }

  lemma ClearedIsCanonical(canon: EnvelopeDecode.Canon, e: Envelope)
    requires EnvelopeEncode.Canonical(canon, e)
    ensures EnvelopeEncode.Canonical(canon, Cleared(e)) && EnvelopeEncode.Encodable(Cleared(e))
    ensures EnvelopeText.TextOk(Cleared(e)) && EnvelopeText.Storable(Cleared(e))
  {
  }
}
