/** The envelopes of the three transports, field by field, and the headers that come out of them. */
module EnvelopeFormat {
  import opened Results
  import opened MetaAttributes
  import opened Payloads
  import opened PubSubClient
  import opened Validators
  import opened WireFormat
  import opened Envelopes

  // Wrapping

  /** The attributes `b` are `a` and, if the payload had to be converted, the marker. */
  ghost predicate MarkedAs(a: Attributes, b: Attributes, converted: bool, encoding: string) {
    && (forall k :: k in b <==> k in a || (converted && k == "hedwig_encoding"))
    && forall k <- b :: b[k] == if converted && k == "hedwig_encoding" then encoding else a[k]
  }

  /** The attributes among these that are options of the publish call. */
  ghost predicate AreOptions(a: Attributes, options: Attributes) {
    && (forall k :: k in options <==> k in a && k in {"ordering_key", "retry", "timeout"})
    && forall k <- options :: options[k] == a[k]
  }

  /** What the transport stores. */
  ghost predicate Envelops(transport: Transport, c: Clients, payload: Payload, a: Attributes, e: Envelope) {
    match transport
    case Redis =>
      && e.StreamEntry? && "hedwig_payload" in e.fields
      && ("hedwig_payload" !in a ==>
            && e.fields["hedwig_payload"] == (if payload.Bytes? then c.toBase64(payload.bytes) else payload.text)
            && MarkedAs(a, e.fields - {"hedwig_payload"}, payload.Bytes?, "base64"))
    case Sqs =>
      && e.SqsMessage?
      && e.body == (if payload.Bytes? then c.toBase64(payload.bytes) else payload.text)
      && (match e.messageAttributes
          case None => a == map[] && payload.Text?
          case Some(b) => MarkedAs(a, b, payload.Bytes?, "base64") && b != map[])
    case PubSub =>
      && e.PubSubMessage?
      && e.data == (if payload.Bytes? then payload.bytes else c.toUtf8(payload.text))
      && exists b :: MarkedAs(a, b, payload.Text?, "utf8") && e.attributes == b - {"ordering_key", "retry", "timeout"}
  }

  lemma MarkedIff(transport: Transport, payload: Payload, a: Attributes, b: Attributes)
    ensures var converted := if transport.PubSub? then payload.Text? else payload.Bytes?;
            b == Marked(transport, payload, a)
            <==> MarkedAs(a, b, converted, if transport.PubSub? then "utf8" else "base64")
  {
    var converted := if transport.PubSub? then payload.Text? else payload.Bytes?;
    if MarkedAs(a, b, converted, if transport.PubSub? then "utf8" else "base64") {
      assert b.Keys == Marked(transport, payload, a).Keys;
    }
  }

  lemma OptionsMarked(payload: Payload, a: Attributes)
    ensures OptionsIn(Marked(PubSub, payload, a)) == OptionsIn(a)
    ensures Marked(PubSub, payload, a).Keys !! TAKEN <==> a.Keys !! TAKEN
  {
    ReservedAreNoParameters();
  }

  /** The call goes through unless an attribute is named like an argument it has already, or the client does not take
      the options; then the envelope is what it should be. */
  lemma WrapMeaning(transport: Transport, c: Clients, payload: Payload, a: Attributes)
    ensures var e := Wrap(transport, c, payload, a);
            && (e.Ok? ==> Envelops(transport, c, payload, a, e.value))
            && (e.Ok? <==> (transport.PubSub? ==>
                              && "self" !in a && "topic" !in a && "data" !in a
                              && exists options :: AreOptions(a, options) && c.takes(options)))
  {
    hide MarkedAs, Marked, AsText, AsBytes;
    var marked := Marked(transport, payload, a);
    MarkedIff(transport, payload, a, marked);
    match transport
    case Redis => EntryFields(c, payload, a);
    case Sqs => SqsFields(c, payload, a);
    case PubSub =>
      OptionsMarked(payload, a);
      OptionsUnique(a);
      PubSubFields(c, payload, a);
      assert a.Keys !! TAKEN <==> "self" !in a && "topic" !in a && "data" !in a;
  }

  lemma EntryFields(c: Clients, payload: Payload, a: Attributes)
    ensures var fields := map["hedwig_payload" := AsText(c, payload)] + Marked(Redis, payload, a);
            Envelops(Redis, c, payload, a, StreamEntry(fields))
  {
    var marked := Marked(Redis, payload, a);
    var fields := map["hedwig_payload" := AsText(c, payload)] + marked;
    EnvelopeNames();
    if "hedwig_payload" !in a {
      assert "hedwig_payload" !in marked;
      assert fields - {"hedwig_payload"} == marked;
    }
  }

  lemma SqsFields(c: Clients, payload: Payload, a: Attributes)
    ensures var marked := Marked(Sqs, payload, a);
            Envelops(Sqs, c, payload, a, SqsMessage(AsText(c, payload), if marked == map[] then None else Some(marked)))
  {
    var marked := Marked(Sqs, payload, a);
    EmptyMap(marked);
    EmptyMap(a);
    assert payload.Bytes? ==> "hedwig_encoding" in marked.Keys;
  }

  lemma PubSubFields(c: Clients, payload: Payload, a: Attributes)
    ensures Envelops(PubSub, c, payload, a, PubSubMessage(AsBytes(c, payload), Marked(PubSub, payload, a) - OPTIONS))
  {
    var marked := Marked(PubSub, payload, a);
    MarkedIff(PubSub, payload, a, marked);
    assert OPTIONS == {"ordering_key", "retry", "timeout"};
  }

  lemma OptionsUnique(a: Attributes)
    ensures AreOptions(a, OptionsIn(a))
    ensures forall options :: AreOptions(a, options) ==> options == OptionsIn(a)
  {
    forall options | AreOptions(a, options) ensures options == OptionsIn(a) {
      assert options.Keys == OptionsIn(a).Keys;
    }
  }

  // Unwrapping

  ghost predicate TextSays(c: Clients, text: string, a: Attributes, payload: Payload) {
    if "hedwig_encoding" in a && a["hedwig_encoding"] == "base64" then
      c.fromBase64(text).Some? && payload == Bytes(c.fromBase64(text).value)
    else payload == Text(text)
  }

  /** The envelope gives this payload and these attributes; Redis takes the marker out of them. */
  ghost predicate Unwraps(c: Clients, e: Envelope, payload: Payload, a: Attributes) {
    match e
    case StreamEntry(fields) =>
      && "hedwig_payload" in fields && TextSays(c, fields["hedwig_payload"], fields, payload)
      && (forall k :: k in a <==> k in fields && k != "hedwig_payload" && k != "hedwig_encoding")
      && forall k <- a :: a[k] == fields[k]
    case SqsMessage(body, messageAttributes) =>
      && a == (if messageAttributes.Some? then messageAttributes.value else map[])
      && TextSays(c, body, a, payload)
    case PubSubMessage(data, attributes) =>
      && a == attributes
      && if "hedwig_encoding" in a && a["hedwig_encoding"] == "utf8" then
           c.fromUtf8(data).Some? && payload == Text(c.fromUtf8(data).value)
         else payload == Bytes(data)
  }

  lemma UnwrapIff(c: Clients, e: Envelope, payload: Payload, a: Attributes)
    ensures Unwrap(c, e) == Ok((payload, a)) <==> Unwraps(c, e, payload, a)
  {
    if e.StreamEntry? && Unwraps(c, e, payload, a) {
      assert a == e.fields - {"hedwig_payload", "hedwig_encoding"};
    }
  }

  /** Consuming, exactly: a queue message comes to the callback as `m` if and only if it is no SQS message without
      attributes, and its payload and attributes are read as `m`. */
  lemma ConsumeIff(v: Validator, c: Clients, e: Envelope, provider: Option<string>, transportAttributes: bool,
                   m: Message)
    ensures Consume(v, c, e, provider, transportAttributes) == Ok(m)
            <==> && (e.SqsMessage? ==> e.messageAttributes.Some?) && m.provider == provider
                 && exists payload, a :: Unwraps(c, e, payload, a) && Reads(v, payload, a, transportAttributes, m)
  {
    hide Unwrap, Unwraps, Deserialize, Reads;
    forall payload, a ensures Unwrap(c, e) == Ok((payload, a)) <==> Unwraps(c, e, payload, a) {
      UnwrapIff(c, e, payload, a);
    }
    forall payload, a ensures Deserialize(v, payload, a, provider, transportAttributes) == Ok(m)
                              <==> m.provider == provider && Reads(v, payload, a, transportAttributes, m) {
      DeserializeIff(v, payload, a, provider, transportAttributes, m);
    }
  }

  // Headers

  /** The headers of what is consumed are those it was sent with, except, from Pub/Sub attributes, those that were
      options of the publish call. */
  lemma HeadersArrive(v: Validator, c: Clients, transport: Transport, transportAttributes: bool, m: Message,
                      provider: Option<string>)
    requires v.Sound() && c.Sound()
    ensures var e := Publishable(v, c, transport, transportAttributes, m);
            e.Ok? ==>
              var back := Consume(v, c, e.value, provider, transportAttributes);
              back.Ok? ==>
                && (forall k :: k in back.value.headers
                                <==> k in m.headers && !(transport.PubSub? && transportAttributes
                                                         && k in {"ordering_key", "retry", "timeout"}))
                && forall k <- back.value.headers :: back.value.headers[k] == m.headers[k]
  {
    hide Serialize, Deserialize, Wrap, Unwrap, Process, LoopAttributes, Validator.Sound, Clients.Sound, IsReserved;
    if Publishable(v, c, transport, transportAttributes, m).Ok? {
      var s := Serialize(v, m, transportAttributes).value;
      SerializedAttributes(v, m, transportAttributes);
      EnvelopeNames();
      ProcessWrapped(v, transport, c, s.0, s.1, provider, transportAttributes);
      if transportAttributes {
        var lost := if transport.PubSub? then OPTIONS else {};
        HeadersAreAttributes(v, s.0, s.1 - lost, provider);
        SerializedHeaders(v, m, true);
        ReservedNames();
      } else {
        SerializedMeaning(v, m, false, provider);
      }
    }
  }

  /** What a publisher's message comes out with, key by key: the instrumentation's header, else the message's own, else
      the default, and no other; again without the options of the publish call. */
  lemma PublishedHeaders(v: Validator, c: Clients, transport: Transport, transportAttributes: bool, m: Message,
                         provider: Option<string>, defaults: Attributes, own: Attributes, instrumentation: Attributes)
    requires v.Sound() && c.Sound() && IsSentWith(m.headers, defaults, own, instrumentation)
    ensures var e := Publishable(v, c, transport, transportAttributes, m);
            e.Ok? ==>
              var back := Consume(v, c, e.value, provider, transportAttributes);
              back.Ok? ==>
                && (forall k :: k in back.value.headers
                                <==> && (k in instrumentation || k in own || k in defaults)
                                     && !(transport.PubSub? && transportAttributes
                                          && k in {"ordering_key", "retry", "timeout"}))
                && forall k <- back.value.headers ::
                     back.value.headers[k] == if k in instrumentation then instrumentation[k]
                                              else if k in own then own[k] else defaults[k]
  {
    hide Publishable, Consume, Validator.Sound, Clients.Sound;
    HeadersArrive(v, c, transport, transportAttributes, m, provider);
  }
}
