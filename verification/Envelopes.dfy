/** Publishing and consuming: the transports' envelopes around what the validators write. */
module Envelopes {
  import opened Results
  import opened Versions
  import opened SchemaPointers
  import opened MetaAttributes
  import opened Payloads
  import opened PubSubClient
  import opened Validators

  /** Base64 with line breaks, as in section 6.8 of RFC 2045, UTF-8, and whether the Pub/Sub client goes through with a
      publish that has these options. */
  datatype Clients = Clients(toBase64: seq<byte> -> string, fromBase64: string -> Option<seq<byte>>,
                             toUtf8: string -> seq<byte>, fromUtf8: seq<byte> -> Option<string>,
                             takes: Attributes -> bool) {
    ghost predicate Sound() {
      && (forall b :: fromBase64(toBase64(b)) == Some(b))
      && (forall s :: fromUtf8(toUtf8(s)) == Some(s))
      && takes(map[])
    }
  }

  datatype Transport = Redis | Sqs | PubSub

  /** A message as the transport stores it. SQS has no attribute map at all where there are no attributes. */
  datatype Envelope =
    | StreamEntry(fields: map<string, string>)
    | SqsMessage(body: string, messageAttributes: Option<Attributes>)
    | PubSubMessage(data: seq<byte>, attributes: Attributes)

  const ENCODING := "hedwig_encoding"
  const PAYLOAD := "hedwig_payload"

  function AsText(c: Clients, payload: Payload): string {
    match payload
    case Bytes(b) => c.toBase64(b)
    case Text(t) => t
  }

  function AsBytes(c: Clients, payload: Payload): seq<byte> {
    match payload
    case Bytes(b) => b
    case Text(t) => c.toUtf8(t)
  }

  /** Redis and SQS carry text, Pub/Sub carries bytes; a payload of the other kind is converted, and marked. */
  function Marked(transport: Transport, payload: Payload, attributes: Attributes): Attributes {
    if transport.PubSub? then (if payload.Text? then attributes[ENCODING := "utf8"] else attributes)
    else if payload.Bytes? then attributes[ENCODING := "base64"]
    else attributes
  }

  /** `_publish`. The Pub/Sub client is called with the attributes as keyword arguments. */
  function Wrap(transport: Transport, c: Clients, payload: Payload, attributes: Attributes): Result<Envelope> {
    var marked := Marked(transport, payload, attributes);
    match transport
    case Redis => Ok(StreamEntry(map[PAYLOAD := AsText(c, payload)] + marked))
    case Sqs => Ok(SqsMessage(AsText(c, payload), if marked == map[] then None else Some(marked)))
    case PubSub =>
      if !(marked.Keys !! TAKEN) then Err(TypeError)
      else if !c.takes(OptionsIn(marked)) then Err(ValueError)
      else Ok(PubSubMessage(AsBytes(c, payload), marked - OPTIONS))
  }

  function FromText(c: Clients, text: string, attributes: Attributes): Result<Payload> {
    if ENCODING in attributes && attributes[ENCODING] == "base64" then
      match c.fromBase64(text)
      case None => Err(ValueError)
      case Some(b) => Ok(Bytes(b))
    else Ok(Text(text))
  }

  /** The first half of `process_message`: Redis takes the marker out of the attributes, the others leave it in. */
  function Unwrap(c: Clients, e: Envelope): Result<(Payload, Attributes)> {
    match e
    case StreamEntry(fields) =>
      if PAYLOAD !in fields then Err(KeyError)
      else
        var payload :- FromText(c, fields[PAYLOAD], fields);
        Ok((payload, fields - {PAYLOAD, ENCODING}))
    case SqsMessage(body, messageAttributes) =>
      var attributes := if messageAttributes.Some? then messageAttributes.value else map[];
      var payload :- FromText(c, body, attributes);
      Ok((payload, attributes))
    case PubSubMessage(data, attributes) =>
      if ENCODING in attributes && attributes[ENCODING] == "utf8" then
        (match c.fromUtf8(data)
         case None => Err(ValueError)
         case Some(t) => Ok((Text(t), attributes)))
      else Ok((Bytes(data), attributes))
  }

  /** `message_attributes`, which the loop calls for every message before anything else. The SQS backend does not expect
      a message without attributes. */
  function LoopAttributes(e: Envelope): Result<Attributes> {
    match e
    case StreamEntry(fields) => Ok(fields)
    case SqsMessage(_, messageAttributes) =>
      (match messageAttributes
       case None => Err(AttributeError)
       case Some(attributes) => Ok(attributes))
    case PubSubMessage(_, attributes) => Ok(attributes)
  }

  /** `process_message` up to the message that is handed to the callback. */
  function Process(v: Validator, c: Clients, e: Envelope, provider: Option<string>, transportAttributes: bool)
    : Result<Message>
  {
    var unwrapped :- Unwrap(c, e);
    Deserialize(v, unwrapped.0, unwrapped.1, provider, transportAttributes)
  }

  /** What becomes of a queue message in the loop. */
  function Consume(v: Validator, c: Clients, e: Envelope, provider: Option<string>, transportAttributes: bool)
    : Result<Message>
  {
    var _ :- LoopAttributes(e);
    Process(v, c, e, provider, transportAttributes)
  }

  /** The headers a message is sent with: those of the instrumentation override the message's own, which override the
      defaults. */
  ghost predicate IsSentWith(sent: Attributes, defaults: Attributes, own: Attributes, instrumentation: Attributes) {
    && (forall k :: k in sent <==> k in instrumentation || k in own || k in defaults)
    && forall k <- sent ::
         sent[k] == if k in instrumentation then instrumentation[k] else if k in own then own[k] else defaults[k]
  }

  function Publishable(v: Validator, c: Clients, transport: Transport, transportAttributes: bool, m: Message)
    : Result<Envelope>
  {
    var s :- Serialize(v, m, transportAttributes);
    Wrap(transport, c, s.0, s.1)
  }

  /** A publisher and the messages it has sent. */
  class Publisher {
    const v: Validator
    const c: Clients
    const transport: Transport
    const transportAttributes: bool
    var sent: seq<Envelope>

    constructor (v: Validator, c: Clients, transport: Transport, transportAttributes: bool)
      ensures this.v == v && this.c == c && this.transport == transport
      ensures this.transportAttributes == transportAttributes && sent == []
    {
      this.v, this.c, this.transport, this.transportAttributes, sent := v, c, transport, transportAttributes, [];
    }

    /** Sends the message with its final headers, or raises and sends nothing. */
    method Publish(message: Message, defaults: Attributes, instrumentation: Attributes)
      returns (r: Result<()>, ghost headers: Attributes)
      modifies this
      ensures IsSentWith(headers, defaults, message.headers, instrumentation)
      ensures var e := Publishable(v, c, transport, transportAttributes, message.(headers := headers));
              && r == (if e.Ok? then Ok(()) else Err(e.error))
              && sent == old(sent) + if e.Ok? then [e.value] else []
    {
      hide Serialize, Wrap;
      var m := message;
      if defaults != map[] {
        m := m.(headers := defaults + m.headers);
      }
      m := m.(headers := m.headers + instrumentation);
      headers := m.headers;
      var s := Serialize(v, m, transportAttributes);
      if s.Err? {
        r := Err(s.error);
        return;
      }
      var e := Wrap(transport, c, s.value.0, s.value.1);
      if e.Err? {
        r := Err(e.error);
        return;
      }
      sent := sent + [e.value];
      r := Ok(());
    }
  }

  lemma EnvelopeNames()
    ensures IsReserved(ENCODING) && IsReserved(PAYLOAD) && ENCODING != PAYLOAD
    ensures {ENCODING, PAYLOAD} !! {FORMAT_VERSION, ID, TIMESTAMP, PUBLISHER, SCHEMA}
  {
    assert |ENCODING| == 15 && |PAYLOAD| == 14;
    assert |FORMAT_VERSION| == 21 && |ID| == 9 && |TIMESTAMP| == 24 && |PUBLISHER| == 16 && |SCHEMA| == 13;
  }

  lemma ReservedAreNoParameters()
    ensures {FORMAT_VERSION, ID, TIMESTAMP, PUBLISHER, SCHEMA, ENCODING} !! TAKEN + OPTIONS
  {
    assert forall k <- TAKEN + OPTIONS :: k[0] != 'h';
  }

  /** The attributes `_serialize` hands to the transport. */
  lemma SerializedAttributes(v: Validator, m: Message, transportAttributes: bool)
    ensures var s := Serialize(v, m, transportAttributes);
            s.Ok? ==>
              && NoReserved(m.headers)
              && s.value.1.Keys
                 == m.headers.Keys
                    + if transportAttributes then {FORMAT_VERSION, ID, TIMESTAMP, PUBLISHER, SCHEMA} else {}
  {
    hide Deserialize, EncodeMessageType, VerifyKnownMinorVersion, EncodeMetaAttributes, IsReserved;
    if Serialize(v, m, transportAttributes).Ok? {
      EncodedParts(MetaOf(m, EncodeMessageType(v.Format(), m.messageType, m.version).value));
    }
  }

  /** Every envelope gives back its payload. The attributes come back with at most the marker added, and from Pub/Sub
      without those that were options of the call. */
  lemma UnwrapWrap(transport: Transport, c: Clients, payload: Payload, attributes: Attributes)
    requires c.Sound() && ENCODING !in attributes && PAYLOAD !in attributes
    requires Wrap(transport, c, payload, attributes).Ok?
    ensures var back := Unwrap(c, Wrap(transport, c, payload, attributes).value);
            && back.Ok? && back.value.0 == payload
            && back.value.1 == (match transport
                                case Redis => attributes
                                case Sqs => Marked(transport, payload, attributes)
                                case PubSub => Marked(transport, payload, attributes) - OPTIONS)
  {
    EnvelopeNames();
    ReservedAreNoParameters();
    var marked := Marked(transport, payload, attributes);
    if transport.Redis? {
      var fields := map[PAYLOAD := AsText(c, payload)] + marked;
      assert fields - {PAYLOAD, ENCODING} == attributes;
    }
  }

  /** The marker makes no difference to the validator. */
  lemma MarkerIgnored(v: Validator, payload: Payload, attributes: Attributes, encoding: string,
                      provider: Option<string>,
                      transportAttributes: bool)
    ensures Deserialize(v, payload, attributes[ENCODING := encoding], provider, transportAttributes)
            == Deserialize(v, payload, attributes, provider, transportAttributes)
  {
    hide DecodeMetaAttributes, DecodeData, DecodeMessageType, ReadContainerTree;
    EnvelopeNames();
    OtherReservedIgnored(attributes, map[ENCODING := encoding]);
    assert attributes + map[ENCODING := encoding] == attributes[ENCODING := encoding];
  }

  /** An SQS message without any attribute: no transport attributes, no headers, and a validator whose payloads need no
      marker. */
  predicate Bare(v: Validator, transport: Transport, transportAttributes: bool, m: Message) {
    transport.Sqs? && !transportAttributes && m.headers == map[] && v.WritesText()
  }

  /** Headers that travel as Pub/Sub attributes, one of them named like an option of the client's publish. */
  predicate LosesHeaders(transport: Transport, transportAttributes: bool, m: Message) {
    transport.PubSub? && transportAttributes && !(m.headers.Keys !! OPTIONS)
  }

  /** The loop gets at the attributes of what was published unless it is a bare SQS message. */
  lemma AttributesIff(v: Validator, c: Clients, transport: Transport, transportAttributes: bool, m: Message)
    requires v.Sound()
    ensures var e := Publishable(v, c, transport, transportAttributes, m);
            e.Ok? ==>
              (LoopAttributes(e.value).Ok?
               <==> !Bare(v, transport, transportAttributes, m))
  {
    hide Serialize, Validator.Sound, Validator.WritesText;
    SerializedAttributes(v, m, transportAttributes);
    SerializedKind(v, m, transportAttributes);
    if Serialize(v, m, transportAttributes).Ok? {
      var s := Serialize(v, m, transportAttributes).value;
      EmptyMap(s.1);
      EmptyMap(m.headers);
      EmptyMap(Marked(transport, s.0, s.1));
      if transportAttributes { assert ID in s.1.Keys; }
      assert s.0.Bytes? && transport.Sqs? ==> ENCODING in Marked(transport, s.0, s.1).Keys;
    }
  }

  lemma EmptyMap(a: Attributes)
    ensures a == map[] <==> a.Keys == {}
  {
    if a.Keys == {} { assert a == map[]; }
  }

  /** In a container the attributes are not read. */
  lemma ContainerIgnoresAttributes(v: Validator, payload: Payload, a: Attributes, b: Attributes,
                                   provider: Option<string>)
    ensures Deserialize(v, payload, a, provider, false) == Deserialize(v, payload, b, provider, false)
  {
    hide DecodeData, DecodeMessageType, ReadContainerTree;
  }

  /** The headers of an accepted message are the attributes outside the reserved name space. */
  lemma HeadersAreAttributes(v: Validator, payload: Payload, a: Attributes, provider: Option<string>)
    ensures var m := Deserialize(v, payload, a, provider, true); m.Ok? ==> m.value.headers == HeadersOf(a)
  {
    hide DecodeData, DecodeMessageType, ReadContainerTree, ParseVersion, HeadersOf;
  }

  lemma AfterMarking(v: Validator, transport: Transport, payload: Payload, a: Attributes, provider: Option<string>,
                     transportAttributes: bool)
    ensures Deserialize(v, payload, Marked(transport, payload, a), provider, transportAttributes)
            == Deserialize(v, payload, a, provider, transportAttributes)
  {
    hide Deserialize;
    MarkerIgnored(v, payload, a, "utf8", provider, transportAttributes);
    MarkerIgnored(v, payload, a, "base64", provider, transportAttributes);
  }

  /** What processing makes of the envelope of a payload. */
  lemma ProcessWrapped(v: Validator, transport: Transport, c: Clients, payload: Payload, a: Attributes,
                       provider: Option<string>, transportAttributes: bool)
    requires c.Sound() && ENCODING !in a && PAYLOAD !in a && Wrap(transport, c, payload, a).Ok?
    ensures var e := Wrap(transport, c, payload, a).value;
            var lost := if transport.PubSub? then OPTIONS else {};
            Process(v, c, e, provider, transportAttributes)
            == if transportAttributes then Deserialize(v, payload, a - lost, provider, true)
               else Deserialize(v, payload, a, provider, false)
  {
    hide Deserialize, Wrap, Unwrap, OPTIONS;
    UnwrapWrap(transport, c, payload, a);
    AfterMarking(v, transport, payload, a, provider, transportAttributes);
    ReservedAreNoParameters();
    if transport.PubSub? {
      AfterMarking(v, transport, payload, a - OPTIONS, provider, transportAttributes);
      MarkedWithout(payload, a);
      ContainerIgnoresAttributes(v, payload, Marked(transport, payload, a) - OPTIONS, a, provider);
    } else {
      assert a - {} == a;
    }
  }

  lemma MarkedWithout(payload: Payload, a: Attributes)
    ensures Marked(PubSub, payload, a) - OPTIONS == Marked(PubSub, payload, a - OPTIONS)
  {
    ReservedAreNoParameters();
  }

  /** What is published comes back, with the same id, type, version, timestamp, publisher and data and the headers it
      was sent with. It does for exactly the types without a slash and data of the class registered for the type, unless
      it is a bare SQS message, at which the loop raises, or a header was taken for an option of the Pub/Sub client. */
  lemma EndToEnd(v: Validator, c: Clients, transport: Transport, transportAttributes: bool, m: Message,
                 provider: Option<string>)
    requires v.Sound() && c.Sound()
    ensures var e := Publishable(v, c, transport, transportAttributes, m);
            e.Ok? ==>
              (Consume(v, c, e.value, provider, transportAttributes) == Ok(m.(provider := provider))
               <==> && '/' !in m.messageType && OfItsClass(v, m.messageType, m.version.major, m.data)
                    && !Bare(v, transport, transportAttributes, m)
                    && !LosesHeaders(transport, transportAttributes, m))
  {
    hide Serialize, Deserialize, OfItsClass, Wrap, Unwrap, Process, Bare, LoopAttributes, OPTIONS, Validator.Sound,
         Clients.Sound;
    if Publishable(v, c, transport, transportAttributes, m).Ok? {
      var s := Serialize(v, m, transportAttributes).value;
      SerializedAttributes(v, m, transportAttributes);
      EnvelopeNames();
      AttributesIff(v, c, transport, transportAttributes, m);
      ProcessWrapped(v, transport, c, s.0, s.1, provider, transportAttributes);
      SerializeRoundTrip(v, m, transportAttributes, provider);
      if LosesHeaders(transport, transportAttributes, m) {
        HeadersAreAttributes(v, s.0, s.1 - OPTIONS, provider);
        Lost(m.headers, s.1);
      } else if transportAttributes {
        NothingLost(m.headers, s.1, if transport.PubSub? then OPTIONS else {});
      }
    }
  }

  lemma Lost(headers: Attributes, a: Attributes)
    requires !(headers.Keys !! OPTIONS)
    ensures HeadersOf(a - OPTIONS) != headers
  {
    var k :| k in headers && k in OPTIONS;
    assert k !in HeadersOf(a - OPTIONS);
  }

  lemma NothingLost(headers: Attributes, a: Attributes, lost: set<string>)
    requires a.Keys == headers.Keys + {FORMAT_VERSION, ID, TIMESTAMP, PUBLISHER, SCHEMA}
    requires headers.Keys !! lost && lost <= OPTIONS
    ensures a - lost == a
  {
    ReservedAreNoParameters();
    assert a.Keys !! lost;
  }

  /** What the transport adds to the conditions for publishing: nothing for Redis and SQS; for Pub/Sub that no header is
      named like a parameter the call fills already, and that the client goes through with the options it is given. */
  lemma PublishableIff(v: Validator, c: Clients, transport: Transport, transportAttributes: bool, m: Message)
    ensures Publishable(v, c, transport, transportAttributes, m).Ok?
            <==> && Serialize(v, m, transportAttributes).Ok?
                 && (transport.PubSub? ==> m.headers.Keys !! TAKEN && c.takes(OptionsIn(m.headers)))
  {
    hide Serialize, IsReserved, OptionsIn;
    ReservedAreNoParameters();
    if Serialize(v, m, transportAttributes).Ok? {
      SerializedAttributes(v, m, transportAttributes);
      var s := Serialize(v, m, transportAttributes).value;
      var marked := Marked(transport, s.0, s.1);
      assert marked.Keys == s.1.Keys || marked.Keys == s.1.Keys + {ENCODING};
      SerializedHeaders(v, m, transportAttributes);
      SameOptions(m.headers, marked);
    }
  }

  /** The headers are among the attributes, with their values. */
  lemma SerializedHeaders(v: Validator, m: Message, transportAttributes: bool)
    ensures var s := Serialize(v, m, transportAttributes);
            s.Ok? ==> forall k <- m.headers :: k in s.value.1 && s.value.1[k] == m.headers[k]
  {
    hide Deserialize, EncodeMessageType, VerifyKnownMinorVersion;
  }

  lemma SameOptions(headers: Attributes, a: Attributes)
    requires forall k <- headers :: k in a && (k in OPTIONS ==> a[k] == headers[k])
    requires forall k <- a :: k in OPTIONS ==> k in headers
    ensures OptionsIn(a) == OptionsIn(headers)
  {
  }
}
