/** Messages that are published and do not arrive as they were, and what the consumer loop makes of them. */
module WireFailures {
  import opened Results
  import opened Versions
  import opened SchemaPointers
  import opened MetaAttributes
  import opened Payloads
  import opened PubSubClient
  import opened Validators
  import opened Envelopes
  import opened SampleCodecs
  import Loop = ConsumerLoop
  import Runs = ConsumerLoopRuns

  // Data of another class

  /** A registry with one class. */
  ghost function Trips(descriptor: string): Validator {
    ProtobufValidator(map[("trip", 1) := Class(descriptor, 0)], SampleProto())
  }

  /** A message of the registered type, without headers. */
  predicate IsTrip(m: Message) {
    m.messageType == "trip" && m.version.major == 1 && m.version.minor == 0 && NoReserved(m.headers)
  }

  lemma TripPointer(m: Message)
    requires IsTrip(m)
    ensures var pointer := EncodeMessageType(PROTOBUF_FORMAT, "trip", m.version);
            pointer.Some? && DecodeMessageType(pointer.value) == Ok(("trip", m.version))
  {
    hide DecodeMessageType, EncodeMessageType;
    ProtobufPointer("trip", m.version);
    PointerRoundTrip(PROTOBUF_FORMAT, "trip", m.version);
    assert '/' !in "trip";
  }

  /** In the transport attributes format, data of any class is published under the registered type, and arrives as data
      of the registered class. */
  lemma OtherClassArrives(descriptor: string, m: Message, provider: Option<string>)
    requires IsTrip(m) && m.data.Proto? && m.data.message.descriptor != descriptor
    ensures var v := Trips(descriptor);
            var s := Serialize(v, m, true);
            var arrives := m.(data := Proto(m.data.message.(descriptor := descriptor)), provider := provider);
            && s.Ok?
            && Deserialize(v, s.value.0, s.value.1, provider, true) == Ok(arrives)
            && arrives.data != m.data
  {
    hide DecodeMessageType, EncodeMessageType, DecodeMetaAttributes, EncodeMetaAttributes, NoReserved, SampleProto;
    var v := Trips(descriptor);
    TripPointer(m);
    var schema := EncodeMessageType(PROTOBUF_FORMAT, "trip", m.version).value;
    MetaRoundTrip(MetaOf(m, schema));
    SampleReadsAny(m.data.message, descriptor);
    assert DecodeData(v, schema, "trip", m.version, Encoded(v.codec.write(m.data.message)))
        == Ok(Proto(m.data.message.(descriptor := descriptor)));
  }

  lemma SampleReadsAny(m: ProtoMessage, descriptor: string)
    ensures SampleProto().read(descriptor, SampleProto().write(m)) == Some(m.(descriptor := descriptor))
  {
  }

  // A header that is an option

  /** In the transport attributes format, with a client that takes it, a header `ordering_key` does not arrive. */
  lemma OptionHeaderIsLost(m: Message, provider: Option<string>)
    requires IsTrip(m) && m.data.Proto? && m.headers == map["ordering_key" := ""]
    ensures var v := Trips(m.data.message.descriptor);
            var c := SampleClients(_ => true);
            var e := Publishable(v, c, PubSub, true, m);
            && e.Ok?
            && Consume(v, c, e.value, provider, true) != Ok(m.(provider := provider))
  {
    hide Serialize, Wrap, Deserialize, Unwrap, Validator.Sound, Clients.Sound, SampleProto;
    var v := Trips(m.data.message.descriptor);
    var c := SampleClients(_ => true);
    SampleProtoSound();
    SampleClientsSound(_ => true);
    TripsSound(m.data.message.descriptor);
    TripSerializes(m);
    PublishableIff(v, c, PubSub, true, m);
    KeyIsOption(m.headers);
    EndToEnd(v, c, PubSub, true, m, provider);
  }

  lemma TripsSound(descriptor: string)
    ensures Trips(descriptor).Sound()
  {
    hide SampleProto, ProtoCodec.Sound;
    SampleProtoSound();
  }

  lemma TripFits(m: Message, schema: string)
    requires IsTrip(m) && m.data.Proto?
    ensures var v := Trips(m.data.message.descriptor);
            && VerifyKnownMinorVersion(v, m.messageType, m.version).Ok?
            && DataFits(v, m, "trip", schema, true)
  {
    hide SampleProto, NoReserved, DataFits, Validator.Sound;
    TripsSound(m.data.message.descriptor);
    OwnClassFits(Trips(m.data.message.descriptor), m, schema, true);
  }

  lemma TripSerializes(m: Message)
    requires IsTrip(m) && m.data.Proto?
    ensures Serialize(Trips(m.data.message.descriptor), m, true).Ok?
  {
    hide Serialize, EncodeMessageType, VerifyKnownMinorVersion, Validator.Sound, SampleProto, NoReserved, DataFits,
         LastSegment;
    var v := Trips(m.data.message.descriptor);
    TripsSound(m.data.message.descriptor);
    TripPointer(m);
    assert '/' !in "trip";
    WholeSegment("trip");
    TripFits(m, EncodeMessageType(PROTOBUF_FORMAT, "trip", m.version).value);
    SerializesIff(v, m, true);
  }

  lemma KeyIsOption(headers: Attributes)
    requires headers == map["ordering_key" := ""]
    ensures !(headers.Keys !! OPTIONS) && headers.Keys !! TAKEN
  {
    assert "ordering_key" in headers && "ordering_key" in OPTIONS;
    assert |"ordering_key"| == 12 && |"self"| == 4 && |"topic"| == 5 && |"data"| == 4;
  }

  // A bare SQS message

  /** An application schema with one definition, which accepts every document. */
  ghost function TripSchema(): Validator {
    JsonSchemaValidator("", map["#/schemas/trip/1.*" := Definition("1.0", _ => true)], SampleJson())
  }

  lemma TripDefinition()
    ensures FindDefinition(TripSchema(), "trip", 1) == Ok(TripSchema().definitions["#/schemas/trip/1.*"])
  {
    hide Render;
    var values := Values("trip", "1.*");
    RenderTypeAndVersion("trip", "1.*");
    RenderLiteral("#/schemas/", TYPE_AND_VERSION, values);
    assert Decimals.Show(1) == "1" && Decimals.Show(1) + ".*" == "1.*";
    assert JsonFormat("") == "#/schemas/" + TYPE_AND_VERSION;
    assert "#/schemas/" + ("trip" + ("/" + "1.*")) == "#/schemas/trip/1.*";
  }

  lemma TripDocumentSerializes(m: Message)
    requires IsTrip(m) && IsUuid(m.id) && m.data.Document? && m.data.json.Object?
    ensures Serialize(TripSchema(), m, false).Ok? && Serialize(TripSchema(), m, false).value.0.Text?
  {
    hide EncodeMessageType, Deserialize, Serialize, SampleJson, NoReserved, FindDefinition, IsUuid, ContainerTree,
         JsonText.Sound, VerifyKnownMinorVersion, LastSegment;
    var v := TripSchema();
    SampleJsonSound();
    TripDefinition();
    TripVersionKnown(m);
    JsonPointer("", m.messageType, m.version);
    NoRoot(Values(m.messageType, ShowVersion(m.version)));
    assert '/' !in "trip";
    WholeSegment("trip");
    SerializesIff(v, m, false);
    SerializedKind(v, m, false);
  }

  lemma TripVersionKnown(m: Message)
    requires IsTrip(m)
    ensures VerifyKnownMinorVersion(TripSchema(), m.messageType, m.version).Ok?
  {
    hide FindDefinition, ParseVersion, NoReserved, SampleJson;
    TripDefinition();
    KnownTrip();
  }

  lemma NoRoot(values: map<string, string>)
    ensures Render("", values).Some?
  {
  }

  lemma KnownTrip()
    ensures ParseVersion("1.0") == Some(Version(1, 0, 0, Release))
  {
    CurrentFormatVersion();
    VersionRoundTrip(CURRENT_FORMAT_VERSION);
  }

  /** A document published in a container, without headers, over SQS: processing it would give the message back, but the
      loop raises before that. */
  lemma BareMessageRaises(takes: Attributes -> bool, m: Message, provider: Option<string>)
    requires IsTrip(m) && IsUuid(m.id) && m.data.Document? && m.data.json.Object? && m.headers == map[] && takes(map[])
    ensures var v := TripSchema();
            var c := SampleClients(takes);
            var e := Publishable(v, c, Sqs, false, m);
            && e.Ok?
            && Process(v, c, e.value, provider, false) == Ok(m.(provider := provider))
            && Consume(v, c, e.value, provider, false) == Err(AttributeError)
  {
    hide Serialize, Deserialize, Unwrap, SampleJson, SampleClients, JsonText.Sound, Clients.Sound, NoReserved, IsUuid;
    var v := TripSchema();
    var c := SampleClients(takes);
    SampleJsonSound();
    SampleClientsSound(takes);
    TripDocumentSerializes(m);
    SerializedAttributes(v, m, false);
    var s := Serialize(v, m, false).value;
    EmptyMap(s.1);
    EnvelopeNames();
    ProcessWrapped(v, Sqs, c, s.0, s.1, provider, false);
    SerializeRoundTrip(v, m, false, provider);
    assert '/' !in "trip";
    AttributesIff(v, c, Sqs, false, m);
  }

  // In the loop

  /** The messages the loop sees are these, as published. */
  ghost predicate Carries(events: seq<Loop.Event>, v: Validator, c: Clients, transport: Transport,
                          transportAttributes: bool,
                          ms: seq<Message>)
  {
    var ds := Runs.Seen(events);
    && |ds| == |ms|
    && forall i | 0 <= i < |ms| ::
         var e := Publishable(v, c, transport, transportAttributes, ms[i]);
         e.Ok? && (ds[i].decodes <==> LoopAttributes(e.value).Ok?)
  }

  /** In any run over published messages, every message received is acked or nacked if and only if none of them is a
      bare SQS message. */
  lemma AllPublishedDisposedIff(cfg: Loop.Settings, events: seq<Loop.Event>, v: Validator, c: Clients,
                                transport: Transport,
                                transportAttributes: bool, ms: seq<Message>)
    requires v.Sound() && Carries(events, v, c, transport, transportAttributes, ms)
    ensures var t := Loop.Run(cfg, Loop.INITIAL, events);
            |Runs.Dispositions(t.log)| == t.received
            <==> forall i | 0 <= i < |ms| :: !Bare(v, transport, transportAttributes, ms[i])
  {
    hide Serialize, Publishable, Bare, LoopAttributes, Validator.Sound, Loop.Run, Runs.Dispositions, Runs.Seen;
    Runs.AllDisposedIff(cfg, events);
    forall i | 0 <= i < |ms|
      ensures Runs.Seen(events)[i].decodes <==> !Bare(v, transport, transportAttributes, ms[i])
    {
      AttributesIff(v, c, transport, transportAttributes, ms[i]);
    }
    assert forall d <- Runs.Seen(events) :: exists i :: 0 <= i < |ms| && d == Runs.Seen(events)[i];
  }
}
