/** `_serialize` and `_deserialize`, for the JSON Schema validator and for the protobuf validators. */
module Validators {
  import opened Results
  import opened Decimals
  import opened Versions
  import opened SchemaPointers
  import opened MetaAttributes
  import opened Payloads

  datatype Message = Message(id: string, messageType: string, version: Version, timestamp: int, publisher: string,
                             headers: Attributes, data: Data, provider: Option<string>)

  /** A definition of the application's JSON Schema: its `x-version`, and the documents it accepts. */
  datatype Definition = Definition(xVersion: string, accepts: Json -> bool)

  /** A registered protobuf class. */
  datatype Class = Class(descriptor: string, minorVersion: nat)

  datatype Validator =
    | JsonSchemaValidator(root: string, definitions: map<string, Definition>, text: JsonText)
    | ProtobufValidator(registry: map<(string, nat), Class>, codec: ProtoCodec)
  {
    ghost predicate Sound() {
      match this
      case JsonSchemaValidator(_, _, text) => text.Sound()
      case ProtobufValidator(_, codec) => codec.Sound()
    }

    /** What is written is text, not bytes. */
    predicate WritesText() {
      JsonSchemaValidator? || codec.text
    }

    function Format(): string {
      if JsonSchemaValidator? then JsonFormat(root) else PROTOBUF_FORMAT
    }
  }

  const CURRENT_FORMAT_VERSION := Version(1, 0, 0, Release)

  /** What the extraction hands on: a document, a packed message, or an encoded message. */
  datatype Extracted = Tree(json: Json) | InContainer(packed: Packed) | Encoded(payload: Payload)

  // JSON Schema

  function FindDefinition(v: Validator, messageType: string, major: nat): Result<Definition>
    requires v.JsonSchemaValidator?
  {
    match Render(v.Format(), Values(messageType, Show(major) + ".*"))
    case None => Err(FormatError)
    case Some(pointer) => if pointer in v.definitions then Ok(v.definitions[pointer]) else Err(ValidationError)
  }

  function ContainerTree(m: Meta, data: Json): Json {
    Object(map["format_version" := String(ShowVersion(CURRENT_FORMAT_VERSION)), "schema" := String(m.schema),
               "id" := String(m.id),
               "metadata" := Object(MetadataTree(m)), "data" := data])
  }

  function MetadataTree(m: Meta): map<string, Json> {
    map["timestamp" := Integer(m.timestamp), "publisher" := String(m.publisher),
        "headers" := Object(HeaderTree(m.headers))]
  }

  function HeaderTree(headers: Attributes): map<string, Json> {
    map k | k in headers :: String(headers[k])
  }

  /** Header values that are not strings are refused. */
  function TreeHeaders(fields: map<string, Json>): Result<Attributes> {
    if forall k <- fields :: fields[k].String? then Ok(map k | k in fields :: fields[k].s) else Err(ValidationError)
  }

  function TreeTimestamp(j: Json): Result<int> {
    if j.Integer? then Ok(j.i) else Err(ValidationError)
  }

  /** Reading the container once it has passed its schema: an absent metadata field is a KeyError. */
  function ReadContainerTree(j: Json): Result<(Meta, Json)>
    requires ContainerAccepts(j)
  {
    if !j.Object? then Err(TypeError)
    else
      var metadata := j.fields["metadata"].fields;
      if !({"timestamp", "publisher", "headers"} <= metadata.Keys) then Err(KeyError)
      else
        var timestamp :- TreeTimestamp(metadata["timestamp"]);
        var headers :- TreeHeaders(metadata["headers"].fields);
        Ok((Meta(timestamp, metadata["publisher"].s, headers, j.fields["id"].s, j.fields["schema"].s,
                 CURRENT_FORMAT_VERSION), j.fields["data"]))
  }

  // Extracting and encoding

  function ExtractFromAttributes(attributes: Attributes): Result<Meta> {
    var m :- DecodeMetaAttributes(attributes);
    if m.formatVersion != CURRENT_FORMAT_VERSION then Err(ValidationError) else Ok(m)
  }

  function ExtractData(v: Validator, payload: Payload, attributes: Attributes, transport: bool)
    : Result<(Meta, Extracted)>
  {
    match v
    case JsonSchemaValidator(_, _, text) =>
      if !payload.Text? then Err(AssertionError)
      else
        (match text.loads(payload.text)
         case None => Err(ValidationError)
         case Some(tree) =>
           if transport then
             var m :- ExtractFromAttributes(attributes);
             Ok((m, Tree(tree)))
           else if !ContainerAccepts(tree) then Err(ValidationError)
           else
             var read :- ReadContainerTree(tree);
             Ok((read.0, Tree(read.1))))
    case ProtobufValidator(_, codec) =>
      if transport then
        var m :- ExtractFromAttributes(attributes);
        Ok((m, Encoded(payload)))
      else
        match codec.readContainer(payload)
        case None => Err(ValidationError)
        case Some(c) =>
          Ok((Meta(ToMilliseconds(c.seconds, c.nanos), c.publisher, c.headers, c.id, c.schema, CURRENT_FORMAT_VERSION),
              InContainer(c.data)))
  }

  function DecodeData(v: Validator, schema: string, messageType: string, version: Version, extracted: Extracted)
    : Result<Data>
  {
    match v
    case JsonSchemaValidator(root, _, _) =>
      if !(root <= schema) then Err(ValidationError)
      else
        var definition :- FindDefinition(v, messageType, version.major);
        if extracted.Tree? && definition.accepts(extracted.json) then Ok(Document(extracted.json))
        else Err(ValidationError)
    case ProtobufValidator(registry, codec) =>
      if (messageType, version.major) !in registry then Err(ValidationError)
      else
        var class_ := registry[(messageType, version.major)];
        var message :=
          match extracted
          case Tree(_) => None
          case InContainer(p) => if p.descriptor == class_.descriptor then codec.unpack(p.descriptor, p.value) else None
          case Encoded(payload) => codec.read(class_.descriptor, payload);
        if message.Some? then Ok(Proto(message.value)) else Err(ValidationError)
  }

  function EncodePayload(v: Validator, m: Meta, data: Data, transport: bool): Result<(Payload, Attributes)> {
    match v
    case JsonSchemaValidator(_, _, text) =>
      if !data.Document? then Err(TypeError)
      else if transport then Ok((Text(text.dumps(data.json)), EncodeMetaAttributes(m)))
      else Ok((Text(text.dumps(ContainerTree(m, data.json))), m.headers))
    case ProtobufValidator(_, codec) =>
      if !data.Proto? then Err(AssertionError)
      else if transport then Ok((codec.write(data.message), EncodeMetaAttributes(m)))
      else Ok((codec.writeContainer(Container(codec, m, data.message)), m.headers))
  }

  function Container(codec: ProtoCodec, m: Meta, message: ProtoMessage): PayloadV1 {
    PayloadV1(ShowVersion(CURRENT_FORMAT_VERSION), m.id, m.publisher, Seconds(m.timestamp), Nanos(m.timestamp),
              m.headers,
              m.schema, Packed(message.descriptor, codec.pack(message)))
  }

  /** A minor version above the last known one is refused. */
  function VerifyKnownMinorVersion(v: Validator, messageType: string, version: Version): Result<()> {
    match v
    case JsonSchemaValidator(_, _, _) =>
      var definition :- FindDefinition(v, messageType, version.major);
      (match ParseVersion(definition.xVersion)
       case None => Err(ValueError)
       case Some(known) => Check(version.minor <= known.minor, ValidationError))
    case ProtobufValidator(registry, _) =>
      if (messageType, version.major) !in registry then Err(ValidationError)
      else Check(version.minor <= registry[(messageType, version.major)].minorVersion, ValidationError)
  }

  // The two operations

  function Deserialize(v: Validator, payload: Payload, attributes: Attributes, provider: Option<string>,
                       transport: bool)
    : Result<Message>
  {
    var extracted :- ExtractData(v, payload, attributes, transport);
    var m := extracted.0;
    var _ :- VerifyHeaders(m.headers);
    var typed :- DecodeMessageType(m.schema);
    var data :- DecodeData(v, m.schema, typed.0, typed.1, extracted.1);
    Ok(Message(m.id, typed.0, typed.1, m.timestamp, m.publisher, m.headers, data, provider))
  }

  function MetaOf(m: Message, schema: string): Meta {
    Meta(m.timestamp, m.publisher, m.headers, m.id, schema, CURRENT_FORMAT_VERSION)
  }

  /** The payload is read back before it is returned. */
  function Serialize(v: Validator, m: Message, transport: bool): Result<(Payload, Attributes)> {
    var _ :- VerifyKnownMinorVersion(v, m.messageType, m.version);
    var _ :- VerifyHeaders(m.headers);
    match EncodeMessageType(v.Format(), m.messageType, m.version)
    case None => Err(FormatError)
    case Some(schema) =>
      var encoded :- EncodePayload(v, MetaOf(m, schema), m.data, transport);
      var _ :- Deserialize(v, encoded.0, encoded.1, None, transport);
      Ok(encoded)
  }

  // Reading back

  /** What the encoded payload holds besides the record. */
  function Held(v: Validator, data: Data, transport: bool): Extracted
    requires if v.JsonSchemaValidator? then data.Document? else data.Proto?
  {
    match v
    case JsonSchemaValidator(_, _, _) => Tree(data.json)
    case ProtobufValidator(_, codec) =>
      if transport then Encoded(codec.write(data.message))
      else InContainer(Packed(data.message.descriptor, codec.pack(data.message)))
  }

  /** The data is a message of the class registered for its type. */
  ghost predicate OfItsClass(v: Validator, messageType: string, major: nat, data: Data) {
    v.ProtobufValidator? ==>
      && data.Proto? && (messageType, major) in v.registry
      && v.registry[(messageType, major)].descriptor == data.message.descriptor
  }

  lemma HeaderTreeRoundTrip(headers: Attributes)
    ensures TreeHeaders(HeaderTree(headers)) == Ok(headers)
  {
    var tree := HeaderTree(headers);
    assert (map k | k in tree :: tree[k].s) == headers;
  }

  lemma ContainerFields(m: Meta, data: Json)
    ensures var o := ContainerTree(m, data).fields;
            && {"id", "schema", "format_version", "metadata", "data"} <= o.Keys
            && o["id"] == String(m.id) && o["schema"] == String(m.schema) && o["data"] == data
            && o["metadata"] == Object(MetadataTree(m))
  {
    assert |"id"| == 2 && |"schema"| == 6 && |"format_version"| == 14 && |"metadata"| == 8 && |"data"| == 4;
  }

  lemma MetadataFields(m: Meta)
    ensures var o := MetadataTree(m);
            && {"timestamp", "publisher", "headers"} <= o.Keys && o["timestamp"] == Integer(m.timestamp)
            && o["publisher"] == String(m.publisher) && o["headers"] == Object(HeaderTree(m.headers))
  {
    assert "timestamp"[0] == 't' && "publisher"[0] == 'p' && "headers"[0] == 'h';
  }

  lemma ContainerTreeRead(m: Meta, data: Json)
    requires ContainerAccepts(ContainerTree(m, data)) && m.formatVersion == CURRENT_FORMAT_VERSION
    ensures ReadContainerTree(ContainerTree(m, data)) == Ok((m, data))
  {
    hide ContainerAccepts, HeaderTree, TreeHeaders, MetadataTree;
    HeaderTreeRoundTrip(m.headers);
    ContainerFields(m, data);
    MetadataFields(m);
  }

  /** Extraction recovers the record and what it was encoded with. */
  lemma ExtractEncoded(v: Validator, m: Meta, data: Data, transport: bool)
    requires v.Sound() && NoReserved(m.headers) && m.formatVersion == CURRENT_FORMAT_VERSION
    requires EncodePayload(v, m, data, transport).Ok?
    requires var e := EncodePayload(v, m, data, transport).value; ExtractData(v, e.0, e.1, transport).Ok?
    ensures var e := EncodePayload(v, m, data, transport).value;
            ExtractData(v, e.0, e.1, transport) == Ok((m, Held(v, data, transport)))
  {
    hide DecodeMetaAttributes, EncodeMetaAttributes, ContainerTree, ContainerAccepts, ReadContainerTree, ToMilliseconds,
         Seconds, Nanos;
    if transport {
      MetaRoundTrip(m);
    } else if v.JsonSchemaValidator? {
      ContainerTreeRead(m, data.json);
    } else {
      TimestampRoundTrip(m.timestamp);
    }
  }

  /** Decoding recovers the data if and only if it is of the class registered for the type; a packed message of another
      class is refused. */
  lemma DecodeHeld(v: Validator, schema: string, messageType: string, version: Version, data: Data, transport: bool)
    requires v.Sound() && if v.JsonSchemaValidator? then data.Document? else data.Proto?
    requires DecodeData(v, schema, messageType, version, Held(v, data, transport)).Ok?
    ensures DecodeData(v, schema, messageType, version, Held(v, data, transport)).value == data
            <==> OfItsClass(v, messageType, version.major, data)
    ensures !transport ==> OfItsClass(v, messageType, version.major, data)
  {
    hide FindDefinition;
  }

  /** What `_serialize` returned is accepted by `_deserialize`: it yields the message, with its type from the last slash
      on, and with data that is the original's exactly when that is of the registered class. */
  lemma SerializedMeaning(v: Validator, m: Message, transport: bool, provider: Option<string>)
    requires v.Sound()
    ensures var s := Serialize(v, m, transport);
            s.Ok? ==>
              var back := Deserialize(v, s.value.0, s.value.1, provider, transport);
              var t := LastSegment(m.messageType);
              && back.Ok?
              && back.value == m.(messageType := t, data := back.value.data, provider := provider)
              && (back.value.data == m.data <==> OfItsClass(v, t, m.version.major, m.data))
              && (!transport ==> OfItsClass(v, t, m.version.major, m.data))
  {
    hide ExtractData, EncodePayload, DecodeData, EncodeMessageType, DecodeMessageType, VerifyKnownMinorVersion,
         JsonFormat, OfItsClass, Held, Validator.Sound;
    if Serialize(v, m, transport).Ok? {
      var schema := EncodeMessageType(v.Format(), m.messageType, m.version).value;
      EncodesKind(v, MetaOf(m, schema), m.data, transport);
      ExtractEncoded(v, MetaOf(m, schema), m.data, transport);
      PointerMeaning(v.Format(), m.messageType, m.version);
      DecodeHeld(v, schema, LastSegment(m.messageType), m.version, m.data, transport);
    }
  }

  lemma EncodesKind(v: Validator, m: Meta, data: Data, transport: bool)
    ensures EncodePayload(v, m, data, transport).Ok? <==> if v.JsonSchemaValidator? then data.Document? else data.Proto?
  {
  }

  lemma NotEmpty(schema: string)
    requires DecodeMessageType(schema).Ok?
    ensures schema != ""
  {
  }

  /** Every message that is accepted has a non-empty type without a slash. */
  lemma DeserializedType(v: Validator, payload: Payload, attributes: Attributes, provider: Option<string>,
                         transport: bool)
    ensures var m := Deserialize(v, payload, attributes, provider, transport);
            m.Ok? ==> Segment(m.value.messageType)
  {
    hide ExtractData, DecodeData, Segment;
  }

  /** The round trip of the validators holds for exactly the types without a slash and data of the registered class. */
  lemma SerializeRoundTrip(v: Validator, m: Message, transport: bool, provider: Option<string>)
    requires v.Sound()
    ensures var s := Serialize(v, m, transport);
            s.Ok? ==>
              (Deserialize(v, s.value.0, s.value.1, provider, transport) == Ok(m.(provider := provider))
               <==> '/' !in m.messageType && OfItsClass(v, m.messageType, m.version.major, m.data))
  {
    hide Serialize, Deserialize, OfItsClass;
    SerializedMeaning(v, m, transport, provider);
    var t := m.messageType;
    assert LastSlash(t) < 0 ==> LastSegment(t) == t;
    assert LastSlash(t) >= 0 ==> |LastSegment(t)| < |t|;
  }

  lemma CurrentFormatVersion()
    ensures ShowVersion(CURRENT_FORMAT_VERSION) == "1.0"
  {
    assert Show(1) == "1" && Show(0) == "0";
  }

  /** The container schema asks for a UUID as the id and an object as the data; the rest of a written container is
      always as it should be. */
  lemma ContainerAccepted(m: Meta, data: Json)
    requires m.schema != ""
    ensures ContainerAccepts(ContainerTree(m, data)) <==> IsUuid(m.id) && data.Object?
  {
    hide HeaderTree, MetadataTree, IsUuid, ShowVersion;
    ContainerFields(m, data);
    MetadataFields(m);
    CurrentFormatVersion();
    assert ContainerTree(m, data).fields["format_version"] == String(ShowVersion(CURRENT_FORMAT_VERSION)) by {
      FormatVersionField(m, data);
    }
  }

  lemma FormatVersionField(m: Meta, data: Json)
    ensures ContainerTree(m, data).fields["format_version"] == String(ShowVersion(CURRENT_FORMAT_VERSION))
  {
    assert |"id"| == 2 && |"schema"| == 6 && |"format_version"| == 14 && |"metadata"| == 8 && |"data"| == 4;
  }

  /** What the data needs to be read back under type `t`. A document: the definition accepts it, the pointer starts with
      the schema's id, and in a container the id is a UUID and the document an object. A protobuf message: there is a
      class, in a container it is the message's own, and otherwise what was written parses as it. */
  predicate DataFits(v: Validator, m: Message, t: string, schema: string, transport: bool) {
    match v
    case JsonSchemaValidator(root, _, _) =>
      && m.data.Document? && root <= schema
      && FindDefinition(v, t, m.version.major).Ok?
      && FindDefinition(v, t, m.version.major).value.accepts(m.data.json)
      && (!transport ==> IsUuid(m.id) && m.data.json.Object?)
    case ProtobufValidator(registry, codec) =>
      && m.data.Proto? && (t, m.version.major) in registry
      && var descriptor := registry[(t, m.version.major)].descriptor;
      if transport then codec.read(descriptor, codec.write(m.data.message)).Some?
      else descriptor == m.data.message.descriptor
  }

  /** A message of the class registered for the type always fits. */
  lemma OwnClassFits(v: Validator, m: Message, schema: string, transport: bool)
    requires v.Sound() && v.ProtobufValidator? && OfItsClass(v, m.messageType, m.version.major, m.data)
    ensures DataFits(v, m, m.messageType, schema, transport)
  {
  }

  lemma ReadBack(v: Validator, m: Message, t: string, schema: string, transport: bool)
    requires v.Sound() && NoReserved(m.headers) && EncodePayload(v, MetaOf(m, schema), m.data, transport).Ok?
    requires schema != "" && DecodeMessageType(schema) == Ok((t, m.version))
    ensures var e := EncodePayload(v, MetaOf(m, schema), m.data, transport).value;
            Deserialize(v, e.0, e.1, None, transport).Ok? <==> DataFits(v, m, t, schema, transport)
  {
    hide DecodeMessageType, FindDefinition, DecodeMetaAttributes, EncodeMetaAttributes, ContainerTree, ContainerAccepts,
         ReadContainerTree, IsUuid, ToMilliseconds, Seconds, Nanos;
    MetaRoundTrip(MetaOf(m, schema));
    TimestampRoundTrip(m.timestamp);
    EncodesKind(v, MetaOf(m, schema), m.data, transport);
    if v.JsonSchemaValidator? {
      ContainerAccepted(MetaOf(m, schema), m.data.json);
      if !transport && ContainerAccepts(ContainerTree(MetaOf(m, schema), m.data.json)) {
        ContainerTreeRead(MetaOf(m, schema), m.data.json);
      }
    }
  }

  /** Which messages can be published: those with a type that does not end in a slash, a known minor version, no header
      in the reserved name space, and data that fits the type the pointer gives back. */
  lemma SerializesIff(v: Validator, m: Message, transport: bool)
    requires v.Sound()
    ensures var schema := EncodeMessageType(v.Format(), m.messageType, m.version);
            var t := LastSegment(m.messageType);
            Serialize(v, m, transport).Ok?
            <==> && t != "" && NoReserved(m.headers) && schema.Some?
                 && VerifyKnownMinorVersion(v, m.messageType, m.version).Ok?
                 && DataFits(v, m, t, schema.value, transport)
  {
    hide Deserialize, EncodeMessageType, DecodeMessageType, VerifyKnownMinorVersion, JsonFormat, Validator.Sound,
         DataFits, EncodePayload, LastSlash, LastSegment;
    var schema := EncodeMessageType(v.Format(), m.messageType, m.version);
    var t := LastSegment(m.messageType);
    if Serialize(v, m, transport).Ok? {
      SerializedMeaning(v, m, transport, None);
      var s := Serialize(v, m, transport).value;
      DeserializedType(v, s.0, s.1, None, transport);
    }
    if schema.Some? {
      EncodesKind(v, MetaOf(m, schema.value), m.data, transport);
      FitsKind(v, m, t, schema.value, transport);
      PointerMeaning(v.Format(), m.messageType, m.version);
      if t != "" && NoReserved(m.headers) && EncodePayload(v, MetaOf(m, schema.value), m.data, transport).Ok? {
        NotEmpty(schema.value);
        ReadBack(v, m, t, schema.value, transport);
      }
    }
  }

  lemma FitsKind(v: Validator, m: Message, t: string, schema: string, transport: bool)
    ensures DataFits(v, m, t, schema, transport) ==> if v.JsonSchemaValidator? then m.data.Document? else m.data.Proto?
  {
  }

  lemma WholeSegment(t: string)
    requires '/' !in t
    ensures LastSegment(t) == t
  {
  }

  /** With two registered types of which one is the other behind a slash, a message of the longer type is published
      and arrives as a message of the shorter. */
  lemma SlashedTypeArrivesAsAnother(codec: ProtoCodec, class_: Class, m: Message, provider: Option<string>)
    requires codec.Sound() && NoReserved(m.headers)
    requires m.messageType == "trip/created" && m.data.Proto? && m.data.message.descriptor == class_.descriptor
    requires m.version.major == 1 && m.version.minor <= class_.minorVersion
    ensures var v := ProtobufValidator(map[("trip/created", 1) := class_, ("created", 1) := class_], codec);
            var s := Serialize(v, m, true);
            && s.Ok?
            && Deserialize(v, s.value.0, s.value.1, provider, true)
               == Ok(m.(messageType := "created", provider := provider))
  {
    hide EncodeMessageType, DecodeMessageType, DecodeMetaAttributes, EncodeMetaAttributes, ShowVersion, IsReserved;
    var v := ProtobufValidator(map[("trip/created", 1) := class_, ("created", 1) := class_], codec);
    ProtobufPointer(m.messageType, m.version);
    var schema := EncodeMessageType(PROTOBUF_FORMAT, m.messageType, m.version).value;
    PointerMeaning(PROTOBUF_FORMAT, m.messageType, m.version);
    assert m.messageType[4] == '/' && LastSlash(m.messageType) == 4 && LastSegment(m.messageType) == "created";
    MetaRoundTrip(MetaOf(m, schema));
    assert DecodeData(v, schema, "created", m.version, Encoded(codec.write(m.data.message))) == Ok(m.data);
  }

  /** What is written is text for the validators that write text. */
  lemma SerializedKind(v: Validator, m: Message, transport: bool)
    requires v.Sound()
    ensures var s := Serialize(v, m, transport); s.Ok? ==> (s.value.0.Text? <==> v.WritesText())
  {
    hide Deserialize, EncodeMessageType, VerifyKnownMinorVersion, Container;
  }

  /** The two wire formats agree: a message that serializes both ways is decoded to the same message. */
  lemma BothFormatsAgree(v: Validator, m: Message, provider: Option<string>)
    requires v.Sound()
    ensures var t := Serialize(v, m, true);
            var c := Serialize(v, m, false);
            t.Ok? && c.Ok? ==>
              && Deserialize(v, t.value.0, t.value.1, provider, true).Ok?
              && Deserialize(v, t.value.0, t.value.1, provider, true)
                 == Deserialize(v, c.value.0, c.value.1, provider, false)
              && c.value.1 == m.headers
  {
    hide OfItsClass, Deserialize, EncodeMessageType, VerifyKnownMinorVersion;
    SerializedMeaning(v, m, true, provider);
    SerializedMeaning(v, m, false, provider);
  }
}
