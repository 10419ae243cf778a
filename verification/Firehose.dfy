/** `serialize_firehose` and `deserialize_firehose`: the container as one line of text, whatever the minor version. */
module Firehose {
  import opened Results
  import opened SchemaPointers
  import opened MetaAttributes
  import opened Payloads
  import opened Validators
  import opened WireFormat

  /** The protobuf type that carries the data of unknown minor versions. */
  const VALUE := "google.protobuf.Value"

  /** The container as JSON text, a string as a Value, and base64. */
  datatype LineCodec = LineCodec(toLine: PayloadV1 -> string, fromLine: string -> Option<PayloadV1>,
                                 toValue: string -> seq<byte>, fromValue: seq<byte> -> Option<string>,
                                 toBase64: seq<byte> -> string, fromBase64: string -> Option<seq<byte>>) {
    ghost predicate Sound() {
      && (forall c: PayloadV1 :: fromLine(toLine(c)) == Some(c))
      && (forall s: string :: fromValue(toValue(s)) == Some(s))
      && (forall b: seq<byte> :: fromBase64(toBase64(b)) == Some(b))
    }
  }

  /** The validator that encodes messages in protobuf's binary format: packing is encoding. */
  ghost predicate IsBinary(codec: ProtoCodec) {
    forall m: ProtoMessage :: codec.write(m) == Bytes(codec.pack(m))
  }

  function EncodeFirehose(v: Validator, f: LineCodec, m: Message, schema: string): Result<string> {
    match v
    case JsonSchemaValidator(_, _, text) =>
      if !m.data.Document? then Err(TypeError)
      else Ok(text.dumps(ContainerTree(MetaOf(m, schema), m.data.json)))
    case ProtobufValidator(_, codec) =>
      if !m.data.Proto? then Err(AssertionError)
      else
        var c := Container(codec, MetaOf(m, schema), m.data.message);
        if VerifyKnownMinorVersion(v, m.messageType, m.version).Ok? then Ok(f.toLine(c))
        else Ok(f.toLine(c.(data := Packed(VALUE, f.toValue(f.toBase64(codec.pack(m.data.message)))))))
  }

  function ExtractFirehose(v: Validator, f: LineCodec, line: string): Result<(Meta, Extracted)> {
    match v
    case JsonSchemaValidator(_, _, _) => ExtractData(v, Text(line), map[], false)
    case ProtobufValidator(_, _) =>
      match f.fromLine(line)
      case None => Err(ValidationError)
      case Some(c) =>
        var m := Meta(ToMilliseconds(c.seconds, c.nanos), c.publisher, c.headers, c.id, c.schema,
                      CURRENT_FORMAT_VERSION);
        if c.data.descriptor != VALUE then Ok((m, InContainer(c.data)))
        else
          match f.fromValue(c.data.value)
          case None => Err(AssertionError)
          case Some(s) =>
            match f.fromBase64(s)
            case None => Err(ValueError)
            case Some(b) => Ok((m, Encoded(Bytes(b))))
  }

  /** Neither the headers nor the minor version is checked. */
  function DeserializeFirehose(v: Validator, f: LineCodec, line: string): Result<Message> {
    var extracted :- ExtractFirehose(v, f, line);
    var m := extracted.0;
    var typed :- DecodeMessageType(m.schema);
    var data :- DecodeData(v, m.schema, typed.0, typed.1, extracted.1);
    Ok(Message(m.id, typed.0, typed.1, m.timestamp, m.publisher, m.headers, data, None))
  }

  function SerializeFirehose(v: Validator, f: LineCodec, m: Message): Result<string> {
    match EncodeMessageType(v.Format(), m.messageType, m.version)
    case None => Err(FormatError)
    case Some(schema) =>
      var line :- EncodeFirehose(v, f, m, schema);
      var _ :- DeserializeFirehose(v, f, line);
      Ok(line)
  }

  /** What is in the line besides the record. */
  function HeldInLine(v: Validator, m: Message): Extracted
    requires if v.JsonSchemaValidator? then m.data.Document? else m.data.Proto?
  {
    if v.ProtobufValidator? && VerifyKnownMinorVersion(v, m.messageType, m.version).Err? then
      Encoded(Bytes(v.codec.pack(m.data.message)))
    else Held(v, m.data, false)
  }

  lemma ExtractLine(v: Validator, f: LineCodec, m: Message, schema: string)
    requires v.Sound() && f.Sound() && EncodeFirehose(v, f, m, schema).Ok?
    requires m.data.Proto? ==> m.data.message.descriptor != VALUE
    requires ExtractFirehose(v, f, EncodeFirehose(v, f, m, schema).value).Ok? || v.ProtobufValidator?
    ensures if v.JsonSchemaValidator? then m.data.Document? else m.data.Proto?
    ensures ExtractFirehose(v, f, EncodeFirehose(v, f, m, schema).value) == Ok((MetaOf(m, schema), HeldInLine(v, m)))
  {
    hide ContainerTree, ContainerAccepts, ReadContainerTree, ToMilliseconds, Seconds, Nanos, VerifyKnownMinorVersion;
    TimestampRoundTrip(m.timestamp);
    if v.JsonSchemaValidator? {
      ContainerTreeRead(MetaOf(m, schema), m.data.json);
    }
  }

  lemma DecodeLine(v: Validator, m: Message, schema: string)
    requires v.Sound() && (v.ProtobufValidator? ==> IsBinary(v.codec))
    requires if v.JsonSchemaValidator? then m.data.Document? else m.data.Proto?
    requires OfItsClass(v, m.messageType, m.version.major, m.data)
    ensures var d := DecodeData(v, schema, m.messageType, m.version, HeldInLine(v, m));
            && (d.Ok? ==> d.value == m.data)
            && (v.ProtobufValidator? ==> d.Ok?)
  {
    hide FindDefinition, VerifyKnownMinorVersion;
  }

  /** A line that was written reads back as the message, with its type and data, for a type without a slash and data of
      the class registered for it; unknown minor versions and reserved header names included. */
  lemma FirehoseRoundTrip(v: Validator, f: LineCodec, m: Message)
    requires v.Sound() && f.Sound() && (v.ProtobufValidator? ==> IsBinary(v.codec))
    requires '/' !in m.messageType && OfItsClass(v, m.messageType, m.version.major, m.data)
    requires m.data.Proto? ==> m.data.message.descriptor != VALUE
    ensures var line := SerializeFirehose(v, f, m);
            line.Ok? ==> DeserializeFirehose(v, f, line.value) == Ok(m.(provider := None))
  {
    hide ExtractFirehose, EncodeFirehose, DecodeData, EncodeMessageType, DecodeMessageType, JsonFormat, HeldInLine,
         OfItsClass, Validator.Sound, LineCodec.Sound, IsBinary, LastSlash;
    if SerializeFirehose(v, f, m).Ok? {
      var schema := EncodeMessageType(v.Format(), m.messageType, m.version).value;
      ExtractLine(v, f, m, schema);
      PointerMeaning(v.Format(), m.messageType, m.version);
      PointerRoundTrip(v.Format(), m.messageType, m.version);
      DecodeLine(v, m, schema);
    }
  }

  /** The protobuf validator writes a line for every such message, known minor version or not. */
  lemma FirehoseWritesAll(v: Validator, f: LineCodec, m: Message)
    requires v.ProtobufValidator? && v.Sound() && f.Sound() && IsBinary(v.codec)
    requires '/' !in m.messageType && m.messageType != "" && OfItsClass(v, m.messageType, m.version.major, m.data)
    requires m.data.message.descriptor != VALUE
    ensures SerializeFirehose(v, f, m).Ok?
  {
    hide ExtractFirehose, EncodeFirehose, DecodeData, EncodeMessageType, DecodeMessageType, HeldInLine,
         Validator.Sound, LineCodec.Sound, IsBinary;
    ProtobufPointer(m.messageType, m.version);
    var schema := EncodeMessageType(PROTOBUF_FORMAT, m.messageType, m.version).value;
    EncodesLine(v, f, m, schema);
    ExtractLine(v, f, m, schema);
    PointerRoundTrip(PROTOBUF_FORMAT, m.messageType, m.version);
    DecodeLine(v, m, schema);
  }

  lemma EncodesLine(v: Validator, f: LineCodec, m: Message, schema: string)
    requires v.ProtobufValidator? && m.data.Proto?
    ensures EncodeFirehose(v, f, m, schema).Ok?
  {
  }

  /** The line says `r` and gives `e`: a container whose data is a Value is read as base64 of the encoded message. */
  ghost predicate LineSays(v: Validator, f: LineCodec, line: string, r: Meta, e: Extracted) {
    match v
    case JsonSchemaValidator(_, _, _) => Extracts(v, Text(line), map[], false, r, e)
    case ProtobufValidator(_, _) =>
      && f.fromLine(line).Some?
      && var c := f.fromLine(line).value;
      && ContainerSays(c, r)
      && if c.data.descriptor != "google.protobuf.Value" then e == InContainer(c.data)
         else
           && f.fromValue(c.data.value).Some?
           && var text := f.fromValue(c.data.value).value;
           f.fromBase64(text).Some? && e == Encoded(Bytes(f.fromBase64(text).value))
  }

  /** Reading a line, exactly; unlike the reading of messages it takes headers of every name. */
  ghost predicate ReadsLine(v: Validator, f: LineCodec, line: string, m: Message) {
    exists r, e ::
      && LineSays(v, f, line, r, e) && PointsTo(r.schema, m.messageType, m.version)
      && DataSays(v, r.schema, m.messageType, m.version.major, e, m.data)
      && m.id == r.id && m.timestamp == r.timestamp && m.publisher == r.publisher && m.headers == r.headers
  }

  lemma LineIff(v: Validator, f: LineCodec, line: string, r: Meta, e: Extracted)
    ensures ExtractFirehose(v, f, line) == Ok((r, e)) <==> LineSays(v, f, line, r, e)
  {
    hide ExtractData, Extracts, RoundTowardZero;
    if v.JsonSchemaValidator? { ExtractsIff(v, Text(line), map[], false, r, e); }
  }

  lemma DeserializeFirehoseIff(v: Validator, f: LineCodec, line: string, m: Message)
    ensures DeserializeFirehose(v, f, line) == Ok(m) <==> m.provider == None && ReadsLine(v, f, line, m)
  {
    hide ExtractFirehose, DecodeData, DecodeMessageType, LineSays, DataSays, PointsTo;
    forall r, e ensures ExtractFirehose(v, f, line) == Ok((r, e)) <==> LineSays(v, f, line, r, e) {
      LineIff(v, f, line, r, e);
    }
    forall schema, t, version ensures DecodeMessageType(schema) == Ok((t, version)) <==> PointsTo(schema, t, version) {
      PointsToIff(schema, t, version);
    }
    forall schema, e ensures DecodeData(v, schema, m.messageType, m.version, e) == Ok(m.data)
                             <==> DataSays(v, schema, m.messageType, m.version.major, e, m.data) {
      DataIff(v, schema, m.messageType, m.version, e, m.data);
    }
  }

  /** What is in a line: the container, with the data of a known minor version packed as it is, and that of an unknown
      one encoded, as base64, in a Value. */
  lemma FirehoseOnTheWire(v: Validator, f: LineCodec, m: Message)
    ensures var line := SerializeFirehose(v, f, m);
            line.Ok? ==>
              var schema := EncodeMessageType(v.Format(), m.messageType, m.version);
              && schema.Some?
              && match v
                 case JsonSchemaValidator(_, _, text) =>
                   && m.data.Document?
                   && exists j :: line.value == text.dumps(j) && TreeWrites(j, m, schema.value, m.data.json)
                 case ProtobufValidator(_, codec) =>
                   && m.data.Proto?
                   && var known := Packed(m.data.message.descriptor, codec.pack(m.data.message));
                   var unknown := Packed("google.protobuf.Value", f.toValue(f.toBase64(codec.pack(m.data.message))));
                   exists c :: line.value == f.toLine(c)
                               && ContainerWrites(c, m, schema.value, if KnowsMinor(v, m.messageType, m.version)
                                                  then known
                                                                      else unknown)
  {
    hide DeserializeFirehose, EncodeMessageType, VerifyKnownMinorVersion, TreeWrites, ContainerTree, KnowsMinor,
        Seconds,
         Nanos;
    if SerializeFirehose(v, f, m).Ok? {
      var schema := EncodeMessageType(v.Format(), m.messageType, m.version).value;
      KnowsMinorIff(v, m.messageType, m.version);
      if v.JsonSchemaValidator? {
        TreeIsWritten(m, schema);
      } else {
        ContainerIsWritten(v.codec, m, schema);
      }
    }
  }
}
