/** The wire format field by field: what every kind of payload says when it is read, and what is in it when it is
written. */
module WireFormat {
  import opened Results
  import opened Decimals
  import opened Versions
  import opened SchemaPointers
  import opened MetaAttributes
  import opened Payloads
  import opened Validators

  // Reading: the record

  /** The transport attributes say `r`. Whatever else is in the reserved name space is not read. */
  ghost predicate AttributesSay(a: Attributes, r: Meta) {
    && "hedwig_format_version" in a && "hedwig_id" in a && "hedwig_message_timestamp" in a && "hedwig_publisher" in a
    && "hedwig_schema" in a
    && ParseVersion(a["hedwig_format_version"]) == Some(Version(1, 0, 0, Release))
    && r.formatVersion == Version(1, 0, 0, Release)
    && r.id == a["hedwig_id"] && Some(r.timestamp) == ParseInt(a["hedwig_message_timestamp"])
    && r.publisher == a["hedwig_publisher"] && r.schema == a["hedwig_schema"]
    && (forall k :: k in r.headers <==> k in a && !("hedwig_" <= k))
    && forall k <- r.headers :: r.headers[k] == a[k]
  }

  lemma AttributesIff(a: Attributes, r: Meta)
    ensures ExtractFromAttributes(a) == Ok(r) <==> AttributesSay(a, r)
  {
    hide ParseInt, ParseVersion;
    assert {FORMAT_VERSION, ID, TIMESTAMP, PUBLISHER, SCHEMA} <= a.Keys
      <==> FORMAT_VERSION in a && ID in a && TIMESTAMP in a && PUBLISHER in a && SCHEMA in a;
    if AttributesSay(a, r) {
      assert r.headers == HeadersOf(a);
    }
  }

  /** The JSON container says `r` and `data`. */
  ghost predicate TreeSays(j: Json, r: Meta, data: Json) {
    && j.Object?
    && "id" in j.fields && j.fields["id"] == String(r.id) && IsUuid(r.id)
    && "schema" in j.fields && j.fields["schema"] == String(r.schema) && r.schema != ""
    && "format_version" in j.fields && j.fields["format_version"] == String("1.0")
    && r.formatVersion == Version(1, 0, 0, Release)
    && "data" in j.fields && j.fields["data"] == data && data.Object?
    && "metadata" in j.fields && j.fields["metadata"].Object?
    && MetadataSays(j.fields["metadata"].fields, r)
  }

  ghost predicate MetadataSays(metadata: map<string, Json>, r: Meta) {
    && "timestamp" in metadata && metadata["timestamp"] == Integer(r.timestamp)
    && "publisher" in metadata && metadata["publisher"] == String(r.publisher)
    && "headers" in metadata && metadata["headers"].Object?
    && (forall k :: k in r.headers <==> k in metadata["headers"].fields)
    && forall k <- r.headers :: metadata["headers"].fields[k] == String(r.headers[k])
  }

  lemma HeadersSay(fields: map<string, Json>, headers: Attributes)
    ensures TreeHeaders(fields) == Ok(headers)
            <==> && (forall k :: k in headers <==> k in fields) && forall k <- headers ::
                fields[k] == String(headers[k])
  {
    if (forall k :: k in headers <==> k in fields) && forall k <- headers :: fields[k] == String(headers[k]) {
      assert (map k | k in fields :: fields[k].s) == headers;
    }
  }

  lemma TreeIff(j: Json, r: Meta, data: Json)
    ensures ContainerAccepts(j) && ReadContainerTree(j) == Ok((r, data)) <==> TreeSays(j, r, data)
  {
    hide IsUuid, TreeHeaders;
    if j.Object? && "metadata" in j.fields && j.fields["metadata"].Object? {
      var metadata := j.fields["metadata"].fields;
      assert {"timestamp", "publisher", "headers"} <= metadata.Keys
        <==> "timestamp" in metadata && "publisher" in metadata && "headers" in metadata;
      if "headers" in metadata && metadata["headers"].Object? {
        HeadersSay(metadata["headers"].fields, r.headers);
      }
    }
  }

  /** The protobuf container says `r`; its format version is not looked at. */
  ghost predicate ContainerSays(c: PayloadV1, r: Meta) {
    && r.id == c.id && r.publisher == c.publisher && r.headers == c.headers && r.schema == c.schema
    && r.timestamp == c.seconds * 1000 + RoundTowardZero(c.nanos, 1_000_000)
    && r.formatVersion == Version(1, 0, 0, Release)
  }

  /** The payload and the attributes say `r` and give `e`. */
  ghost predicate Extracts(v: Validator, payload: Payload, a: Attributes, transport: bool, r: Meta, e: Extracted) {
    match v
    case JsonSchemaValidator(_, _, text) =>
      && payload.Text? && text.loads(payload.text).Some?
      && var tree := text.loads(payload.text).value;
      if transport then AttributesSay(a, r) && e == Tree(tree) else e.Tree? && TreeSays(tree, r, e.json)
    case ProtobufValidator(_, codec) =>
      if transport then AttributesSay(a, r) && e == Encoded(payload)
      else
        && codec.readContainer(payload).Some?
        && var c := codec.readContainer(payload).value;
        ContainerSays(c, r) && e == InContainer(c.data)
  }

  lemma ExtractsIff(v: Validator, payload: Payload, a: Attributes, transport: bool, r: Meta, e: Extracted)
    ensures ExtractData(v, payload, a, transport) == Ok((r, e)) <==> Extracts(v, payload, a, transport, r, e)
  {
    hide ExtractFromAttributes, AttributesSay, ContainerAccepts, TreeSays, ReadContainerTree, RoundTowardZero;
    AttributesIff(a, r);
    if v.JsonSchemaValidator? && payload.Text? && v.text.loads(payload.text).Some? && e.Tree? {
      TreeIff(v.text.loads(payload.text).value, r, e.json);
    }
  }

  // Reading: type and data

  /** The pointer ends in the type, a slash and the version; the type starts after a slash or at the start. */
  ghost predicate PointsTo(schema: string, t: string, version: Version) {
    exists i, j ::
      && 0 <= i < j < |schema| && Matches(schema, i, j, |schema|) && (i > 0 ==> schema[i - 1] == '/')
      && t == schema[i..j] && ParseVersion(schema[j + 1..]) == Some(version)
  }

  lemma PointsToIff(schema: string, t: string, version: Version)
    ensures DecodeMessageType(schema) == Ok((t, version)) <==> PointsTo(schema, t, version)
  {
    hide ParseVersion, LastSlash, Segment;
    var j := LastSlash(schema);
    if j > 0 && j != |schema| - 1 && LastSlash(schema[..j]) + 1 < j {
      FoundIsMatch(schema);
      var i := LastSlash(schema[..j]) + 1;
      assert Matches(schema, i, j, |schema|);
      assert i > 0 ==> schema[..j][i - 1] == '/' && schema[i - 1] == '/';
      if DecodeMessageType(schema) == Ok((t, version)) {
        assert PointsTo(schema, t, version);
      }
    }
    if i, j' :| && 0 <= i < j' < |schema| && Matches(schema, i, j', |schema|) && (i > 0 ==> schema[i - 1] == '/')
                && t == schema[i..j'] && ParseVersion(schema[j' + 1..]) == Some(version) {
      SearchFindsFirst(schema, i, j', |schema|);
      FirstIsHere(schema, i, j');
    }
  }

  lemma FirstIsHere(s: string, i: nat, j: nat)
    requires i < j < |s| && Matches(s, i, j, |s|) && (i > 0 ==> s[i - 1] == '/')
    ensures LastSlash(s[..j]) + 1 == i
  {
    hide LastSlash;
    NoSlashIn(s, i, j);
    var n := LastSlash(s[..j]);
    assert n >= 0 ==> s[..j][n] == s[n];
    assert i > 0 ==> s[..j][i - 1] == '/';
  }

  /** The definition of a type and major version: the one at the schema's id, as format text, `#/schemas/`, the type, a
      slash, and the version pattern. */
  ghost predicate Defines(v: Validator, t: string, major: nat, d: Definition)
    requires v.JsonSchemaValidator?
  {
    var root := Render(v.root, Values(t, Show(major) + ".*"));
    && root.Some?
    && var pointer := root.value + "#/schemas/" + (t + ("/" + (Show(major) + ".*")));
    pointer in v.definitions && v.definitions[pointer] == d
  }

  lemma DefinitionPointer(root: string, t: string, pattern: string)
    ensures var values := Values(t, pattern);
            var pointer := Render(JsonFormat(root), values);
            && (pointer.Some? <==> Render(root, values).Some?)
            && (pointer.Some? ==> pointer.value == Render(root, values).value + "#/schemas/" + (t + ("/" + pattern)))
  {
    hide Render, FirstBrace;
    var values := Values(t, pattern);
    RenderTypeAndVersion(t, pattern);
    RenderLiteral("#/schemas/", TYPE_AND_VERSION, values);
    FirstBraceOf("#/schemas/", TYPE_AND_VERSION);
    assert TYPE_AND_VERSION[0] == '{';
    RenderBefore(root, "#/schemas/" + TYPE_AND_VERSION, values);
  }

  lemma DefinesIff(v: Validator, t: string, major: nat, d: Definition)
    requires v.JsonSchemaValidator?
    ensures FindDefinition(v, t, major) == Ok(d) <==> Defines(v, t, major, d)
  {
    hide Render, Show;
    DefinitionPointer(v.root, t, Show(major) + ".*");
  }

  /** The data, read as data of the type. */
  ghost predicate DataSays(v: Validator, schema: string, t: string, major: nat, e: Extracted, data: Data) {
    match v
    case JsonSchemaValidator(root, _, _) =>
      root <= schema && e.Tree? && data == Document(e.json) && exists d :: Defines(v, t, major, d) && d.accepts(e.json)
    case ProtobufValidator(registry, codec) =>
      && (t, major) in registry && data.Proto?
      && var descriptor := registry[(t, major)].descriptor;
      match e
      case Tree(_) => false
      case InContainer(p) => p.descriptor == descriptor && codec.unpack(descriptor, p.value) == Some(data.message)
      case Encoded(payload) => codec.read(descriptor, payload) == Some(data.message)
  }

  lemma DataIff(v: Validator, schema: string, t: string, version: Version, e: Extracted, data: Data)
    ensures DecodeData(v, schema, t, version, e) == Ok(data) <==> DataSays(v, schema, t, version.major, e, data)
  {
    hide FindDefinition, Defines;
    if v.JsonSchemaValidator? {
      forall d ensures FindDefinition(v, t, version.major) == Ok(d) <==> Defines(v, t, version.major, d) {
        DefinesIff(v, t, version.major, d);
      }
    }
  }

  /** Reading, exactly: the payload is accepted as message `m` if and only if the record and the data it carries are
      those of `m`, its pointer points to the type and version of `m`, and no header is in the reserved name space. */
  ghost predicate Reads(v: Validator, payload: Payload, a: Attributes, transport: bool, m: Message) {
    exists r, e ::
      && Extracts(v, payload, a, transport, r, e) && PointsTo(r.schema, m.messageType, m.version)
      && DataSays(v, r.schema, m.messageType, m.version.major, e, m.data)
      && m.id == r.id && m.timestamp == r.timestamp && m.publisher == r.publisher && m.headers == r.headers
      && forall k <- m.headers :: !("hedwig_" <= k)
  }

  lemma DeserializeIff(v: Validator, payload: Payload, a: Attributes, provider: Option<string>, transport: bool,
                       m: Message)
    ensures Deserialize(v, payload, a, provider, transport) == Ok(m)
            <==> m.provider == provider && Reads(v, payload, a, transport, m)
  {
    hide ExtractData, DecodeData, DecodeMessageType, Extracts, DataSays, PointsTo;
    forall r, e ensures ExtractData(v, payload, a, transport) == Ok((r, e))
        <==> Extracts(v, payload, a, transport, r, e) {
      ExtractsIff(v, payload, a, transport, r, e);
    }
    forall schema, t, version ensures DecodeMessageType(schema) == Ok((t, version)) <==> PointsTo(schema, t, version) {
      PointsToIff(schema, t, version);
    }
    forall schema, e ensures DecodeData(v, schema, m.messageType, m.version, e) == Ok(m.data)
                             <==> DataSays(v, schema, m.messageType, m.version.major, e, m.data) {
      DataIff(v, schema, m.messageType, m.version, e, m.data);
    }
  }

  // Writing

  /** The transport attributes of a message: the five of its record, and its headers. */
  ghost predicate AttributesWrite(a: Attributes, m: Message, schema: string) {
    && a.Keys == m.headers.Keys + {"hedwig_format_version", "hedwig_id", "hedwig_message_timestamp", "hedwig_publisher",
                                   "hedwig_schema"}
    && a["hedwig_format_version"] == "1.0" && a["hedwig_id"] == m.id
    && a["hedwig_message_timestamp"] == ShowInt(m.timestamp) && a["hedwig_publisher"] == m.publisher
    && a["hedwig_schema"] == schema
    && forall k <- m.headers :: a[k] == m.headers[k]
  }

  /** The JSON container of a message. */
  ghost predicate TreeWrites(j: Json, m: Message, schema: string, data: Json) {
    && j.Object? && j.fields.Keys == {"format_version", "schema", "id", "metadata", "data"}
    && j.fields["format_version"] == String("1.0") && j.fields["schema"] == String(schema)
    && j.fields["id"] == String(m.id) && j.fields["data"] == data
    && j.fields["metadata"].Object? && j.fields["metadata"].fields.Keys == {"timestamp", "publisher", "headers"}
    && MetadataSays(j.fields["metadata"].fields, MetaOf(m, schema))
  }

  /** The protobuf container of a message; the seconds are rounded down, and the nanoseconds make up the rest. */
  ghost predicate ContainerWrites(c: PayloadV1, m: Message, schema: string, data: Packed) {
    && c.formatVersion == "1.0" && c.id == m.id && c.publisher == m.publisher && c.headers == m.headers
    && c.schema == schema && c.data == data
    && c.seconds * 1_000_000_000 + c.nanos == m.timestamp * 1_000_000 && 0 <= c.nanos < 1_000_000_000
  }

  ghost predicate Writes(v: Validator, m: Message, schema: string, transport: bool, payload: Payload, a: Attributes) {
    && (if transport then AttributesWrite(a, m, schema) else a == m.headers)
    && match v
       case JsonSchemaValidator(_, _, text) =>
         && m.data.Document?
         && if transport then payload == Text(text.dumps(m.data.json))
            else exists j :: payload == Text(text.dumps(j)) && TreeWrites(j, m, schema, m.data.json)
       case ProtobufValidator(_, codec) =>
         && m.data.Proto?
         && if transport then payload == codec.write(m.data.message)
            else exists c :: payload == codec.writeContainer(c)
                             && ContainerWrites(c, m, schema,
                                                Packed(m.data.message.descriptor, codec.pack(m.data.message)))
  }

  /** What is published, field by field. */
  lemma SerializedOnTheWire(v: Validator, m: Message, transport: bool)
    ensures var s := Serialize(v, m, transport);
            s.Ok? ==>
              var schema := EncodeMessageType(v.Format(), m.messageType, m.version);
              schema.Some? && Writes(v, m, schema.value, transport, s.value.0, s.value.1)
  {
    hide Deserialize, EncodeMessageType, VerifyKnownMinorVersion, AttributesWrite, TreeWrites, ContainerWrites,
        ContainerTree,
         EncodeMetaAttributes, Container;
    if Serialize(v, m, transport).Ok? {
      var schema := EncodeMessageType(v.Format(), m.messageType, m.version).value;
      EncodedAttributesWrite(m, schema);
      if v.JsonSchemaValidator? {
        if !transport { TreeIsWritten(m, schema); }
      } else if m.data.Proto? {
        ContainerIsWritten(v.codec, m, schema);
      }
    }
  }

  lemma EncodedAttributesWrite(m: Message, schema: string)
    requires NoReserved(m.headers)
    ensures AttributesWrite(EncodeMetaAttributes(MetaOf(m, schema)), m, schema)
  {
    hide ShowInt;
    EncodedParts(MetaOf(m, schema));
    CurrentFormatVersion();
  }

  lemma TreeIsWritten(m: Message, schema: string)
    requires m.data.Document?
    ensures TreeWrites(ContainerTree(MetaOf(m, schema), m.data.json), m, schema, m.data.json)
  {
    ContainerFields(MetaOf(m, schema), m.data.json);
    FormatVersionField(MetaOf(m, schema), m.data.json);
    MetadataFields(MetaOf(m, schema));
    CurrentFormatVersion();
  }

  lemma ContainerIsWritten(codec: ProtoCodec, m: Message, schema: string)
    requires m.data.Proto?
    ensures ContainerWrites(Container(codec, MetaOf(m, schema), m.data.message), m, schema,
                            Packed(m.data.message.descriptor, codec.pack(m.data.message)))
  {
    CurrentFormatVersion();
  }

  /** The known minor version, exactly: of the definition's `x-version`, or of the registered class. */
  ghost predicate KnowsMinor(v: Validator, t: string, version: Version) {
    match v
    case JsonSchemaValidator(_, _, _) =>
      exists d, known ::
        Defines(v, t, version.major, d) && ParseVersion(d.xVersion) == Some(known) && version.minor <= known.minor
    case ProtobufValidator(registry, _) =>
      (t, version.major) in registry && version.minor <= registry[(t, version.major)].minorVersion
  }

  lemma KnowsMinorIff(v: Validator, t: string, version: Version)
    ensures VerifyKnownMinorVersion(v, t, version).Ok? <==> KnowsMinor(v, t, version)
  {
    hide FindDefinition, Defines, ParseVersion;
    if v.JsonSchemaValidator? {
      forall d ensures FindDefinition(v, t, version.major) == Ok(d) <==> Defines(v, t, version.major, d) {
        DefinesIff(v, t, version.major, d);
      }
    }
  }
}
