/** When `_deserialize` fails with something other than the ValidationError it promises. */
module ValidatorErrors {
  import opened Results
  import opened Decimals
  import opened Versions
  import opened SchemaPointers
  import opened MetaAttributes
  import opened Payloads
  import opened Validators

  /** All five attributes are there, and the timestamp or the format version does not parse. */
  predicate AttributesRaise(a: Attributes) {
    && {FORMAT_VERSION, ID, TIMESTAMP, PUBLISHER, SCHEMA} <= a.Keys
    && (ParseInt(a[TIMESTAMP]).None? || ParseVersion(a[FORMAT_VERSION]).None?)
  }

  /** The container passes its schema, and is no object or lacks a metadata field. */
  predicate ContainerRaises(j: Json) {
    && ContainerAccepts(j)
    && (j.Object? ==> !({"timestamp", "publisher", "headers"} <= j.fields["metadata"].fields.Keys))
  }

  /** For the protobuf validators only attributes can do it. The JSON Schema validator also expects text. */
  predicate ExtractionRaises(v: Validator, payload: Payload, attributes: Attributes, transport: bool) {
    match v
    case ProtobufValidator(_, _) => transport && AttributesRaise(attributes)
    case JsonSchemaValidator(_, _, text) =>
      || payload.Bytes?
      || (text.loads(payload.text).Some?
          && if transport then AttributesRaise(attributes) else ContainerRaises(text.loads(payload.text).value))
  }

  /** The schema's id is no valid format text for the pointer of the definition, and all before that is in order. */
  predicate LookupRaises(v: Validator, payload: Payload, attributes: Attributes, transport: bool) {
    && v.JsonSchemaValidator?
    && var extracted := ExtractData(v, payload, attributes, transport);
    && extracted.Ok? && NoReserved(extracted.value.0.headers)
    && var typed := DecodeMessageType(extracted.value.0.schema);
    && typed.Ok? && v.root <= extracted.value.0.schema
    && Render(v.root, Values(typed.value.0, Show(typed.value.1.major) + ".*")).None?
  }

  predicate RaisesOtherwise<T>(r: Result<T>) {
    r.Err? && r.error != ValidationError
  }

  lemma AttributesRaiseIff(a: Attributes)
    ensures RaisesOtherwise(ExtractFromAttributes(a)) <==> AttributesRaise(a)
  {
    hide ParseInt, ParseVersion, HeadersOf;
  }

  lemma ContainerRaisesIff(j: Json)
    requires ContainerAccepts(j)
    ensures RaisesOtherwise(ReadContainerTree(j)) <==> ContainerRaises(j)
  {
    hide TreeHeaders;
    if j.Object? && {"timestamp", "publisher", "headers"} <= j.fields["metadata"].fields.Keys {
      HeadersNeverRaise(j.fields["metadata"].fields["headers"].fields);
    }
  }

  lemma HeadersNeverRaise(fields: map<string, Json>)
    ensures !RaisesOtherwise(TreeHeaders(fields))
  {
  }

  lemma ExtractionRaisesIff(v: Validator, payload: Payload, attributes: Attributes, transport: bool)
    ensures RaisesOtherwise(ExtractData(v, payload, attributes, transport))
            <==> ExtractionRaises(v, payload, attributes, transport)
  {
    hide ExtractFromAttributes, ReadContainerTree, ContainerAccepts, AttributesRaise, ToMilliseconds;
    AttributesRaiseIff(attributes);
    if v.JsonSchemaValidator? && payload.Text? && v.text.loads(payload.text).Some? {
      var j := v.text.loads(payload.text).value;
      if ContainerAccepts(j) { ContainerRaisesIff(j); }
    }
  }

  /** The pointer of a definition can be rendered exactly when the schema's id can. */
  lemma DefinitionRaisesIff(v: Validator, messageType: string, major: nat)
    requires v.JsonSchemaValidator?
    ensures RaisesOtherwise(FindDefinition(v, messageType, major))
            <==> Render(v.root, Values(messageType, Show(major) + ".*")).None?
  {
    hide Render, FirstBrace, Show;
    var values := Values(messageType, Show(major) + ".*");
    RenderTypeAndVersion(messageType, Show(major) + ".*");
    RenderLiteral("#/schemas/", TYPE_AND_VERSION, values);
    FirstBraceOf("#/schemas/", TYPE_AND_VERSION);
    assert TYPE_AND_VERSION[0] == '{';
    RenderBefore(v.root, "#/schemas/" + TYPE_AND_VERSION, values);
  }

  lemma DataRaisesIff(v: Validator, schema: string, messageType: string, version: Version, extracted: Extracted)
    ensures RaisesOtherwise(DecodeData(v, schema, messageType, version, extracted))
            <==> && v.JsonSchemaValidator? && v.root <= schema
                 && Render(v.root, Values(messageType, Show(version.major) + ".*")).None?
  {
    hide FindDefinition, Render, Show;
    if v.JsonSchemaValidator? { DefinitionRaisesIff(v, messageType, version.major); }
  }

  /** Exactly when deserializing fails with another error than a ValidationError. */
  lemma DeserializeRaisesIff(v: Validator, payload: Payload, attributes: Attributes, provider: Option<string>,
                             transport: bool)
    ensures RaisesOtherwise(Deserialize(v, payload, attributes, provider, transport))
            <==> || ExtractionRaises(v, payload, attributes, transport)
                 || LookupRaises(v, payload, attributes, transport)
  {
    hide ExtractData, DecodeData, ExtractionRaises, Render, Show, Segment;
    ExtractionRaisesIff(v, payload, attributes, transport);
    var extracted := ExtractData(v, payload, attributes, transport);
    if extracted.Ok? {
      var typed := DecodeMessageType(extracted.value.0.schema);
      if typed.Ok? {
        DataRaisesIff(v, extracted.value.0.schema, typed.value.0, typed.value.1, extracted.value.1);
      }
    }
  }

  /** An id without braces never makes the lookup raise. */
  lemma PlainLookup(v: Validator, payload: Payload, attributes: Attributes, transport: bool)
    requires v.JsonSchemaValidator? && NoBraces(v.root)
    ensures !LookupRaises(v, payload, attributes, transport)
  {
    hide Render, Show, ExtractData;
    var extracted := ExtractData(v, payload, attributes, transport);
    if extracted.Ok? && DecodeMessageType(extracted.value.0.schema).Ok? {
      var typed := DecodeMessageType(extracted.value.0.schema).value;
      PlainRoot(v.root, Values(typed.0, Show(typed.1.major) + ".*"));
    }
  }

  /** An input: attributes whose timestamp is no number. */
  lemma BadTimestampRaises(v: Validator, payload: Payload, a: Attributes, provider: Option<string>)
    requires v.ProtobufValidator? && {FORMAT_VERSION, ID, TIMESTAMP, PUBLISHER, SCHEMA} <= a.Keys
    requires a[TIMESTAMP] == "soon"
    ensures Deserialize(v, payload, a, provider, true) == Err(ValueError)
  {
    hide ParseVersion, ParseInt, HeadersOf;
    SoonIsNoNumber();
  }

  lemma SoonIsNoNumber()
    ensures ParseInt("soon").None?
  {
    TrimNothing("soon");
    assert !IsGrouped("soon") by { assert "soon"[0] == 's'; }
  }

  /** An input: a container that is a number. */
  lemma NumberRaises(v: Validator, text: string, i: int, attributes: Attributes, provider: Option<string>)
    requires v.JsonSchemaValidator? && v.text.loads(text) == Some(Integer(i))
    ensures Deserialize(v, Text(text), attributes, provider, false) == Err(TypeError)
  {
  }
}
