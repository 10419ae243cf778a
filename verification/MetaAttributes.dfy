/** The record that travels with the data of every message, and its form as transport attributes. */
module MetaAttributes {
  import opened Results
  import opened Decimals
  import opened Versions

  type Attributes = map<string, string>

  datatype Meta = Meta(timestamp: int, publisher: string, headers: Attributes, id: string, schema: string,
                       formatVersion: Version)

  const FORMAT_VERSION := "hedwig_format_version"
  const ID := "hedwig_id"
  const TIMESTAMP := "hedwig_message_timestamp"
  const PUBLISHER := "hedwig_publisher"
  const SCHEMA := "hedwig_schema"

  predicate IsReserved(key: string) {
    "hedwig_" <= key
  }

  predicate NoReserved(headers: Attributes) {
    forall k <- headers :: !IsReserved(k)
  }

  /** Header names in the reserved name space are refused. */
  function VerifyHeaders(headers: Attributes): Result<()> {
    Check(NoReserved(headers), ValidationError)
  }

  function EncodeMetaAttributes(m: Meta): Attributes {
    map[FORMAT_VERSION := ShowVersion(m.formatVersion), ID := m.id, TIMESTAMP := ShowInt(m.timestamp),
        PUBLISHER := m.publisher, SCHEMA := m.schema] + m.headers
  }

  function HeadersOf(attributes: Attributes): Attributes {
    map k | k in attributes && !IsReserved(k) :: attributes[k]
  }

  /** The five attributes must be there; a number or version that does not parse is Python's ValueError, not a
      validation error. */
  function DecodeMetaAttributes(a: Attributes): Result<Meta> {
    if !({FORMAT_VERSION, ID, TIMESTAMP, PUBLISHER, SCHEMA} <= a.Keys) then Err(ValidationError)
    else
      match ParseInt(a[TIMESTAMP])
      case None => Err(ValueError)
      case Some(timestamp) =>
        match ParseVersion(a[FORMAT_VERSION])
        case None => Err(ValueError)
        case Some(version) => Ok(Meta(timestamp, a[PUBLISHER], HeadersOf(a), a[ID], a[SCHEMA], version))
  }

  lemma ReservedNames()
    ensures IsReserved(FORMAT_VERSION) && IsReserved(ID) && IsReserved(TIMESTAMP) && IsReserved(PUBLISHER)
            && IsReserved(SCHEMA)
  {
  }

  lemma DistinctNames()
    ensures FORMAT_VERSION != ID && FORMAT_VERSION != TIMESTAMP && FORMAT_VERSION != PUBLISHER
            && FORMAT_VERSION != SCHEMA && ID != TIMESTAMP && ID != PUBLISHER && ID != SCHEMA
            && TIMESTAMP != PUBLISHER && TIMESTAMP != SCHEMA && PUBLISHER != SCHEMA
  {
    assert |FORMAT_VERSION| == 21 && |ID| == 9 && |TIMESTAMP| == 24 && |PUBLISHER| == 16 && |SCHEMA| == 13;
  }

  /** The attributes of a record with legal headers. */
  lemma EncodedParts(m: Meta)
    requires NoReserved(m.headers)
    ensures var a := EncodeMetaAttributes(m);
            && a.Keys == {FORMAT_VERSION, ID, TIMESTAMP, PUBLISHER, SCHEMA} + m.headers.Keys
            && a[FORMAT_VERSION] == ShowVersion(m.formatVersion) && a[ID] == m.id
            && a[TIMESTAMP] == ShowInt(m.timestamp) && a[PUBLISHER] == m.publisher && a[SCHEMA] == m.schema
            && HeadersOf(a) == m.headers
  {
    hide IsReserved, ShowInt, ShowVersion;
    ReservedNames();
    DistinctNames();
  }

  /** Decoding undoes encoding, signed timestamp and versions included, for exactly the records whose headers pass
      verification. */
  lemma MetaRoundTrip(m: Meta)
    ensures DecodeMetaAttributes(EncodeMetaAttributes(m)) == Ok(m) <==> VerifyHeaders(m.headers).Ok?
  {
    hide ParseInt, ShowInt, ParseVersion, ShowVersion, EncodeMetaAttributes;
    if NoReserved(m.headers) {
      EncodedParts(m);
      IntRoundTrip(m.timestamp);
      VersionRoundTrip(m.formatVersion);
    } else {
      assert forall k <- HeadersOf(EncodeMetaAttributes(m)) :: !IsReserved(k);
    }
  }

  /** Further attributes in the reserved name space, such as the marker of the transport encoding, change nothing. */
  lemma OtherReservedIgnored(a: Attributes, extra: Attributes)
    requires forall k <- extra :: IsReserved(k) && k !in {FORMAT_VERSION, ID, TIMESTAMP, PUBLISHER, SCHEMA}
    ensures DecodeMetaAttributes(a + extra) == DecodeMetaAttributes(a)
  {
    hide ParseInt, ParseVersion, IsReserved;
    ReservedNames();
    assert HeadersOf(a + extra) == HeadersOf(a) by {
      assert forall k <- a + extra :: !IsReserved(k) ==> k in a && k !in extra;
    }
  }
}
