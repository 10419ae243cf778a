/** What the validators write on the wire: JSON trees, protobuf containers, and the codecs for them. */
module Payloads {
  import opened Results
  import opened MetaAttributes

  newtype byte = x: int | 0 <= x < 256

  datatype Payload = Text(text: string) | Bytes(bytes: seq<byte>)

  /** A mantissa in normal form. */
  type Mantissa = m: int | m % 10 != 0 witness 1

  /** A JSON value. A number that Python reads as a float is zero, or a decimal in normal form: a mantissa and an
      exponent of ten. */
  datatype Json = Null | Boolean(b: bool) | Integer(i: int) | FloatZero
                | Float(mantissa: Mantissa, exponent: int) | String(s: string)
                | Array(elements: seq<Json>) | Object(fields: map<string, Json>)

  /** A protobuf message: its descriptor, and what its fields hold, in canonical encoding. */
  datatype ProtoMessage = ProtoMessage(descriptor: string, content: seq<byte>)

  /** Message data, as the application sees it. */
  datatype Data = Document(json: Json) | Proto(message: ProtoMessage)

  /** JSON as text. */
  datatype JsonText = JsonText(dumps: Json -> string, loads: string -> Option<Json>) {
    ghost predicate Sound() {
      forall j :: loads(dumps(j)) == Some(j)
    }
  }

  datatype Packed = Packed(descriptor: string, value: seq<byte>)

  /** The protobuf container; its timestamp is seconds and nanoseconds. */
  datatype PayloadV1 = PayloadV1(formatVersion: string, id: string, publisher: string, seconds: int, nanos: int,
                                 headers: Attributes, schema: string, data: Packed)

  /** Protobuf encodings of messages and of the container, as text or as bytes, and the packing of a message into the
      container. */
  datatype ProtoCodec = ProtoCodec(text: bool, write: ProtoMessage -> Payload,
                                   read: (string, Payload) -> Option<ProtoMessage>,
                                   writeContainer: PayloadV1 -> Payload, readContainer: Payload -> Option<PayloadV1>,
                                   pack: ProtoMessage -> seq<byte>,
                                   unpack: (string, seq<byte>) -> Option<ProtoMessage>) {
    ghost predicate Sound() {
      && (forall m: ProtoMessage :: read(m.descriptor, write(m)) == Some(m))
      && (forall c: PayloadV1 :: readContainer(writeContainer(c)) == Some(c))
      && (forall m: ProtoMessage :: unpack(m.descriptor, pack(m)) == Some(m))
      && (forall m: ProtoMessage :: write(m).Text? <==> text)
      && (forall c: PayloadV1 :: writeContainer(c).Text? <==> text)
      && (forall d: string, p: Payload :: read(d, p).Some? ==> read(d, p).value.descriptor == d)
    }
  }

  // Timestamps

  /** Rounds a quotient towards zero. */
  function RoundTowardZero(value: int, divider: nat): int
    requires divider > 0
  {
    var quotient := value / divider;
    if quotient < 0 && value % divider > 0 then quotient + 1 else quotient
  }

  function Seconds(milliseconds: int): int {
    milliseconds / 1000
  }

  function Nanos(milliseconds: int): int {
    milliseconds % 1000 * 1_000_000
  }

  function ToMilliseconds(seconds: int, nanos: int): int {
    seconds * 1000 + RoundTowardZero(nanos, 1_000_000)
  }

  /** Milliseconds, before or after the epoch, survive the container's timestamp. */
  lemma TimestampRoundTrip(milliseconds: int)
    ensures ToMilliseconds(Seconds(milliseconds), Nanos(milliseconds)) == milliseconds
    ensures 0 <= Nanos(milliseconds) < 1_000_000_000
  {
    assert milliseconds % 1000 * 1_000_000 / 1_000_000 == milliseconds % 1000;
  }

  /** The quotient cut off after the point: never further from zero than the value, and by less than one. */
  lemma CutsOff(value: int, divider: nat)
    requires divider > 0
    ensures var q := RoundTowardZero(value, divider);
            if value >= 0 then 0 <= q * divider <= value < (q + 1) * divider
            else (q - 1) * divider < value <= q * divider <= 0
  {
    var q := value / divider;
    assert value == q * divider + value % divider;
    assert (q + 1) * divider == q * divider + divider;
    if value < 0 {
      NegativeQuotient(value, divider);
    }
  }

  lemma NegativeQuotient(value: int, divider: nat)
    requires divider > 0 && value < 0
    ensures value / divider < 0
  {
  }

  // The JSON container

  predicate IsHexDigit(c: char) {
    '0' <= c <= '9' || 'a' <= c <= 'f'
  }

  /** Thirty-six characters, lower-case hexadecimal digits in groups of 8, 4, 4, 4 and 12. The length is asked for
      besides the pattern, so that no line feed follows. */
  predicate IsUuid(s: string) {
    |s| == 36 && forall i | 0 <= i < 36 :: if i in {8, 13, 18, 23} then s[i] == '-' else IsHexDigit(s[i])
  }

  ghost predicate HexDigits(s: string, n: nat) {
    |s| == n && forall c <- s :: c in "0123456789abcdef"
  }

  function Hyphenated(a: string, b: string, c: string, d: string, e: string): string {
    a + "-" + b + "-" + c + "-" + d + "-" + e
  }

  /** The groups, between hyphens. */
  lemma UuidIff(s: string)
    ensures IsUuid(s)
            <==> exists a, b, c, d, e ::
                   && s == Hyphenated(a, b, c, d, e)
                   && HexDigits(a, 8) && HexDigits(b, 4) && HexDigits(c, 4) && HexDigits(d, 4) && HexDigits(e, 12)
  {
    hide IsUuid, HexDigits, Hyphenated;
    if IsUuid(s) {
      var a, b, c, d, e := GroupsOf(s);
    }
    if a, b, c, d, e :| && s == Hyphenated(a, b, c, d, e)
                        && HexDigits(a, 8) && HexDigits(b, 4) && HexDigits(c, 4) && HexDigits(d, 4)
                            && HexDigits(e, 12) {
      HexIsUuid(a, b, c, d, e);
    }
  }

  lemma GroupsOf(s: string) returns (a: string, b: string, c: string, d: string, e: string)
    requires IsUuid(s)
    ensures s == Hyphenated(a, b, c, d, e)
    ensures HexDigits(a, 8) && HexDigits(b, 4) && HexDigits(c, 4) && HexDigits(d, 4) && HexDigits(e, 12)
  {
    hide HexDigits, IsHexDigit;
    a, b, c, d, e := s[..8], s[9..13], s[14..18], s[19..23], s[24..36];
    HexGroup(s, 0, 8);
    HexGroup(s, 9, 13);
    HexGroup(s, 14, 18);
    HexGroup(s, 19, 23);
    HexGroup(s, 24, 36);
    assert s[8] == s[13] == s[18] == s[23] == '-';
  }

  lemma HexDigitIs(c: char)
    ensures IsHexDigit(c) <==> c in "0123456789abcdef"
  {
  }

  lemma HexGroup(s: string, i: nat, j: nat)
    requires i <= j <= |s| && forall k | i <= k < j :: IsHexDigit(s[k])
    ensures HexDigits(s[i..j], j - i)
  {
    forall c <- s[i..j] ensures c in "0123456789abcdef" {
      var k :| 0 <= k < j - i && s[i..j][k] == c;
      HexDigitIs(s[i + k]);
    }
  }

  lemma HexIsUuid(a: string, b: string, c: string, d: string, e: string)
    requires HexDigits(a, 8) && HexDigits(b, 4) && HexDigits(c, 4) && HexDigits(d, 4) && HexDigits(e, 12)
    ensures IsUuid(Hyphenated(a, b, c, d, e))
  {
    hide IsHexDigit;
    var s := Hyphenated(a, b, c, d, e);
    forall i | 0 <= i < 36 ensures if i in {8, 13, 18, 23} then s[i] == '-' else IsHexDigit(s[i]) {
      assert s[i] == if i < 8 then a[i] else if i == 8 then '-' else if i < 13 then b[i - 9] else if i == 13 then '-'
                     else if i < 18 then c[i - 14] else if i == 18 then '-' else if i < 23 then d[i - 19]
                     else if i == 23 then '-' else e[i - 24];
      HexDigitIs(s[i]);
    }
  }

  predicate IsNumber(j: Json) {
    j.Integer? || j.FloatZero? || j.Float?
  }

  /** The container schema has nothing to say about a JSON value that is not an object. */
  predicate ContainerAccepts(j: Json) {
    j.Object? ==>
      && {"id", "schema", "format_version", "metadata", "data"} <= j.fields.Keys
      && j.fields["id"].String? && IsUuid(j.fields["id"].s)
      && j.fields["schema"].String? && j.fields["schema"].s != ""
      && j.fields["format_version"] == String("1.0")
      && j.fields["data"].Object?
      && j.fields["metadata"].Object?
      && var metadata := j.fields["metadata"].fields;
      && ("publisher" in metadata ==> metadata["publisher"].String?)
      && ("timestamp" in metadata ==> IsNumber(metadata["timestamp"]))
      && ("headers" in metadata ==> metadata["headers"].Object?)
  }
}
