/** One sound codec of each kind.

The wire format theorems ask of the codecs only that they read back what they write. These are instances, so the
theorems are about something; and they reach the inputs for which the code does not do what it should.
*/
module SampleCodecs {
  import opened Results
  import opened Decimals
  import opened MetaAttributes
  import opened Payloads
  import opened Validators
  import opened Envelopes
  import opened Firehose

  // Numbers and strings, each with its own end

  function Num(n: nat): string {
    Show(n) + ";"
  }

  function ReadNum(s: string): (r: Option<(nat, string)>)
    ensures r.Some? ==> |r.value.1| < |s|
  {
    var k := DigitPrefix(s);
    if k == 0 || k == |s| || s[k] != ';' then None else Some((Value(s[..k]), s[k + 1..]))
  }

  lemma NumBack(n: nat, rest: string)
    ensures ReadNum(Num(n) + rest) == Some((n, rest))
  {
    hide Show, Value, DigitPrefix;
    ShowValue(n);
    DigitPrefixIs(Show(n), ";" + rest);
    assert Num(n) + rest == Show(n) + (";" + rest);
    assert (Num(n) + rest)[|Show(n)| + 1..] == rest;
  }

  function Int(i: int): string {
    if i < 0 then "-" + Num(-i) else "+" + Num(i)
  }

  function ReadInt(s: string): (r: Option<(int, string)>)
    ensures r.Some? ==> |r.value.1| < |s|
  {
    if s == "" then None
    else
      match ReadNum(s[1..])
      case None => None
      case Some((n, rest)) => (var i: int := n; Some((if s[0] == '-' then -i else i, rest)))
  }

  lemma IntBack(i: int, rest: string)
    ensures ReadInt(Int(i) + rest) == Some((i, rest))
  {
    hide Num, ReadNum;
    var n := if i < 0 then -i else i;
    NumBack(n, rest);
    assert (Int(i) + rest)[1..] == Num(n) + rest;
  }

  function Str(s: string): string {
    Num(|s|) + s
  }

  function ReadStr(s: string): (r: Option<(string, string)>)
    ensures r.Some? ==> |r.value.1| < |s|
  {
    match ReadNum(s)
    case None => None
    case Some((n, rest)) => if n <= |rest| then Some((rest[..n], rest[n..])) else None
  }

  lemma StrBack(s: string, rest: string)
    ensures ReadStr(Str(s) + rest) == Some((s, rest))
  {
    hide Num, ReadNum;
    NumBack(|s|, s + rest);
    assert Str(s) + rest == Num(|s|) + (s + rest);
    assert (s + rest)[..|s|] == s && (s + rest)[|s|..] == rest;
  }

  // JSON

  ghost function Write(j: Json): string
    decreases j, 1
  {
    match j
    case Null => "n"
    case Boolean(b) => if b then "t" else "f"
    case Integer(i) => "i" + Int(i)
    case FloatZero => "z"
    case Float(m, e) => "d" + (Int(m) + Int(e))
    case String(s) => "s" + Str(s)
    case Array(es) => "a" + WriteAll(es)
    case Object(fields) => "o" + WriteFields(j, fields)
  }

  ghost function WriteAll(es: seq<Json>): string
    decreases es, 0
  {
    if es == [] then "." else "," + (Write(es[0]) + WriteAll(es[1..]))
  }

  /** The fields that are left, in whatever order. */
  ghost function WriteFields(j: Json, left: map<string, Json>): string
    requires j.Object? && forall k <- left :: k in j.fields && left[k] == j.fields[k]
    decreases j, 0, left.Keys
  {
    if left.Keys == {} then "."
    else
      var k :| k in left.Keys;
      "," + (Str(k) + (Write(j.fields[k]) + WriteFields(j, left - {k})))
  }

  function Read(s: string): (r: Option<(Json, string)>)
    ensures r.Some? ==> |r.value.1| < |s|
    decreases |s|, 1
  {
    if s == "" then None
    else if s[0] == 'n' then Some((Null, s[1..]))
    else if s[0] == 't' then Some((Boolean(true), s[1..]))
    else if s[0] == 'f' then Some((Boolean(false), s[1..]))
    else if s[0] == 'z' then Some((FloatZero, s[1..]))
    else if s[0] == 'i' then
      (match ReadInt(s[1..])
       case None => None
       case Some((i, rest)) => Some((Integer(i), rest)))
    else if s[0] == 'd' then
      (match ReadInt(s[1..])
       case None => None
       case Some((m, middle)) =>
         if m % 10 == 0 then None
         else
           match ReadInt(middle)
           case None => None
           case Some((e, rest)) => Some((Float(m, e), rest)))
    else if s[0] == 's' then
      (match ReadStr(s[1..])
       case None => None
       case Some((t, rest)) => Some((String(t), rest)))
    else if s[0] == 'a' then
      (match ReadAll(s[1..])
       case None => None
       case Some((es, rest)) => Some((Array(es), rest)))
    else
      match ReadFields(s[1..])
      case None => None
      case Some((fields, rest)) => Some((Object(fields), rest))
  }

  function ReadAll(s: string): (r: Option<(seq<Json>, string)>)
    ensures r.Some? ==> |r.value.1| < |s|
    decreases |s|, 0
  {
    if s == "" then None
    else if s[0] == '.' then Some(([], s[1..]))
    else
      match Read(s[1..])
      case None => None
      case Some((e, middle)) =>
        match ReadAll(middle)
        case None => None
        case Some((es, rest)) => Some(([e] + es, rest))
  }

  function ReadFields(s: string): (r: Option<(map<string, Json>, string)>)
    ensures r.Some? ==> |r.value.1| < |s|
    decreases |s|, 0
  {
    if s == "" then None
    else if s[0] == '.' then Some((map[], s[1..]))
    else
      match ReadStr(s[1..])
      case None => None
      case Some((k, first)) =>
        match Read(first)
        case None => None
        case Some((value, second)) =>
          match ReadFields(second)
          case None => None
          case Some((fields, rest)) => Some((fields[k := value], rest))
  }

  lemma Tagged(tag: string, body: string, rest: string)
    requires |tag| == 1
    ensures (tag + body + rest)[1..] == body + rest && (tag + body + rest)[0] == tag[0] && tag + body + rest != ""
  {
  }

  lemma Regroup(a: string, b: string, c: string)
    ensures a + b + c == a + (b + c)
  {
  }

  lemma {:induction false} WriteBack(j: Json, rest: string)
    ensures Read(Write(j) + rest) == Some((j, rest))
    decreases j, 1
  {
    hide Int, ReadInt, Str, ReadStr, WriteAll, ReadAll, WriteFields, ReadFields;
    match j
    case Null => assert ("n" + rest)[1..] == rest;
    case Boolean(b) => assert (Write(j) + rest)[1..] == rest;
    case FloatZero => assert ("z" + rest)[1..] == rest;
    case Integer(i) =>
      Tagged("i", Int(i), rest);
      IntBack(i, rest);
    case Float(m, e) =>
      Tagged("d", Int(m) + Int(e), rest);
      Regroup(Int(m), Int(e), rest);
      IntBack(m, Int(e) + rest);
      IntBack(e, rest);
    case String(s) =>
      Tagged("s", Str(s), rest);
      StrBack(s, rest);
    case Array(es) =>
      Tagged("a", WriteAll(es), rest);
      AllBack(es, rest);
    case Object(fields) =>
      Tagged("o", WriteFields(j, fields), rest);
      FieldsBack(j, fields, rest);
  }

  lemma {:induction false} AllBack(es: seq<Json>, rest: string)
    ensures ReadAll(WriteAll(es) + rest) == Some((es, rest))
    decreases es, 0
  {
    hide Write, Read;
    if es == [] {
      assert ("." + rest)[1..] == rest;
    } else {
      Tagged(",", Write(es[0]) + WriteAll(es[1..]), rest);
      Regroup(Write(es[0]), WriteAll(es[1..]), rest);
      WriteBack(es[0], WriteAll(es[1..]) + rest);
      AllBack(es[1..], rest);
      assert [es[0]] + es[1..] == es;
    }
  }

  lemma {:induction false} FieldsBack(j: Json, left: map<string, Json>, rest: string)
    requires j.Object? && forall k <- left :: k in j.fields && left[k] == j.fields[k]
    ensures ReadFields(WriteFields(j, left) + rest) == Some((left, rest))
    decreases j, 0, left.Keys
  {
    hide Write, Read, Str, ReadStr;
    if left.Keys == {} {
      assert ("." + rest)[1..] == rest;
      assert left == map[];
    } else {
      var k :| k in left.Keys
               && WriteFields(j, left) == "," + (Str(k) + (Write(j.fields[k]) + WriteFields(j, left - {k})));
      var more := WriteFields(j, left - {k});
      Tagged(",", Str(k) + (Write(j.fields[k]) + more), rest);
      Regroup(Str(k), Write(j.fields[k]) + more, rest);
      Regroup(Write(j.fields[k]), more, rest);
      StrBack(k, Write(j.fields[k]) + (more + rest));
      WriteBack(j.fields[k], more + rest);
      FieldsBack(j, left - {k}, rest);
      assert (left - {k})[k := j.fields[k]] == left;
    }
  }

  function Loads(s: string): Option<Json> {
    match Read(s)
    case None => None
    case Some((j, rest)) => if rest == "" then Some(j) else None
  }

  ghost function SampleJson(): JsonText {
    JsonText(j => Write(j), s => Loads(s))
  }

  lemma SampleJsonSound()
    ensures SampleJson().Sound()
  {
    hide Write, Read;
    forall j ensures SampleJson().loads(SampleJson().dumps(j)) == Some(j) {
      WriteBack(j, "");
      assert Write(j) + "" == Write(j);
    }
  }

  // Bytes

  /** A character as three bytes. */
  function CharBytes(c: char): seq<byte> {
    var n := c as int;
    [(n / 65536) as byte, (n / 256 % 256) as byte, (n % 256) as byte]
  }

  function ToBytes(s: string): seq<byte> {
    if s == "" then [] else CharBytes(s[0]) + ToBytes(s[1..])
  }

  function FromBytes(b: seq<byte>): Option<string> {
    if b == [] then Some("")
    else if |b| < 3 then None
    else
      var n := b[0] as int * 65536 + b[1] as int * 256 + b[2] as int;
      if !(n < 0xD800 || 0xE000 <= n < 0x11_0000) then None
      else
        match FromBytes(b[3..])
        case None => None
        case Some(s) => Some([n as char] + s)
  }

  lemma {:induction false} BytesBack(s: string)
    ensures FromBytes(ToBytes(s)) == Some(s)
  {
    if s != "" {
      var c := s[0];
      var n := c as int;
      var b := CharBytes(c) + ToBytes(s[1..]);
      assert n == n / 65536 * 65536 + n / 256 % 256 * 256 + n % 256;
      assert b[..3] == CharBytes(c) && b[3..] == ToBytes(s[1..]);
      BytesBack(s[1..]);
      assert [c] + s[1..] == s;
    }
  }

  /** A byte as a character. */
  function ToText(b: seq<byte>): (s: string)
    ensures |s| == |b|
  {
    seq(|b|, i requires 0 <= i < |b| => b[i] as char)
  }

  function FromText(s: string): Option<seq<byte>> {
    if forall i | 0 <= i < |s| :: s[i] as int < 256 then
      Some(seq(|s|, i requires 0 <= i < |s| => s[i] as byte))
    else None
  }

  lemma TextBack(b: seq<byte>)
    ensures FromText(ToText(b)) == Some(b)
  {
    assert forall i | 0 <= i < |b| :: ToText(b)[i] == b[i] as char;
    assert FromText(ToText(b)).value == b;
  }

  function SampleClients(takes: Attributes -> bool): Clients {
    Clients(b => ToText(b), s => FromText(s), s => ToBytes(s), b => FromBytes(b), takes)
  }

  lemma SampleClientsSound(takes: Attributes -> bool)
    requires takes(map[])
    ensures SampleClients(takes).Sound()
  {
    forall b ensures FromText(ToText(b)) == Some(b) { TextBack(b); }
    forall s ensures FromBytes(ToBytes(s)) == Some(s) { BytesBack(s); }
  }

  // Protobuf

  function ContainerArray(c: PayloadV1): Json {
    Array([String(c.formatVersion), String(c.id), String(c.publisher), Integer(c.seconds), Integer(c.nanos),
           Object(HeaderTree(c.headers)), String(c.schema), String(c.data.descriptor), String(ToText(c.data.value))])
  }

  predicate IsContainerArray(j: Json) {
    && j.Array? && |j.elements| == 9
    && j.elements[0].String? && j.elements[1].String? && j.elements[2].String?
    && j.elements[3].Integer? && j.elements[4].Integer?
    && j.elements[5].Object? && TreeHeaders(j.elements[5].fields).Ok?
    && j.elements[6].String? && j.elements[7].String? && j.elements[8].String? && FromText(j.elements[8].s).Some?
  }

  function ReadContainerArray(j: Json): Option<PayloadV1> {
    if !IsContainerArray(j) then None
    else
      var e := j.elements;
      Some(PayloadV1(e[0].s, e[1].s, e[2].s, e[3].i, e[4].i, TreeHeaders(e[5].fields).value, e[6].s,
                     Packed(e[7].s, FromText(e[8].s).value)))
  }

  lemma ContainerBack(c: PayloadV1)
    ensures ReadContainerArray(ContainerArray(c)) == Some(c)
  {
    hide TreeHeaders, HeaderTree, FromText, ToText;
    HeaderTreeRoundTrip(c.headers);
    TextBack(c.data.value);
  }

  ghost function ContainerText(c: PayloadV1): string {
    Write(ContainerArray(c))
  }

  function ReadContainerText(s: string): Option<PayloadV1> {
    match Loads(s)
    case None => None
    case Some(j) => ReadContainerArray(j)
  }

  lemma ContainerTextBack(c: PayloadV1)
    ensures ReadContainerText(ContainerText(c)) == Some(c)
  {
    hide Write, Read, ContainerArray, ReadContainerArray;
    WriteBack(ContainerArray(c), "");
    assert Write(ContainerArray(c)) + "" == Write(ContainerArray(c));
    ContainerBack(c);
  }

  /** As in protobuf's binary format, what is written for a message does not say of which class it is. */
  ghost function SampleProto(): ProtoCodec {
    ProtoCodec(false,
               (m: ProtoMessage) => Bytes(m.content),
               (d: string, p: Payload) => if p.Bytes? then Some(ProtoMessage(d, p.bytes)) else None,
               c => Bytes(ToBytes(ContainerText(c))),
               (p: Payload) => if p.Bytes? then ReadContainerBytes(p.bytes) else None,
               (m: ProtoMessage) => m.content,
               (d: string, b: seq<byte>) => Some(ProtoMessage(d, b)))
  }

  function ReadContainerBytes(b: seq<byte>): Option<PayloadV1> {
    match FromBytes(b)
    case None => None
    case Some(s) => ReadContainerText(s)
  }

  lemma SampleProtoSound()
    ensures SampleProto().Sound() && IsBinary(SampleProto())
  {
    hide ContainerText, ReadContainerText, ToBytes, FromBytes;
    forall c ensures SampleProto().readContainer(SampleProto().writeContainer(c)) == Some(c) {
      BytesBack(ContainerText(c));
      ContainerTextBack(c);
    }
  }

  ghost function SampleLine(): LineCodec {
    LineCodec(c => ContainerText(c), s => ReadContainerText(s), s => ToBytes(s), b => FromBytes(b),
              b => ToText(b), s => FromText(s))
  }

  lemma SampleLineSound()
    ensures SampleLine().Sound()
  {
    hide ContainerText, ReadContainerText, ToBytes, FromBytes, ToText, FromText;
    forall c: PayloadV1 ensures ReadContainerText(ContainerText(c)) == Some(c) { ContainerTextBack(c); }
    forall s: string ensures FromBytes(ToBytes(s)) == Some(s) { BytesBack(s); }
    forall b: seq<byte> ensures FromText(ToText(b)) == Some(b) { TextBack(b); }
  }
}
