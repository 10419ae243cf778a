/** Schema pointers: message type and version written as one string, and the search that recovers them. */
module SchemaPointers {
  import opened Results
  import opened Versions

  // Writing

  predicate IsBrace(c: char) {
    c == '{' || c == '}'
  }

  predicate NoBraces(s: string) {
    forall i | 0 <= i < |s| :: !IsBrace(s[i])
  }

  /** Position of the first brace. */
  function FirstBrace(s: string): (n: nat)
    ensures n <= |s| && (n < |s| ==> IsBrace(s[n]))
    ensures forall k | 0 <= k < n :: !IsBrace(s[k])
  {
    if s == "" || IsBrace(s[0]) then 0 else FirstBrace(s[1..]) + 1
  }

  function Prepend(a: string, b: Option<string>): Option<string> {
    if b.Some? then Some(a + b.value) else None
  }

  /** `str.format`: doubled braces stand for themselves, a braced name for its value; it raises on any other brace and
      on a name without a value. */
  function Render(template: string, values: map<string, string>): Option<string>
    decreases |template|
  {
    if template == "" then Some("")
    else if !IsBrace(template[0]) then Prepend(template[..1], Render(template[1..], values))
    else if |template| > 1 && template[1] == template[0] then Prepend(template[..1], Render(template[2..], values))
    else
      var name := template[1..];
      var end := FirstBrace(name);
      if template[0] == '}' || end == |name| || name[end] == '{' || name[..end] !in values then None
      else Prepend(values[name[..end]], Render(name[end + 1..], values))
  }

  const TYPE_AND_VERSION := "{message_type}/{message_version}"

  /** The format of the protobuf validators. */
  const PROTOBUF_FORMAT := TYPE_AND_VERSION

  /** The format of the JSON Schema validator: the schema's own id comes first, and is taken as format text too. */
  function JsonFormat(root: string): string {
    root + ("#/schemas/" + TYPE_AND_VERSION)
  }

  function Values(messageType: string, version: string): map<string, string> {
    map["message_type" := messageType, "message_version" := version]
  }

  function EncodeMessageType(format: string, messageType: string, version: Version): Option<string> {
    Render(format, Values(messageType, ShowVersion(version)))
  }

  lemma FirstBraceOf(a: string, b: string)
    ensures FirstBrace(a + b) == if FirstBrace(a) < |a| then FirstBrace(a) else |a| + FirstBrace(b)
  {
    hide FirstBrace, IsBrace;
    assert forall k | 0 <= k < |a| :: (a + b)[k] == a[k];
    assert forall k | |a| <= k < |a + b| :: (a + b)[k] == b[k - |a|];
    assert FirstBrace(b) < |b| ==> (a + b)[|a| + FirstBrace(b)] == b[FirstBrace(b)];
  }

  lemma RenderChar(c: char, rest: string, values: map<string, string>)
    requires !IsBrace(c)
    ensures Render([c] + rest, values) == Prepend([c], Render(rest, values))
  {
    assert ([c] + rest)[..1] == [c] && ([c] + rest)[1..] == rest;
  }

  lemma RenderDouble(c: char, rest: string, values: map<string, string>)
    requires IsBrace(c)
    ensures Render([c, c] + rest, values) == Prepend([c], Render(rest, values))
  {
    assert ([c, c] + rest)[..1] == [c] && ([c, c] + rest)[2..] == rest;
  }

  lemma RenderBrace(c: char, name: string, values: map<string, string>)
    requires IsBrace(c) && (name == "" || name[0] != c)
    ensures var end := FirstBrace(name);
            Render([c] + name, values)
            == if c == '}' || end == |name| || name[end] == '{' || name[..end] !in values then None
               else Prepend(values[name[..end]], Render(name[end + 1..], values))
  {
    hide FirstBrace;
    assert ([c] + name)[1..] == name;
    assert name != "" ==> ([c] + name)[1] == name[0];
  }

  lemma {:induction false} RenderLiteral(a: string, rest: string, values: map<string, string>)
    requires NoBraces(a)
    ensures Render(a + rest, values) == Prepend(a, Render(rest, values))
  {
    hide Render, Prepend;
    if a == "" {
      assert a + rest == rest;
      PrependNothing(Render(rest, values));
    } else {
      RenderLiteral(a[1..], rest, values);
      RenderChar(a[0], a[1..] + rest, values);
      assert a + rest == [a[0]] + (a[1..] + rest);
      PrependTwice([a[0]], a[1..], Render(rest, values));
      assert [a[0]] + a[1..] == a;
    }
  }

  lemma PrependNothing(b: Option<string>)
    ensures Prepend("", b) == b
  {
    if b.Some? { assert "" + b.value == b.value; }
  }

  lemma PrependTwice(a: string, b: string, c: Option<string>)
    ensures Prepend(a, Prepend(b, c)) == Prepend(a + b, c)
  {
    if c.Some? { assert a + (b + c.value) == a + b + c.value; }
  }

  lemma CloseIsBrace()
    ensures IsBrace('}') && IsBrace('{')
  {
  }

  lemma RenderField(name: string, rest: string, values: map<string, string>)
    requires NoBraces(name) && name != "" && name in values
    ensures Render("{" + name + ("}" + rest), values) == Prepend(values[name], Render(rest, values))
  {
    hide FirstBrace, Render, IsBrace;
    FirstBraceOf(name, "}" + rest);
    CloseIsBrace();
    assert ("}" + rest)[0] == '}';
    assert (name + ("}" + rest))[0] == name[0] && !IsBrace(name[0]);
    RenderBrace('{', name + ("}" + rest), values);
    assert "{" + name + ("}" + rest) == ['{'] + (name + ("}" + rest));
    assert (name + ("}" + rest))[|name| + 1..] == rest;
    assert (name + ("}" + rest))[..|name|] == name;
  }

  /** The part of the format both validators share. */
  lemma RenderTypeAndVersion(t: string, v: string)
    ensures Render(TYPE_AND_VERSION, Values(t, v)) == Some(t + ("/" + v))
  {
    hide Render;
    var values := Values(t, v);
    assert TYPE_AND_VERSION == "{" + "message_type" + ("}" + ("/" + ("{" + "message_version" + ("}" + ""))));
    RenderField("message_version", "", values);
    assert Render("", values) == Some("") by { RenderEmpty(values); }
    assert v + "" == v;
    RenderLiteral("/", "{" + "message_version" + ("}" + ""), values);
    RenderField("message_type", "/" + ("{" + "message_version" + ("}" + "")), values);
  }

  lemma RenderEmpty(values: map<string, string>)
    ensures Render("", values) == Some("")
  {
  }

  /** A text that starts without a brace, and whose first brace opens a field, renders on its own: neither braces at
      the end of what precedes it nor an unfinished field there can take anything from it. */
  lemma {:induction false} RenderBefore(a: string, tail: string, values: map<string, string>)
    requires tail != "" && !IsBrace(tail[0]) && FirstBrace(tail) < |tail| && tail[FirstBrace(tail)] == '{'
    ensures Render(a + tail, values)
            == if Render(a, values).Some? then Prepend(Render(a, values).value, Render(tail, values)) else None
    decreases |a|, 0
  {
    hide Render, FirstBrace, IsBrace;
    var end := if a == "" then 0 else FirstBrace(a[1..]);
    if a == "" {
      assert a + tail == tail;
      RenderEmpty(values);
      PrependNothing(Render(tail, values));
    } else if !IsBrace(a[0]) {
      RenderChar(a[0], a[1..], values);
      RenderChar(a[0], a[1..] + tail, values);
      assert a == [a[0]] + a[1..] && a + tail == [a[0]] + (a[1..] + tail);
      RenderBeforeRest([a[0]], a[1..], tail, values);
    } else if |a| > 1 && a[1] == a[0] {
      RenderDouble(a[0], a[2..], values);
      RenderDouble(a[0], a[2..] + tail, values);
      assert a == [a[0], a[0]] + a[2..] && a + tail == [a[0], a[0]] + (a[2..] + tail);
      RenderBeforeRest([a[0]], a[2..], tail, values);
    } else {
      BraceBefore(a[0], a[1..], tail, values);
      assert a == [a[0]] + a[1..] && a + tail == [a[0]] + (a[1..] + tail);
      if a[0] != '}' && end < |a[1..]| && a[1..][end] != '{' && a[1..][..end] in values {
        RenderBeforeRest(values[a[1..][..end]], a[1..][end + 1..], tail, values);
      }
    }
  }

  lemma {:induction false} RenderBeforeRest(first: string, a: string, tail: string, values: map<string, string>)
    requires tail != "" && !IsBrace(tail[0]) && FirstBrace(tail) < |tail| && tail[FirstBrace(tail)] == '{'
    ensures var rest := Prepend(first, Render(a, values));
            Prepend(first, Render(a + tail, values))
            == if rest.Some? then Prepend(rest.value, Render(tail, values)) else None
    decreases |a|, 1
  {
    hide Render, FirstBrace, IsBrace;
    RenderBefore(a, tail, values);
    if Render(a, values).Some? {
      PrependTwice(first, Render(a, values).value, Render(tail, values));
    }
  }

  lemma BraceBefore(c: char, name: string, tail: string, values: map<string, string>)
    requires IsBrace(c) && (name == "" || name[0] != c)
    requires tail != "" && !IsBrace(tail[0]) && FirstBrace(tail) < |tail| && tail[FirstBrace(tail)] == '{'
    ensures var end := FirstBrace(name);
            if c == '}' || end == |name| || name[end] == '{' || name[..end] !in values then
              Render([c] + name, values) == None && Render([c] + (name + tail), values) == None
            else
              && Render([c] + name, values) == Prepend(values[name[..end]], Render(name[end + 1..], values))
              && Render([c] + (name + tail), values)
                 == Prepend(values[name[..end]], Render(name[end + 1..] + tail, values))
  {
    hide Render, FirstBrace, IsBrace;
    var end := FirstBrace(name);
    RenderBrace(c, name, values);
    assert (name + tail)[0] != c;
    RenderBrace(c, name + tail, values);
    FirstBraceOf(name, tail);
    if end == |name| {
      assert (name + tail)[end + FirstBrace(tail)] == tail[FirstBrace(tail)];
    } else {
      assert (name + tail)[end] == name[end];
      assert (name + tail)[..end] == name[..end];
      assert (name + tail)[end + 1..] == name[end + 1..] + tail;
    }
  }

  /** What a protobuf pointer looks like. */
  lemma ProtobufPointer(messageType: string, version: Version)
    ensures EncodeMessageType(PROTOBUF_FORMAT, messageType, version)
            == Some(messageType + ("/" + ShowVersion(version)))
  {
    RenderTypeAndVersion(messageType, ShowVersion(version));
  }

  /** A JSON Schema pointer can be written exactly when the schema's id is itself a valid format. */
  lemma JsonPointer(root: string, messageType: string, version: Version)
    ensures var values := Values(messageType, ShowVersion(version));
            var pointer := EncodeMessageType(JsonFormat(root), messageType, version);
            && (pointer.Some? <==> Render(root, values).Some?)
            && (pointer.Some? ==> pointer.value == Render(root, values).value + "#/schemas/"
                                                   + (messageType + ("/" + ShowVersion(version))))
  {
    hide Render, FirstBrace, ShowVersion;
    var values := Values(messageType, ShowVersion(version));
    var tail := "#/schemas/" + TYPE_AND_VERSION;
    RenderTypeAndVersion(messageType, ShowVersion(version));
    RenderLiteral("#/schemas/", TYPE_AND_VERSION, values);
    FirstBraceOf("#/schemas/", TYPE_AND_VERSION);
    assert TYPE_AND_VERSION[0] == '{';
    RenderBefore(root, tail, values);
    if Render(root, values).Some? {
      assert Render(root, values).value + ("#/schemas/" + (messageType + ("/" + ShowVersion(version))))
          == Render(root, values).value + "#/schemas/" + (messageType + ("/" + ShowVersion(version)));
    }
  }

  lemma PlainRoot(root: string, values: map<string, string>)
    requires NoBraces(root)
    ensures Render(root, values) == Some(root)
  {
    RenderLiteral(root, "", values);
    RenderEmpty(values);
    assert root + "" == root;
  }

  /** An id without braces is kept as it is, so that the pointer starts with it. */
  lemma PlainPointer(root: string, messageType: string, version: Version)
    requires NoBraces(root)
    ensures EncodeMessageType(JsonFormat(root), messageType, version)
            == Some(root + "#/schemas/" + (messageType + ("/" + ShowVersion(version))))
  {
    hide EncodeMessageType, ShowVersion, Render;
    PlainRoot(root, Values(messageType, ShowVersion(version)));
    JsonPointer(root, messageType, version);
  }

  /** An id with one brace in it makes every pointer fail. */
  lemma BracedRoot(a: string, brace: char, b: string, messageType: string, version: Version)
    requires NoBraces(a) && IsBrace(brace) && NoBraces(b)
    ensures EncodeMessageType(JsonFormat(a + ([brace] + b)), messageType, version) == None
  {
    hide Render;
    var values := Values(messageType, ShowVersion(version));
    RenderLiteral(a, [brace] + b, values);
    RenderBrace(brace, b, values);
    JsonPointer(a + ([brace] + b), messageType, version);
  }

  // Reading

  /** Position of the last slash, or -1. */
  function LastSlash(s: string): (n: int)
    ensures -1 <= n < |s| && (n >= 0 ==> s[n] == '/')
    ensures forall k | n < k < |s| :: s[k] != '/'
  {
    if s == "" then -1
    else if s[|s| - 1] == '/' then |s| - 1
    else LastSlash(s[..|s| - 1])
  }

  predicate Segment(s: string) {
    s != "" && forall i | 0 <= i < |s| :: s[i] != '/'
  }

  /** What stands between the last two slashes, and after the last. */
  function Search(s: string): Option<(string, string)> {
    var j := LastSlash(s);
    if j <= 0 || j == |s| - 1 then None
    else
      var i := LastSlash(s[..j]) + 1;
      if i == j then None else Some((s[i..j], s[j + 1..]))
  }

  /** A match of `([^/]+)/([^/]+)$`: the dollar sign also matches before a final line feed. */
  ghost predicate Matches(s: string, i: nat, j: nat, end: nat) {
    && i < j < end <= |s|
    && (end == |s| || (end == |s| - 1 && s[end] == '\n'))
    && s[j] == '/' && Segment(s[i..j]) && Segment(s[j + 1..end])
  }

  /** The search finds a match whenever there is one, and of all the leftmost, longest. */
  lemma SearchFindsFirst(s: string, i: nat, j: nat, end: nat)
    requires Matches(s, i, j, end)
    ensures Search(s).Some?
    ensures var first := LastSlash(s[..j]) + 1;
            Matches(s, first, j, |s|) && first <= i && Search(s) == Some((s[first..j], s[j + 1..]))
  {
    hide LastSlash, Segment, Search;
    NoSlashIn(s, i, j);
    NoSlashIn(s, j + 1, end);
    SegmentNotEmpty(s[j + 1..end]);
    assert LastSlash(s) == j;
    NoSlashBefore(s, i, j);
    SearchAt(s, j);
    FoundIsMatch(s);
  }

  lemma NoSlashIn(s: string, i: nat, j: nat)
    requires i <= j <= |s| && Segment(s[i..j])
    ensures forall k | i <= k < j :: s[k] != '/'
  {
    forall k | i <= k < j ensures s[k] != '/' {
      assert s[k] == s[i..j][k - i];
    }
  }

  lemma NoSlashBefore(s: string, i: nat, j: nat)
    requires i <= j <= |s| && forall k | i <= k < j :: s[k] != '/'
    ensures LastSlash(s[..j]) < i
  {
    hide LastSlash;
    var n := LastSlash(s[..j]);
    if n >= 0 { assert s[..j][n] == s[n]; }
  }

  lemma FoundIsMatch(s: string)
    requires LastSlash(s) > 0 && LastSlash(s) != |s| - 1 && LastSlash(s[..LastSlash(s)]) + 1 < LastSlash(s)
    ensures Matches(s, LastSlash(s[..LastSlash(s)]) + 1, LastSlash(s), |s|)
  {
    hide LastSlash;
    var j := LastSlash(s);
    var i := LastSlash(s[..j]) + 1;
    assert forall k | i <= k < j :: s[..j][k] == s[k];
  }

  function DecodeMessageType(schema: string): (r: Result<(string, Version)>)
    ensures r.Ok? ==> Segment(r.value.0)
    ensures r.Err? ==> r.error == ValidationError
  {
    match Search(schema)
    case None => Err(ValidationError)
    case Some((messageType, version)) =>
      match ParseVersion(version)
      case None => Err(ValidationError)
      case Some(v) => Ok((messageType, v))
  }

  /** The part of a type after its last slash. */
  function LastSegment(t: string): string {
    t[LastSlash(t) + 1..]
  }

  lemma SearchPointer(prefix: string, t: string, v: string)
    requires prefix == "" || prefix[|prefix| - 1] == '/'
    requires Segment(v)
    ensures Search(prefix + (t + ("/" + v))) == if LastSegment(t) == "" then None else Some((LastSegment(t), v))
  {
    hide LastSlash, Segment, Search;
    var front := prefix + t;
    LastSlashIs(front, v);
    LastSlashAfter(prefix, t);
    SegmentNotEmpty(v);
    FoundAfter(front, v, LastSlash(front) + 1);
    DropBoth(prefix, t, LastSlash(t) + 1);
    Regroup(prefix, t, "/" + v);
  }

  lemma Regroup(a: string, b: string, c: string)
    ensures a + (b + c) == a + b + c
  {
  }

  lemma DropBoth(a: string, b: string, i: nat)
    requires i <= |b|
    ensures (a + b)[|a| + i..] == b[i..]
  {
  }

  lemma SegmentNotEmpty(v: string)
    requires Segment(v)
    ensures v != ""
  {
  }

  lemma FoundAfter(front: string, v: string, i: nat)
    requires v != "" && LastSlash(front + ("/" + v)) == |front| && i == LastSlash(front) + 1
    ensures Search(front + ("/" + v)) == if i == |front| then None else Some((front[i..], v))
  {
    hide LastSlash;
    var s := front + ("/" + v);
    Pieces(front, v, i);
    SearchAt(s, |front|);
  }

  lemma SearchAt(s: string, j: nat)
    requires LastSlash(s) == j < |s| - 1
    ensures var i := LastSlash(s[..j]) + 1;
            Search(s) == if i == j then None else Some((s[i..j], s[j + 1..]))
  {
    hide LastSlash;
  }

  lemma Pieces(front: string, v: string, i: nat)
    requires i <= |front|
    ensures var s := front + ("/" + v);
            s[..|front|] == front && s[i..|front|] == front[i..] && s[|front| + 1..] == v
  {
  }

  lemma LastSlashUnique(s: string, n: nat)
    requires n < |s| && s[n] == '/' && forall k | n < k < |s| :: s[k] != '/'
    ensures LastSlash(s) == n
  {
    hide LastSlash;
  }

  lemma LastSlashIs(a: string, v: string)
    requires Segment(v)
    ensures LastSlash(a + ("/" + v)) == |a|
  {
    hide LastSlash;
    var tail := "/" + v;
    assert tail[0] == '/' && tail[1..] == v;
    var s := a + tail;
    assert s[|a|] == tail[0];
    forall k | |a| < k < |s| ensures s[k] != '/' {
      assert s[k] == tail[k - |a|] == tail[1..][k - |a| - 1];
    }
    LastSlashUnique(s, |a|);
  }

  lemma LastSlashAfter(prefix: string, t: string)
    requires prefix == "" || prefix[|prefix| - 1] == '/'
    ensures LastSlash(prefix + t) == |prefix| + LastSlash(t)
  {
    hide LastSlash;
    assert forall k | |prefix| <= k < |prefix + t| :: (prefix + t)[k] == t[k - |prefix|];
    assert prefix != "" ==> (prefix + t)[|prefix| - 1] == '/';
    assert LastSlash(t) >= 0 ==> (prefix + t)[|prefix| + LastSlash(t)] == '/';
  }

  /** The format is the one of a protobuf validator or of some JSON Schema validator. */
  ghost predicate KnownFormat(format: string) {
    format == PROTOBUF_FORMAT || exists root :: format == JsonFormat(root)
  }

  /** Reading back what was written gives the version, and the type from its last slash on. */
  lemma PointerMeaning(format: string, messageType: string, version: Version)
    requires KnownFormat(format)
    ensures var pointer := EncodeMessageType(format, messageType, version);
            pointer.Some? ==>
              DecodeMessageType(pointer.value)
              == if LastSegment(messageType) == "" then Err(ValidationError)
                 else Ok((LastSegment(messageType), version))
  {
    hide Render, ParseVersion, ShowVersion, Search;
    var v := ShowVersion(version);
    ShownEnd(version);
    VersionRoundTrip(version);
    if format == PROTOBUF_FORMAT {
      ProtobufPointer(messageType, version);
      SearchPointer("", messageType, v);
      assert "" + (messageType + ("/" + v)) == messageType + ("/" + v);
    } else {
      var root :| format == JsonFormat(root);
      JsonPointer(root, messageType, version);
      if Render(root, Values(messageType, v)).Some? {
        SearchPointer(Render(root, Values(messageType, v)).value + "#/schemas/", messageType, v);
      }
    }
  }

  /** The pointer round trip holds for exactly the non-empty types without a slash. */
  lemma PointerRoundTrip(format: string, messageType: string, version: Version)
    requires KnownFormat(format)
    ensures var pointer := EncodeMessageType(format, messageType, version);
            pointer.Some? ==>
              (DecodeMessageType(pointer.value) == Ok((messageType, version))
               <==> messageType != "" && '/' !in messageType)
  {
    hide EncodeMessageType, DecodeMessageType;
    PointerMeaning(format, messageType, version);
    assert LastSlash(messageType) < 0 ==> LastSegment(messageType) == messageType;
    assert LastSlash(messageType) >= 0 ==> |LastSegment(messageType)| < |messageType|;
  }
}
