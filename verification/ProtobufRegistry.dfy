/** `_check_schema` of the protobuf validator: the registry of message classes, and which configurations it refuses. */
module ProtobufRegistry {
  import opened Results
  import opened Decimals
  import opened Versions
  import opened Payloads
  import opened Validators

  type Key = (string, nat)

  /** The Hedwig option of a class; protobuf reads an option that is not there as all defaults. */
  datatype Options = Options(majorVersion: nat, minorVersion: nat, messageType: string)

  datatype ProtoClass = ProtoClass(name: string, descriptor: string, declared: Option<Options>) {
    function GetOptions(): Options {
      match declared
      case Some(o) => o
      case None => Options(0, 0, "")
    }
  }

  /** A message type and a version pattern, as used in the routing and callback settings. */
  datatype Route = Route(messageType: string, pattern: string)

  datatype Fault = NoOption | NoMajorVersion | MajorMismatch | NoMessageType | Duplicate
                 | BadPattern | ZeroVersion | NotDeclared

  // Names and patterns

  /** How many digits `s` ends with. */
  function DigitSuffix(s: string): (n: nat)
    ensures n <= |s| && (n < |s| ==> !IsDigit(s[|s| - n - 1]))
    ensures forall k | |s| - n <= k < |s| :: IsDigit(s[k])
  {
    if s == "" || !IsDigit(s[|s| - 1]) then 0 else DigitSuffix(s[..|s| - 1]) + 1
  }

  /** A class name such as TripCreatedV2 gives a type and a major version. */
  function NameParts(name: string): Option<(string, nat)> {
    var start := |name| - DigitSuffix(name);
    if start == |name| || start == 0 || name[start - 1] != 'V' then None
    else Some((name[..start - 1], Value(name[start..])))
  }

  /** The name is a type, the letter V and a numeral, in just one way. */
  lemma NamePartsExact(name: string, prefix: string, digits: string)
    requires name == prefix + "V" + digits && IsNumeral(digits)
    ensures NameParts(name) == Some((prefix, Value(digits)))
  {
    hide DigitSuffix, Value;
    var n := DigitSuffix(name);
    assert name[|prefix|] == 'V';
    assert forall i | |prefix| < i < |name| :: name[i] == digits[i - |prefix| - 1];
    assert n == |digits|;
    assert name[|name| - n..] == digits && name[..|prefix|] == prefix;
  }

  /** The name is a prefix, the letter V, and a numeral. */
  predicate Named(name: string, prefix: string, digits: string) {
    name == prefix + "V" + digits && IsNumeral(digits)
  }

  /** No other name is split. */
  lemma NamePartsIff(name: string, prefix: string, major: nat)
    ensures NameParts(name) == Some((prefix, major))
            <==> exists digits :: Named(name, prefix, digits) && Value(digits) == major
  {
    hide DigitSuffix, Value;
    if NameParts(name) == Some((prefix, major)) {
      var start := |name| - DigitSuffix(name);
      var digits := name[start..];
      assert forall k | 0 <= k < |digits| :: digits[k] == name[start + k];
      assert name == name[..start - 1] + "V" + digits;
      assert Named(name, prefix, digits);
    }
    if digits :| Named(name, prefix, digits) && Value(digits) == major {
      NamePartsExact(name, prefix, digits);
    }
  }

  /** `^([0-9]+)\.\*$`, which also matches before a final line feed. */
  function PatternMajor(pattern: string): Option<nat> {
    var p := if pattern != "" && pattern[|pattern| - 1] == '\n' then pattern[..|pattern| - 1] else pattern;
    if |p| > 2 && p[|p| - 2..] == ".*" && AllDigits(p[..|p| - 2]) then Some(Value(p[..|p| - 2])) else None
  }

  /** A numeral, a dot and an asterisk, perhaps before a final line feed. */
  predicate Patterned(pattern: string, digits: string) {
    IsNumeral(digits) && (pattern == digits + ".*" || pattern == digits + ".*" + "\n")
  }

  lemma PatternIff(pattern: string, major: nat)
    ensures PatternMajor(pattern) == Some(major)
            <==> exists digits :: Patterned(pattern, digits) && Value(digits) == major
  {
    hide Value, AllDigits;
    var fed := pattern != "" && pattern[|pattern| - 1] == '\n';
    var p := if fed then pattern[..|pattern| - 1] else pattern;
    assert fed ==> pattern == p + "\n";
    if PatternMajor(pattern) == Some(major) {
      var digits := p[..|p| - 2];
      assert p == digits + ".*";
      assert Patterned(pattern, digits);
    }
    if digits :| Patterned(pattern, digits) && Value(digits) == major {
      PatternedBody(pattern, digits);
    }
  }

  lemma PatternedBody(pattern: string, digits: string)
    requires Patterned(pattern, digits)
    ensures PatternMajor(pattern) == Some(Value(digits))
  {
    hide Value, AllDigits;
    var body := digits + ".*";
    assert body[|body| - 1] == '*' && body[|body| - 2..] == ".*" && body[..|body| - 2] == digits;
    assert pattern != body ==> pattern[..|pattern| - 1] == body;
  }

  // The two passes

  /** The type: from the option, else from the name. */
  function TypeOf(c: ProtoClass): string {
    if c.GetOptions().messageType != "" then c.GetOptions().messageType
    else if NameParts(c.name).Some? then NameParts(c.name).value.0
    else ""
  }

  function KeyOf(c: ProtoClass): Key {
    (TypeOf(c), c.GetOptions().majorVersion)
  }

  predicate IsRegistrable(c: ProtoClass) {
    c.GetOptions().majorVersion != 0 && TypeOf(c) != ""
  }

  predicate NameDisagrees(c: ProtoClass) {
    NameParts(c.name).Some? && NameParts(c.name).value.1 != c.GetOptions().majorVersion
  }

  /** The registry after the first pass. */
  function Registered(classes: seq<ProtoClass>): map<Key, ProtoClass> {
    if classes == [] then map[]
    else
      var c := classes[|classes| - 1];
      var before := Registered(classes[..|classes| - 1]);
      if IsRegistrable(c) && KeyOf(c) !in before then before[KeyOf(c) := c] else before
  }

  /** A class as the design wants it: an option with a major version, a type, and a name that agrees. */
  predicate WellDeclared(c: ProtoClass) {
    c.declared.Some? && IsRegistrable(c) && !NameDisagrees(c)
  }

  predicate WellRouted(classes: seq<ProtoClass>, r: Route) {
    && PatternMajor(r.pattern).Some? && PatternMajor(r.pattern).value != 0
    && exists i | 0 <= i < |classes| :: KeyOf(classes[i]) == (r.messageType, PatternMajor(r.pattern).value)
  }

  /** Well declared classes with different keys. */
  ghost predicate WellFormed(classes: seq<ProtoClass>) {
    && (forall i | 0 <= i < |classes| :: WellDeclared(classes[i]))
    && (forall i, j | 0 <= i < j < |classes| :: KeyOf(classes[i]) != KeyOf(classes[j]))
  }

  /** A configuration to accept: well declared classes with different keys, and routes that lead to them. */
  ghost predicate Acceptable(classes: seq<ProtoClass>, routes: seq<Route>) {
    WellFormed(classes) && forall i | 0 <= i < |routes| :: WellRouted(classes, routes[i])
  }

  /** The registry maps the key of every class to that class, and has no other keys. */
  ghost predicate Indexes(registry: map<Key, ProtoClass>, classes: seq<ProtoClass>) {
    && |registry| == |classes|
    && (forall i | 0 <= i < |classes| :: KeyOf(classes[i]) in registry && registry[KeyOf(classes[i])] == classes[i])
    && (forall k <- registry :: exists i | 0 <= i < |classes| :: KeyOf(classes[i]) == k)
  }

  lemma IndexesOneMore(registry: map<Key, ProtoClass>, classes: seq<ProtoClass>, c: ProtoClass)
    requires Indexes(registry, classes) && KeyOf(c) !in registry
    ensures Indexes(registry[KeyOf(c) := c], classes + [c])
  {
    hide KeyOf;
    var all := classes + [c];
    assert all[|classes|] == c;
    assert forall i | 0 <= i < |classes| :: all[i] == classes[i];
  }

  /** The registry of well declared classes with different keys is a bijection between the classes and their keys. */
  lemma {:induction false} RegistryIsBijection(classes: seq<ProtoClass>)
    requires WellFormed(classes)
    ensures Indexes(Registered(classes), classes)
  {
    hide KeyOf, WellDeclared, IsRegistrable;
    if classes != [] {
      var n := |classes| - 1;
      RegistryIsBijection(classes[..n]);
      DeclaredRegistrable(classes[n]);
      assert KeyOf(classes[n]) !in Registered(classes[..n]);
      IndexesOneMore(Registered(classes[..n]), classes[..n], classes[n]);
      assert classes[..n] + [classes[n]] == classes;
    }
  }

  lemma DeclaredRegistrable(c: ProtoClass)
    requires WellDeclared(c)
    ensures IsRegistrable(c)
  {
  }

  lemma NothingWellFormed()
    ensures WellFormed([])
  {
  }

  /** The first pass says nothing about a new class exactly when it may join those before it. */
  lemma JoinsIff(classes: seq<ProtoClass>, c: ProtoClass)
    requires WellFormed(classes)
    ensures WellFormed(classes + [c]) <==> WellDeclared(c) && KeyOf(c) !in Registered(classes)
  {
    hide KeyOf, WellDeclared;
    RegistryIsBijection(classes);
    var all := classes + [c];
    assert all[|classes|] == c;
    assert forall i | 0 <= i < |classes| :: all[i] == classes[i];
  }

  lemma PrefixWellFormed(classes: seq<ProtoClass>, c: ProtoClass)
    requires WellFormed(classes + [c])
    ensures WellFormed(classes)
  {
    assert forall i | 0 <= i < |classes| :: (classes + [c])[i] == classes[i];
  }

  /** What a class has to say for itself: an option with a major version, a type, given or taken from the name, and no
      other major version in the name. */
  ghost predicate Declares(c: ProtoClass, key: Key) {
    && c.declared.Some? && c.declared.value.majorVersion == key.1 != 0 && key.0 != ""
    && (if c.declared.value.messageType != "" then key.0 == c.declared.value.messageType
        else exists digits :: Named(c.name, key.0, digits))
    && forall prefix, digits :: Named(c.name, prefix, digits) ==> Value(digits) == key.1
  }

  lemma DisagreesIff(c: ProtoClass)
    ensures NameDisagrees(c)
            <==> exists prefix, digits :: Named(c.name, prefix, digits) && Value(digits) != c.GetOptions().majorVersion
  {
    hide NameParts;
    if NameParts(c.name).Some? {
      NamePartsIff(c.name, NameParts(c.name).value.0, NameParts(c.name).value.1);
    }
    forall prefix, digits | Named(c.name, prefix, digits) ensures NameParts(c.name) == Some((prefix, Value(digits))) {
      NamePartsIff(c.name, prefix, Value(digits));
    }
  }

  lemma DeclaresIff(c: ProtoClass, key: Key)
    ensures Declares(c, key) <==> WellDeclared(c) && KeyOf(c) == key
  {
    hide NameParts, NameDisagrees;
    DisagreesIff(c);
    if NameParts(c.name).Some? {
      NamePartsIff(c.name, NameParts(c.name).value.0, NameParts(c.name).value.1);
    }
    forall prefix, digits | Named(c.name, prefix, digits) ensures NameParts(c.name) == Some((prefix, Value(digits))) {
      NamePartsIff(c.name, prefix, Value(digits));
    }
  }

  /** The type is the option's, else the prefix of the name, else there is none. */
  lemma TypeMeaning(c: ProtoClass)
    ensures c.GetOptions().messageType != "" ==> TypeOf(c) == c.GetOptions().messageType
    ensures c.GetOptions().messageType == "" ==>
              && (forall prefix, digits | Named(c.name, prefix, digits) :: TypeOf(c) == prefix)
              && (TypeOf(c) != "" ==> exists digits :: Named(c.name, TypeOf(c), digits))
  {
    hide NameParts;
    if NameParts(c.name).Some? {
      NamePartsIff(c.name, NameParts(c.name).value.0, NameParts(c.name).value.1);
    }
    forall prefix, digits | Named(c.name, prefix, digits) ensures NameParts(c.name) == Some((prefix, Value(digits))) {
      NamePartsIff(c.name, prefix, Value(digits));
    }
  }

  /** Where a route leads. */
  ghost predicate Leads(r: Route, key: Key) {
    key.0 == r.messageType && key.1 != 0 && exists digits :: Patterned(r.pattern, digits) && Value(digits) == key.1
  }

  /** The configurations to accept, from the names, options and patterns alone: every class declares a key, no two the
      same, and every route leads to one of them. */
  lemma AcceptableIff(classes: seq<ProtoClass>, routes: seq<Route>)
    ensures Acceptable(classes, routes)
            <==> exists keys: seq<Key> :: KeysOf(classes, keys) && AllLead(routes, keys)
  {
    hide Declares, WellDeclared, KeyOf, PatternMajor;
    var all := seq(|classes|, i requires 0 <= i < |classes| => KeyOf(classes[i]));
    forall c, key: Key ensures Declares(c, key) <==> WellDeclared(c) && KeyOf(c) == key { DeclaresIff(c, key); }
    forall r, key: Key ensures Leads(r, key) <==> LeadsTo(r, key) { LeadsIff(r, key); }
    assert forall i | 0 <= i < |classes| :: all[i] == KeyOf(classes[i]);
    if Acceptable(classes, routes) {
      assert KeysOf(classes, all);
      forall i | 0 <= i < |routes| ensures LeadsSomewhere(routes[i], all) {
        assert WellRouted(classes, routes[i]);
        var j :| 0 <= j < |classes|
            && KeyOf(classes[j]) == (routes[i].messageType, PatternMajor(routes[i].pattern).value);
        assert all[j] in all && Leads(routes[i], all[j]);
      }
    }
    if keys: seq<Key> :| KeysOf(classes, keys) && AllLead(routes, keys) {
      assert keys == all;
      forall i | 0 <= i < |routes| ensures WellRouted(classes, routes[i]) {
        assert LeadsSomewhere(routes[i], keys);
        var key :| key in keys && Leads(routes[i], key);
        var j :| 0 <= j < |keys| && keys[j] == key;
        assert KeyOf(classes[j]) == key;
      }
    }
  }

  ghost predicate KeysOf(classes: seq<ProtoClass>, keys: seq<Key>) {
    && |keys| == |classes| && (forall i | 0 <= i < |classes| :: Declares(classes[i], keys[i]))
    && forall i, j | 0 <= i < j < |keys| :: keys[i] != keys[j]
  }

  ghost predicate AllLead(routes: seq<Route>, keys: seq<Key>) {
    forall i | 0 <= i < |routes| :: LeadsSomewhere(routes[i], keys)
  }

  ghost predicate LeadsSomewhere(r: Route, keys: seq<Key>) {
    exists key :: key in keys && Leads(r, key)
  }

  predicate LeadsTo(r: Route, key: Key) {
    PatternMajor(r.pattern) == Some(key.1) && key.1 != 0 && key.0 == r.messageType
  }

  lemma LeadsIff(r: Route, key: Key)
    ensures Leads(r, key) <==> LeadsTo(r, key)
  {
    hide PatternMajor;
    PatternIff(r.pattern, key.1);
  }

  class Registry {
    var protoMessages: map<Key, ProtoClass>

    constructor ()
      ensures protoMessages == map[]
    {
      protoMessages := map[];
    }

    /** One class of the first pass. */
    method CheckClass(c: ProtoClass) returns (faults: seq<Fault>)
      modifies this
      ensures protoMessages == if IsRegistrable(c) && KeyOf(c) !in old(protoMessages)
                               then old(protoMessages)[KeyOf(c) := c]
                               else old(protoMessages)
      ensures faults == [] <==> WellDeclared(c) && KeyOf(c) !in old(protoMessages)
      ensures NoOption in faults <==> c.declared.None?
      ensures NoMajorVersion in faults <==> c.GetOptions().majorVersion == 0
      ensures MajorMismatch in faults <==> NameDisagrees(c) && c.GetOptions().majorVersion != 0
      ensures NoMessageType in faults <==> TypeOf(c) == "" && c.GetOptions().majorVersion != 0
      ensures Duplicate in faults <==> IsRegistrable(c) && KeyOf(c) in old(protoMessages)
    {
      faults := [];
      if c.declared.None? {
        faults := faults + [NoOption];
      }
      var options := c.GetOptions();
      if options.majorVersion == 0 {
        faults := faults + [NoMajorVersion];
        return;
      }
      var majorVersion := options.majorVersion;
      var messageType := options.messageType;
      var m := NameParts(c.name);
      if m.Some? {
        if messageType == "" {
          messageType := m.value.0;
        }
        if m.value.1 != majorVersion {
          faults := faults + [MajorMismatch];
        }
      }
      if messageType == "" {
        faults := faults + [NoMessageType];
        return;
      }
      if (messageType, majorVersion) in protoMessages {
        faults := faults + [Duplicate];
        return;
      }
      protoMessages := protoMessages[(messageType, majorVersion) := c];
    }

    /** One route of the second pass. */
    method CheckRoute(r: Route) returns (faults: seq<Fault>)
      ensures faults == [] <==> var major := PatternMajor(r.pattern);
                                major.Some? && major.value != 0 && (r.messageType, major.value) in protoMessages
      ensures BadPattern in faults <==> PatternMajor(r.pattern).None?
      ensures ZeroVersion in faults <==> PatternMajor(r.pattern) == Some(0)
      ensures NotDeclared in faults <==> PatternMajor(r.pattern).Some?
                                         && (r.messageType, PatternMajor(r.pattern).value) !in protoMessages
    {
      faults := [];
      var m := PatternMajor(r.pattern);
      if m.None? {
        return [BadPattern];
      }
      if m.value == 0 {
        faults := faults + [ZeroVersion];
      }
      if (r.messageType, m.value) !in protoMessages {
        faults := faults + [NotDeclared];
      }
    }

    /** The check accepts exactly the configurations it should, and the registry holds what the classes declare. */
    method CheckSchema(classes: seq<ProtoClass>, routes: seq<Route>) returns (errors: seq<Fault>)
      requires protoMessages == map[]
      modifies this
      ensures protoMessages == Registered(classes)
      ensures errors == [] <==> Acceptable(classes, routes)
    {
      hide KeyOf, WellDeclared, IsRegistrable, PatternMajor, WellRouted, WellFormed;
      errors := [];
      NothingWellFormed();
      for i := 0 to |classes|
        invariant protoMessages == Registered(classes[..i])
        invariant errors == [] <==> WellFormed(classes[..i])
      {
        assert classes[..i + 1] == classes[..i] + [classes[i]];
        assert classes[..i + 1][..i] == classes[..i];
        if WellFormed(classes[..i]) {
          JoinsIff(classes[..i], classes[i]);
        } else {
          if WellFormed(classes[..i + 1]) { PrefixWellFormed(classes[..i], classes[i]); }
        }
        var faults := CheckClass(classes[i]);
        errors := errors + faults;
      }
      assert classes[..|classes|] == classes;
      for i := 0 to |routes|
        invariant protoMessages == Registered(classes)
        invariant errors == [] <==> WellFormed(classes) && forall j | 0 <= j < i :: WellRouted(classes, routes[j])
      {
        var faults := CheckRoute(routes[i]);
        if WellFormed(classes) { RouteChecked(classes, routes[i]); }
        errors := errors + faults;
      }
    }
  }

  lemma RouteChecked(classes: seq<ProtoClass>, r: Route)
    requires WellFormed(classes)
    ensures WellRouted(classes, r)
            <==> var major := PatternMajor(r.pattern);
                 major.Some? && major.value != 0 && (r.messageType, major.value) in Registered(classes)
  {
    hide KeyOf, PatternMajor, WellFormed;
    RegistryIsBijection(classes);
  }

  // What acceptance means for the lookups

  /** The registry as the other operations of the validator see it. */
  function Classes(registry: map<Key, ProtoClass>): map<Key, Class> {
    map k | k in registry :: Class(registry[k].descriptor, registry[k].GetOptions().minorVersion)
  }

  /** On acceptance every routed type is found, by its class, and its versions pass up to the class's minor version. */
  lemma RoutedIsKnown(classes: seq<ProtoClass>, routes: seq<Route>, r: Route, version: Version, codec: ProtoCodec)
    requires Acceptable(classes, routes) && r in routes
    requires Some(version.major) == PatternMajor(r.pattern)
    ensures var v := ProtobufValidator(Classes(Registered(classes)), codec);
            && (r.messageType, version.major) in v.registry
            && (VerifyKnownMinorVersion(v, r.messageType, version).Ok?
                <==> version.minor <= v.registry[(r.messageType, version.major)].minorVersion)
            && exists c <- classes :: KeyOf(c) == (r.messageType, version.major)
                                      && v.registry[KeyOf(c)] == Class(c.descriptor, c.GetOptions().minorVersion)
  {
    hide KeyOf, PatternMajor;
    RegistryIsBijection(classes);
    assert WellRouted(classes, r);
    var i :| 0 <= i < |classes| && KeyOf(classes[i]) == (r.messageType, version.major);
    assert classes[i] in classes;
  }

  /** The pattern under which a publisher looks up a message's topic. */
  function TopicPattern(version: Version): string {
    Show(version.major) + ".*"
  }

  /** A pattern that passes the check is one that publishers look up if and only if it has no leading zero and no final
      line feed. */
  lemma AcceptedPatternIsLookedUp(pattern: string, version: Version)
    requires PatternMajor(pattern) == Some(version.major)
    ensures pattern == TopicPattern(version)
            <==> pattern[|pattern| - 1] != '\n' && (pattern[0] != '0' || |pattern| == 3)
  {
    hide Show, Value;
    if pattern[|pattern| - 1] != '\n' {
      var digits := pattern[..|pattern| - 2];
      assert pattern == digits + ".*";
      if digits[0] != '0' || |digits| == 1 {
        ShowOfValue(digits);
      } else if pattern == TopicPattern(version) {
        assert Show(version.major) == digits;
        assert Show(0) == "0" by { ShowZero(); }
      }
    }
  }

  /** A configuration with one class and one route. */
  const TRIP := ProtoClass("TripV1", "trip", Some(Options(1, 0, "trip")))

  lemma TripWellDeclared()
    ensures WellFormed([TRIP]) && KeyOf(TRIP) == ("trip", 1)
  {
    hide DigitSuffix;
    assert "TripV1" == "Trip" + "V" + "1" && IsNumeral("1");
    NamePartsExact("TripV1", "Trip", "1");
    assert "1"[..0] == "" && Value("1") == 1;
  }

  lemma OneRouteAccepted(pattern: string)
    requires PatternMajor(pattern) == Some(1)
    ensures Acceptable([TRIP], [Route("trip", pattern)])
  {
    hide PatternMajor, WellFormed, KeyOf;
    TripWellDeclared();
    assert [TRIP][0] == TRIP;
  }

  /** Two accepted configurations under whose pattern no publisher looks up a topic: a leading zero, and a final line
      feed. */
  lemma AcceptedButNeverLookedUp(version: Version)
    ensures Acceptable([TRIP], [Route("trip", "01.*")]) && TopicPattern(version) != "01.*"
    ensures Acceptable([TRIP], [Route("trip", "1.*\n")]) && TopicPattern(version) != "1.*\n"
  {
    hide Acceptable, Show;
    assert "01.*"[..2] == "01" && "01"[..1] == "0" && "0"[..0] == "" && Value("0") == 0 && Value("01") == 1;
    assert "1.*\n"[..3] == "1.*" && "1.*"[..1] == "1" && "1"[..0] == "" && Value("1") == 1;
    OneRouteAccepted("01.*");
    OneRouteAccepted("1.*\n");
    if TopicPattern(version) == "01.*" {
      assert Show(version.major) == "01"[..] by {
        assert TopicPattern(version)[..|Show(version.major)|] == "01.*"[..2];
      }
      ShowZero();
    }
    assert TopicPattern(version)[|TopicPattern(version)| - 1] == '*';
  }

  lemma ShowZero()
    ensures Show(0) == "0"
  {
  }
}
