/** Data schema versions: two or three numbers and an optional pre-release tag. */
module Versions {
  import opened Results
  import opened Decimals

  datatype Tag = Release | Alpha(number: nat) | Beta(number: nat)

  datatype Version = Version(major: nat, minor: nat, patch: nat, tag: Tag)

  /** `str` of a version: a zero patch number is left out. */
  function ShowVersion(v: Version): string {
    Show(v.major) + "." + Show(v.minor) + (if v.patch == 0 then "" else "." + Show(v.patch)) + ShowTag(v.tag)
  }

  function ShowTag(t: Tag): string {
    match t
    case Release => ""
    case Alpha(n) => "a" + Show(n)
    case Beta(n) => "b" + Show(n)
  }

  /** The anchored pattern also matches before one final line feed. */
  function ParseVersion(s: string): Option<Version> {
    ParseNumbers(if s != "" && s[|s| - 1] == '\n' then s[..|s| - 1] else s)
  }

  function ParseNumbers(s: string): Option<Version> {
    var i := DigitPrefix(s);
    if i == 0 || i == |s| || s[i] != '.' then None
    else
      var rest := s[i + 1..];
      var j := DigitPrefix(rest);
      if j == 0 then None else ParsePatch(Value(s[..i]), Value(rest[..j]), rest[j..])
  }

  function ParsePatch(major: nat, minor: nat, s: string): Option<Version> {
    if s != "" && s[0] == '.' then
      var k := DigitPrefix(s[1..]);
      if k == 0 then None else ParseTag(major, minor, Value(s[1..][..k]), s[1..][k..])
    else
      ParseTag(major, minor, 0, s)
  }

  function ParseTag(major: nat, minor: nat, patch: nat, s: string): Option<Version> {
    if s == "" then Some(Version(major, minor, patch, Release))
    else if s[0] == 'a' && IsNumeral(s[1..]) then Some(Version(major, minor, patch, Alpha(Value(s[1..]))))
    else if s[0] == 'b' && IsNumeral(s[1..]) then Some(Version(major, minor, patch, Beta(Value(s[1..]))))
    else None
  }

  /** The parts of a version string; a missing part is the empty string. */
  datatype Parts = Parts(major: string, minor: string, patch: string, letter: string, number: string) {
    ghost predicate Valid() {
      && IsNumeral(major) && IsNumeral(minor) && AllDigits(patch)
      && ((letter == "" && number == "") || (letter in ["a", "b"] && IsNumeral(number)))
    }

    ghost function Text(): string {
      major + "." + minor + (if patch == "" then "" else "." + patch) + (letter + number)
    }

    ghost function Meaning(): Version
      requires Valid()
    {
      Version(Value(major), Value(minor), Value(patch),
              if letter == "" then Release else if letter == "a" then Alpha(Value(number)) else Beta(Value(number)))
    }
  }

  lemma TagParses(major: nat, minor: nat, patch: nat, p: Parts)
    requires p.Valid() && Value(p.major) == major && Value(p.minor) == minor && Value(p.patch) == patch
    ensures ParseTag(major, minor, patch, p.letter + p.number) == Some(p.Meaning())
    ensures p.letter + p.number == "" || (p.letter + p.number)[0] in "ab"
  {
    if p.letter != "" {
      assert (p.letter + p.number)[1..] == p.number;
    }
  }

  lemma PatchParses(p: Parts)
    requires p.Valid()
    ensures var s := (if p.patch == "" then "" else "." + p.patch) + (p.letter + p.number);
            && ParsePatch(Value(p.major), Value(p.minor), s) == Some(p.Meaning())
            && (s == "" || !IsDigit(s[0]))
  {
    hide ParseTag, Parts.Meaning, Value;
    var end := p.letter + p.number;
    TagParses(Value(p.major), Value(p.minor), Value(p.patch), p);
    if p.patch == "" {
      assert Value("") == 0 by { EmptyValue(); }
      assert "" + end == end;
    } else {
      assert ("." + p.patch + end)[1..] == p.patch + end;
      DigitPrefixIs(p.patch, end);
    }
  }

  lemma EmptyValue()
    ensures Value("") == 0
  {
  }

  lemma NumbersParse(p: Parts)
    requires p.Valid()
    ensures ParseNumbers(p.Text()) == Some(p.Meaning())
  {
    hide ParsePatch, Parts.Meaning, Parts.Text, Value, DigitPrefix;
    var tail := (if p.patch == "" then "" else "." + p.patch) + (p.letter + p.number);
    PatchParses(p);
    TextOf(p, tail);
    var text := p.Text();
    assert text[..|p.major|] == p.major && text[|p.major| + 1..] == p.minor + tail && DigitPrefix(text) == |p.major|
    by {
      DigitPrefixIs(p.major, "." + (p.minor + tail));
    }
    DigitPrefixIs(p.minor, tail);
  }

  lemma AcceptedTag(major: nat, minor: nat, patch: nat, s: string) returns (letter: string, number: string)
    requires ParseTag(major, minor, patch, s).Some?
    ensures s == letter + number
    ensures (letter == "" && number == "") || (letter in ["a", "b"] && IsNumeral(number))
  {
    hide IsNumeral;
    letter, number := "", "";
    if s != "" {
      letter, number := [s[0]], s[1..];
    }
  }

  lemma AcceptedPatch(major: nat, minor: nat, s: string) returns (patch: string, letter: string, number: string)
    requires ParsePatch(major, minor, s).Some?
    ensures s == (if patch == "" then "" else "." + patch) + (letter + number) && AllDigits(patch)
    ensures (letter == "" && number == "") || (letter in ["a", "b"] && IsNumeral(number))
  {
    hide Value, ParseTag, DigitPrefix, IsNumeral;
    patch := "";
    if s != "" && s[0] == '.' {
      var k := DigitPrefix(s[1..]);
      patch := s[1..][..k];
      letter, number := AcceptedTag(major, minor, Value(patch), s[1..][k..]);
      assert s == "." + (patch + s[1..][k..]);
    } else {
      letter, number := AcceptedTag(major, minor, 0, s);
    }
  }

  lemma TextOf(p: Parts, tail: string)
    requires tail == (if p.patch == "" then "" else "." + p.patch) + (p.letter + p.number)
    ensures p.Text() == p.major + ("." + (p.minor + tail))
  {
  }

  lemma Cut(s: string, i: nat, j: nat)
    requires i < |s| && s[i] == '.' && i + 1 + j <= |s|
    ensures s == s[..i] + ("." + (s[i + 1..][..j] + s[i + 1..][j..]))
  {
    assert s[i + 1..] == s[i + 1..][..j] + s[i + 1..][j..];
  }

  lemma NumbersShape(s: string) returns (p: Parts)
    requires ParseNumbers(s).Some?
    ensures p.Valid() && p.Text() == s
  {
    hide Value, ParsePatch, DigitPrefix, Parts.Text;
    var i := DigitPrefix(s);
    var rest := s[i + 1..];
    var j := DigitPrefix(rest);
    var patch, letter, number := AcceptedPatch(Value(s[..i]), Value(rest[..j]), rest[j..]);
    p := Parts(s[..i], rest[..j], patch, letter, number);
    TextOf(p, rest[j..]);
    Cut(s, i, j);
  }

  /** A version string ends in a digit. */
  lemma TextEnd(p: Parts)
    requires p.Valid()
    ensures p.Text() != "" && p.Text()[|p.Text()| - 1] != '\n'
  {
    var last := if p.number != "" then p.number else if p.patch != "" then p.patch else p.minor;
    assert IsDigit(last[|last| - 1]) && p.Text()[|p.Text()| - 1] == last[|last| - 1];
  }

  /** Any string of the right shape is accepted and means what its parts say, with or without a final line feed. */
  lemma ShapeParses(p: Parts)
    requires p.Valid()
    ensures ParseVersion(p.Text()) == Some(p.Meaning()) && ParseVersion(p.Text() + "\n") == Some(p.Meaning())
  {
    hide ParseNumbers, Parts.Text, Parts.Meaning, Parts.Valid;
    TextEnd(p);
    NumbersParse(p);
    assert (p.Text() + "\n")[..|p.Text()|] == p.Text();
  }

  /** Nothing else is accepted. */
  lemma AcceptedShape(s: string) returns (p: Parts)
    requires ParseVersion(s).Some?
    ensures p.Valid() && (s == p.Text() || s == p.Text() + "\n") && ParseVersion(s) == Some(p.Meaning())
  {
    hide ParseNumbers, Parts.Text, Parts.Meaning, Parts.Valid;
    var t := if s != "" && s[|s| - 1] == '\n' then s[..|s| - 1] else s;
    p := NumbersShape(t);
    NumbersParse(p);
    if t != s { assert s == t + "\n"; }
  }

  /** The parts of what `str` prints. */
  function ShownParts(v: Version): Parts {
    Parts(Show(v.major), Show(v.minor), if v.patch == 0 then "" else Show(v.patch),
          if v.tag.Release? then "" else if v.tag.Alpha? then "a" else "b",
          if v.tag.Release? then "" else Show(v.tag.number))
  }

  /** Every version, with or without patch number and pre-release tag, is read back from what is printed for it. */
  lemma VersionRoundTrip(v: Version)
    ensures ParseVersion(ShowVersion(v)) == Some(v)
  {
    hide Show, Value, ParseNumbers;
    ShowValue(v.major);
    ShowValue(v.minor);
    ShowValue(v.patch);
    if !v.tag.Release? { ShowValue(v.tag.number); }
    EmptyValue();
    var p := ShownParts(v);
    assert p.letter + p.number == ShowTag(v.tag);
    assert p.Text() == ShowVersion(v);
    ShapeParses(p);
  }

  /** A printed version has no slash and no line feed in it. */
  lemma ShownEnd(v: Version)
    ensures ShowVersion(v) != "" && forall i | 0 <= i < |ShowVersion(v)| :: ShowVersion(v)[i] !in "/\n"
  {
    hide Show;
  }
}
