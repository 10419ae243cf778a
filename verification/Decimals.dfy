/** Decimal numerals as Python prints and parses them. */
module Decimals {
  import opened Results

  predicate IsDigit(c: char) {
    '0' <= c <= '9'
  }

  predicate AllDigits(s: string) {
    forall i | 0 <= i < |s| :: IsDigit(s[i])
  }

  /** The regular expression `\d+` over ASCII. */
  predicate IsNumeral(s: string) {
    s != "" && AllDigits(s)
  }

  function Digit(n: nat): (c: char)
    requires n < 10
    ensures IsDigit(c)
  {
    '0' + n as char
  }

  /** `str` of a natural number. */
  function Show(n: nat): (s: string)
    ensures IsNumeral(s)
    ensures s[0] == '0' ==> n == 0
  {
    if n < 10 then [Digit(n)] else Show(n / 10) + [Digit(n % 10)]
  }

  /** The number a numeral denotes. */
  function Value(s: string): nat
    requires AllDigits(s)
  {
    if s == "" then 0
    else Value(s[..|s| - 1]) * 10 + (s[|s| - 1] - '0') as nat
  }

  lemma {:induction false} ShowValue(n: nat)
    ensures Value(Show(n)) == n
  {
    if n >= 10 {
      ShowValue(n / 10);
      assert Show(n)[..|Show(n)| - 1] == Show(n / 10);
    }
  }

  /** A numeral is what is printed for the number it denotes, unless it has leading zeros. */
  lemma {:induction false} ShowOfValue(s: string)
    requires IsNumeral(s) && (s[0] != '0' || |s| == 1)
    ensures Show(Value(s)) == s
    ensures |s| > 1 ==> Value(s) >= 10
  {
    var last := s[|s| - 1];
    assert s == s[..|s| - 1] + [last];
    if |s| > 1 {
      ShowOfValue(s[..|s| - 1]);
      LeadingDigit(s[..|s| - 1]);
      assert Value(s) / 10 == Value(s[..|s| - 1]) && Digit(Value(s) % 10) == last;
    } else {
      assert Value(s[..0]) == 0 && Digit(Value(s)) == last;
    }
  }

  lemma {:induction false} LeadingDigit(s: string)
    requires IsNumeral(s) && s[0] != '0'
    ensures Value(s) >= 1
  {
    if |s| > 1 { LeadingDigit(s[..|s| - 1]); }
  }

  /** `str` of an integer. */
  function ShowInt(i: int): string {
    if i < 0 then "-" + Show(-i) else Show(i)
  }

  predicate IsSpace(c: char) {
    9 as char <= c <= 13 as char || 28 as char <= c <= 32 as char
  }

  function TrimLeft(s: string): string {
    if s != "" && IsSpace(s[0]) then TrimLeft(s[1..]) else s
  }

  function TrimRight(s: string): string {
    if s != "" && IsSpace(s[|s| - 1]) then TrimRight(s[..|s| - 1]) else s
  }

  /** Digits, with single underscores allowed between two of them. */
  predicate IsGrouped(s: string) {
    && s != ""
    && forall i | 0 <= i < |s| ::
         IsDigit(s[i]) || (s[i] == '_' && 0 < i < |s| - 1 && IsDigit(s[i - 1]) && IsDigit(s[i + 1]))
  }

  function DigitsOnly(s: string): (d: string)
    ensures AllDigits(d)
    ensures AllDigits(s) ==> d == s
  {
    if s == "" then ""
    else DigitsOnly(s[..|s| - 1]) + if IsDigit(s[|s| - 1]) then [s[|s| - 1]] else ""
  }

  function ParseMagnitude(s: string): Option<nat> {
    if IsGrouped(s) then Some(Value(DigitsOnly(s))) else None
  }

  function Negated(m: Option<nat>): Option<int> {
    match m
    case Some(n) => (var i: int := n; Some(-i))
    case None => None
  }

  /** `int` of a string: surrounding white space, a sign, and digits. */
  function ParseInt(s: string): Option<int> {
    var t := TrimRight(TrimLeft(s));
    if t != "" && t[0] == '-' then
      Negated(ParseMagnitude(t[1..]))
    else
      ParseMagnitude(if t != "" && t[0] == '+' then t[1..] else t)
  }

  lemma TrimNothing(s: string)
    requires s != "" && !IsSpace(s[0]) && !IsSpace(s[|s| - 1])
    ensures TrimRight(TrimLeft(s)) == s
  {
    hide IsSpace;
  }

  lemma MagnitudeOfShown(n: nat)
    ensures ParseMagnitude(Show(n)) == Some(n)
  {
    hide Show, Value;
    ShowValue(n);
  }

  /** Every integer is read back from what is printed for it. */
  lemma IntRoundTrip(i: int)
    ensures ParseInt(ShowInt(i)) == Some(i)
  {
    hide Show, Value, ParseMagnitude, TrimLeft, TrimRight;
    var s := ShowInt(i);
    var digits := Show(if i < 0 then -i else i);
    MagnitudeOfShown(if i < 0 then -i else i);
    assert i < 0 ==> s[1..] == digits;
    assert s[|s| - 1] == digits[|digits| - 1];
    TrimNothing(s);
  }

  /** How many digits `s` starts with. */
  function DigitPrefix(s: string): (n: nat)
    ensures n <= |s| && AllDigits(s[..n])
    ensures n < |s| ==> !IsDigit(s[n])
  {
    if s == "" || !IsDigit(s[0]) then 0 else DigitPrefix(s[1..]) + 1
  }

  lemma {:induction false} DigitPrefixIs(a: string, b: string)
    requires AllDigits(a) && (b == "" || !IsDigit(b[0]))
    ensures DigitPrefix(a + b) == |a|
    ensures (a + b)[..|a|] == a && (a + b)[|a|..] == b
  {
    if a != "" {
      assert (a + b)[1..] == a[1..] + b;
      DigitPrefixIs(a[1..], b);
    } else {
      assert a + b == b;
    }
  }

  /** Tab, line feed, vertical tab, form feed, carriage return, the four separators, and space. */
  lemma SpaceIs(c: char)
    ensures IsSpace(c) <==> c in "\t\n\U{0B}\U{0C}\r\U{1C}\U{1D}\U{1E}\U{1F} "
  {
    var spaces := "\t\n\U{0B}\U{0C}\r\U{1C}\U{1D}\U{1E}\U{1F} ";
    assert spaces[0] == 9 as char && spaces[1] == 10 as char && spaces[2] == 11 as char && spaces[3] == 12 as char
           && spaces[4] == 13 as char && spaces[5] == 28 as char && spaces[6] == 29 as char && spaces[7] == 30 as char
           && spaces[8] == 31 as char && spaces[9] == 32 as char;
  }

  predicate AllSpaces(s: string) {
    forall i | 0 <= i < |s| :: IsSpace(s[i])
  }

  lemma {:induction false} TrimsLeft(l: string, x: string)
    requires AllSpaces(l) && (x != "" ==> !IsSpace(x[0]))
    ensures TrimLeft(l + x) == x
  {
    if l == "" {
      assert l + x == x;
    } else {
      assert (l + x)[1..] == l[1..] + x;
      TrimsLeft(l[1..], x);
    }
  }

  lemma {:induction false} TrimsRight(x: string, r: string)
    requires AllSpaces(r) && (x != "" ==> !IsSpace(x[|x| - 1]))
    ensures TrimRight(x + r) == x
  {
    if r == "" {
      assert x + r == x;
    } else {
      assert (x + r)[..|x + r| - 1] == x + r[..|r| - 1];
      TrimsRight(x, r[..|r| - 1]);
    }
  }

  lemma {:induction false} LeftTrimmed(s: string) returns (l: string)
    ensures s == l + TrimLeft(s) && AllSpaces(l)
    ensures TrimLeft(s) != "" ==> !IsSpace(TrimLeft(s)[0])
  {
    l := "";
    if s != "" && IsSpace(s[0]) {
      var rest := LeftTrimmed(s[1..]);
      l := [s[0]] + rest;
    }
  }

  lemma {:induction false} RightTrimmed(s: string) returns (r: string)
    ensures s == TrimRight(s) + r && AllSpaces(r)
  {
    r := "";
    if s != "" && IsSpace(s[|s| - 1]) {
      var rest := RightTrimmed(s[..|s| - 1]);
      r := rest + [s[|s| - 1]];
    }
  }

  /** The texts of one integer: white space, a sign or none, grouped digits, and white space. */
  datatype IntText = IntText(left: string, sign: string, body: string, right: string) {
    ghost predicate Valid() {
      AllSpaces(left) && AllSpaces(right) && (sign == "" || sign == "+" || sign == "-") && IsGrouped(body)
    }

    ghost function Text(): string {
      left + (sign + body) + right
    }

    ghost function Meaning(): int
      requires Valid()
    {
      var magnitude: int := Value(DigitsOnly(body));
      if sign == "-" then -magnitude else magnitude
    }
  }

  /** Every text of that shape is read, as what it says. */
  lemma IntTextParses(t: IntText)
    requires t.Valid()
    ensures ParseInt(t.Text()) == Some(t.Meaning())
  {
    hide TrimLeft, TrimRight, Value, DigitsOnly;
    var x := t.sign + t.body;
    assert IsDigit(t.body[0]) && IsDigit(t.body[|t.body| - 1]);
    assert x[|x| - 1] == t.body[|t.body| - 1];
    assert !IsSpace(x[0]) && !IsSpace(x[|x| - 1]);
    assert t.Text() == t.left + (x + t.right);
    TrimsLeft(t.left, x + t.right);
    TrimsRight(x, t.right);
    if t.sign == "" { assert x == t.body; } else { assert x[1..] == t.body; }
  }

  /** No other text is. */
  lemma AcceptedInt(s: string) returns (t: IntText)
    requires ParseInt(s).Some?
    ensures t.Valid() && s == t.Text()
  {
    hide TrimLeft, TrimRight, Value, DigitsOnly, IsGrouped, IsSpace;
    var l := LeftTrimmed(s);
    var r := RightTrimmed(TrimLeft(s));
    var x := TrimRight(TrimLeft(s));
    var signed := x != "" && (x[0] == '-' || x[0] == '+');
    var sign, body := if signed then [x[0]] else "", if signed then x[1..] else x;
    assert x == sign + body;
    assert s == l + (x + r);
    t := IntText(l, sign, body, r);
  }

  /** Grouped digits are digits, or digits, an underscore and grouped digits; the underscores mean nothing. */
  lemma GroupedIff(s: string)
    ensures IsGrouped(s)
            <==> IsNumeral(s) || exists i | 0 < i < |s| - 1 :: IsNumeral(s[..i]) && s[i] == '_' && IsGrouped(s[i + 1..])
  {
    hide IsDigit;
    if IsGrouped(s) && !IsNumeral(s) {
      var i := DigitPrefix(s);
      assert !IsDigit('_') by { NoDigit(); }
      assert i < |s| && s[i] == '_';
      assert forall k | i < k < |s| :: s[i + 1..][k - i - 1] == s[k];
      assert IsDigit(s[..i][0]);
      assert IsNumeral(s[..i]) && IsGrouped(s[i + 1..]);
    }
    if i :| 0 < i < |s| - 1 && IsNumeral(s[..i]) && s[i] == '_' && IsGrouped(s[i + 1..]) {
      assert forall k | 0 <= k < i :: s[..i][k] == s[k];
      assert forall k | i < k < |s| :: s[i + 1..][k - i - 1] == s[k];
    }
  }

  lemma NoDigit()
    ensures !IsDigit('_')
  {
  }

  lemma {:induction false} DigitsOnlyJoins(a: string, b: string)
    ensures DigitsOnly(a + b) == DigitsOnly(a) + DigitsOnly(b)
  {
    hide IsDigit, AllDigits;
    if b == "" {
      assert a + b == a;
    } else {
      var n := |b| - 1;
      var tail := if IsDigit(b[n]) then [b[n]] else "";
      assert (a + b)[..|a| + n] == a + b[..n] && (a + b)[|a| + n] == b[n];
      DigitsOnlyJoins(a, b[..n]);
      assert DigitsOnly(a + b) == DigitsOnly(a + b[..n]) + tail;
      assert DigitsOnly(b) == DigitsOnly(b[..n]) + tail;
    }
  }

  lemma UnderscoreIsNoDigit()
    ensures DigitsOnly("_") == ""
  {
    assert "_"[..0] == "";
  }

  lemma UnderscoresMeanNothing(a: string, b: string)
    requires AllDigits(a)
    ensures DigitsOnly(a + "_" + b) == a + DigitsOnly(b)
  {
    hide DigitsOnly;
    DigitsOnlyJoins(a + "_", b);
    DigitsOnlyJoins(a, "_");
    UnderscoreIsNoDigit();
    assert a + "" == a;
  }
}
