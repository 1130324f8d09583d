/** Integer text conversions of the JavaScript runtime: `String(n)` on an
    integer, template-literal interpolation of a value, and `parseInt`. */
module JsNumber {
  import opened JsValue
  import opened JsText

  predicate IsDigit(c: char) { '0' <= c <= '9' }

  predicate AllDigits(s: string) {
    forall i :: 0 <= i < |s| ==> IsDigit(s[i])
  }

  function DigitChar(d: nat): (c: char)
    requires d < 10
    ensures IsDigit(c) && c as int - '0' as int == d
  {
    ('0' as int + d) as char
  }

  /** The decimal numeral of `n`: digits only, and no leading zero unless
      the numeral is "0" itself. */
  function NatToString(n: nat): (s: string)
    ensures |s| >= 1 && AllDigits(s)
    ensures s[0] == '0' ==> s == "0"
    decreases n
  {
    if n < 10 then [DigitChar(n)] else NatToString(n / 10) + [DigitChar(n % 10)]
  }

  /** `String(i)` for an integer. */
  function IntToString(i: int): (s: string)
    ensures |s| >= 1
    ensures i >= 0 ==> s == NatToString(i)
    ensures i < 0 ==> s == "-" + NatToString(-i)
  {
    if i < 0 then "-" + NatToString(-i) else NatToString(i)
  }

  /** `${v}`: the text a template literal interpolates for a value. */
  function ToText(v: Value): string {
    match v
    case Undefined => "undefined"
    case Null => "null"
    case Bool(b) => if b then "true" else "false"
    case Int(i) => IntToString(i)
    case Str(s) => s
    case Composite(t) => t
  }

  /** The value of a digit character in base 36 (`0-9`, then `a-z` or `A-Z`). */
  function DigitValue(c: char): (d: Option<nat>)
    ensures d.Some? ==> d.value < 36
    ensures IsDigit(c) ==> d == Some(c as int - '0' as int)
  {
    if IsDigit(c) then Some(c as int - '0' as int)
    else if 'a' <= c <= 'z' then Some(c as int - 'a' as int + 10)
    else if 'A' <= c <= 'Z' then Some(c as int - 'A' as int + 10)
    else None
  }

  predicate IsRadixDigit(c: char, radix: nat) {
    DigitValue(c).Some? && DigitValue(c).value < radix
  }

  predicate AllRadixDigits(s: string, radix: nat) {
    forall i :: 0 <= i < |s| ==> IsRadixDigit(s[i], radix)
  }

  /** The longest prefix of `s` made of digits of base `radix`. */
  function LeadingDigits(s: string, radix: nat): (p: string)
    ensures |p| <= |s| && p == s[..|p|]
    ensures AllRadixDigits(p, radix)
    ensures |p| < |s| ==> !IsRadixDigit(s[|p|], radix)
    decreases |s|
  {
    if s != [] && IsRadixDigit(s[0], radix) then [s[0]] + LeadingDigits(s[1..], radix) else []
  }

  /** The number a digit string denotes in base `radix`, most significant digit first. */
  function RadixValue(p: string, radix: nat): nat
    requires AllRadixDigits(p, radix)
    decreases |p|
  {
    if p == [] then 0
    else
      var q := p[..|p| - 1];
      assert forall i :: 0 <= i < |q| ==> q[i] == p[i];
      var high := RadixValue(q, radix);
      MulNonNegative(high, radix);
      high * radix + DigitValue(p[|p| - 1]).value
  }

  lemma MulNonNegative(a: nat, b: nat)
    ensures a * b >= 0
  {
  }

  /** `parseInt(s)` with no radix argument: leading white space is skipped,
      an optional sign is read, and the magnitude follows; `None` is `NaN`. */
  function ParseInt(s: string): (r: Option<int>)
    ensures r.Some? ==> Unsigned(TrimStart(s)) != [] && IsDigit(Unsigned(TrimStart(s))[0])
    ensures r.Some? && r.value < 0 ==> TrimStart(s)[0] == '-'
  {
    var t := TrimStart(s);
    var negative := t != [] && t[0] == '-';
    match ParseMagnitude(Unsigned(t))
    case None => None
    case Some(m) => Some(if negative then -(m as int) else m)
  }

  /** The text after one optional leading sign. */
  function Unsigned(t: string): (u: string)
    ensures u == t || (t != [] && (t[0] == '-' || t[0] == '+') && u == t[1..])
  {
    if t != [] && (t[0] == '-' || t[0] == '+') then t[1..] else t
  }

  predicate HasHexPrefix(u: string) {
    |u| >= 2 && u[0] == '0' && (u[1] == 'x' || u[1] == 'X')
  }

  /** The magnitude `parseInt` reads after the sign: a `0x`/`0X` prefix
      selects base 16, otherwise base 10, and the longest run of digits of
      that base is converted; `None` when there is no such digit. */
  function ParseMagnitude(u: string): (m: Option<nat>)
    ensures m.Some? ==> u != [] && IsDigit(u[0])
  {
    var radix := if HasHexPrefix(u) then 16 else 10;
    var digits := LeadingDigits(if HasHexPrefix(u) then u[2..] else u, radix);
    if digits == [] then None
    else
      assert HasHexPrefix(u) || (digits[0] == u[0] && IsRadixDigit(u[0], 10));
      Some(RadixValue(digits, radix))
  }

  /** `parseInt(s) || 0`: `NaN` (and 0 itself) become 0. */
  function ParseIntOrZero(s: string): (n: int)
    ensures ParseInt(s).None? ==> n == 0
    ensures ParseInt(s).Some? ==> n == ParseInt(s).value
  {
    match ParseInt(s)
    case None => 0
    case Some(n) => n
  }
}

/** What `parseInt` gives back for the numerals `String(i)` prints. */
module JsNumberFacts {
  import opened JsValue
  import opened JsText
  import opened JsNumber

  /** A decimal numeral denotes the number it was printed from. */
  lemma {:induction false} RadixValueOfNatToString(n: nat)
    ensures AllRadixDigits(NatToString(n), 10)
    ensures RadixValue(NatToString(n), 10) == n
    decreases n
  {
    var s := NatToString(n);
    assert forall i :: 0 <= i < |s| ==> DigitValue(s[i]) == Some(s[i] as int - '0' as int);
    if n >= 10 {
      RadixValueOfNatToString(n / 10);
      assert s[..|s| - 1] == NatToString(n / 10);
    }
  }

  /** The leading digits of a numeral followed by a non-digit are the numeral. */
  lemma {:induction false} LeadingDigitsStopAt(d: string, rest: string)
    requires AllRadixDigits(d, 10)
    requires rest == [] || !IsRadixDigit(rest[0], 10)
    ensures LeadingDigits(d + rest, 10) == d
    decreases |d|
  {
    if d != [] {
      LeadingDigitsStopAt(d[1..], rest);
      assert (d + rest)[1..] == d[1..] + rest;
    }
  }

  lemma WhitespaceIsNoDigit(c: char)
    requires IsWhitespace(c)
    ensures !IsRadixDigit(c, 10) && c != 'x' && c != 'X'
  {
  }

  /** The magnitude read from a numeral followed by white space (or by
      nothing) is the number the numeral was printed from. */
  lemma MagnitudeOfNumeral(n: nat, rest: string)
    requires rest == [] || IsWhitespace(rest[0])
    ensures ParseMagnitude(NatToString(n) + rest) == Some(n)
    ensures var u := NatToString(n) + rest; u != [] && IsDigit(u[0])
  {
    var d := NatToString(n);
    RadixValueOfNatToString(n);
    if rest != [] {
      WhitespaceIsNoDigit(rest[0]);
    }
    LeadingDigitsStopAt(d, rest);
    if |d + rest| >= 2 && d[0] == '0' {
      assert d == "0";
      assert (d + rest)[1] == rest[0];
    }
    assert !HasHexPrefix(d + rest);
  }

  /** `parseInt` of a digit-led text is its magnitude. */
  lemma ParseIntOfDigits(u: string, n: nat)
    requires u != [] && IsDigit(u[0]) && ParseMagnitude(u) == Some(n)
    ensures ParseInt(u) == Some(n as int)
  {
    UnsignedDigits(u);
  }

  /** A digit-led text is read without white space or a sign. */
  lemma UnsignedDigits(u: string)
    requires u != [] && IsDigit(u[0])
    ensures TrimStart(u) == u && Unsigned(u) == u && u[0] != '-'
  {
    TrimStartKeeps(u);
  }

  /** `parseInt` of a minus sign and a digit-led text is the negated magnitude. */
  lemma ParseIntOfNegatedDigits(s: string, u: string, n: nat)
    requires s == "-" + u && u != [] && IsDigit(u[0]) && ParseMagnitude(u) == Some(n)
    ensures ParseInt(s) == Some(-(n as int))
  {
    MinusSign(u);
  }

  /** A minus sign in front of a text is read as the sign, not skipped. */
  lemma MinusSign(u: string)
    ensures var s := "-" + u; TrimStart(s) == s && s[0] == '-' && Unsigned(s) == u
  {
    var s := "-" + u;
    TrimStartKeeps(s);
    assert s[1..] == u;
  }

  /** `parseInt` reads back an integer's numeral up to the white space (or
      the end) that follows it, whatever comes after. */
  lemma ParseIntReadsNumeral(i: int, rest: string)
    requires rest == [] || IsWhitespace(rest[0])
    ensures ParseInt(IntToString(i) + rest) == Some(i)
  {
    if i < 0 {
      ReadsNegativeNumeral(i, rest);
    } else {
      ReadsNaturalNumeral(i, rest);
    }
  }

  lemma ReadsNaturalNumeral(i: int, rest: string)
    requires i >= 0
    requires rest == [] || IsWhitespace(rest[0])
    ensures ParseInt(IntToString(i) + rest) == Some(i)
  {
    MagnitudeOfNumeral(i, rest);
    ParseIntOfDigits(NatToString(i) + rest, i);
  }

  lemma ReadsNegativeNumeral(i: int, rest: string)
    requires i < 0
    requires rest == [] || IsWhitespace(rest[0])
    ensures ParseInt(IntToString(i) + rest) == Some(i)
  {
    var n: nat := -i;
    var u := NatToString(n) + rest;
    MinusThenDigits(i, rest);
    MagnitudeOfNumeral(n, rest);
    ParseIntOfNegatedDigits(IntToString(i) + rest, u, n);
  }

  lemma MinusThenDigits(i: int, rest: string)
    requires i < 0
    ensures IntToString(i) + rest == "-" + (NatToString(-i) + rest)
  {
  }

  /** `parseInt(String(i)) === i` for every integer. */
  lemma ParseIntOfIntToString(i: int)
    ensures ParseInt(IntToString(i)) == Some(i)
  {
    ParseIntReadsNumeral(i, "");
    assert IntToString(i) + "" == IntToString(i);
  }

  /** A numeral after a fixed prefix is cut out again by slicing at the
      prefix's length and reads back as its number; prefixed numerals of
      different numbers differ. */
  lemma PrefixedNumeral(prefix: string, i: nat, j: nat)
    ensures (prefix + NatToString(i))[|prefix|..] == NatToString(i)
    ensures ParseInt(NatToString(i)) == Some(i)
    ensures prefix + NatToString(i) == prefix + NatToString(j) ==> i == j
  {
    assert (prefix + NatToString(i))[|prefix|..] == NatToString(i);
    assert (prefix + NatToString(j))[|prefix|..] == NatToString(j);
    ParseIntOfIntToString(i);
    ParseIntOfIntToString(j);
  }

  /** Different integers print differently. */
  lemma IntToStringInjective(i: int, j: int)
    ensures IntToString(i) == IntToString(j) ==> i == j
  {
    ParseIntOfIntToString(i);
    ParseIntOfIntToString(j);
  }
}
