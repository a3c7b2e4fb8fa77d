/**
 * The .NET integer primitives the tool relies on: decimal rendering
 * (`ToString()` of the unsigned and signed integer types), `Int16.TryParse` /
 * `Int32.TryParse` with their default number style, and the wrap-around of an
 * unchecked `Int32` assignment.
 */
module Numerics {
  import opened Wrappers

  const INT16_MIN: int := -0x8000
  const INT16_MAX: int := 0x7FFF
  const INT32_MIN: int := -0x8000_0000
  const INT32_MAX: int := 0x7FFF_FFFF

  predicate IsDigit(c: char) {
    '0' <= c <= '9'
  }

  predicate AllDigits(s: string) {
    forall k :: 0 <= k < |s| ==> IsDigit(s[k])
  }

  function DigitValue(c: char): (d: nat)
    requires IsDigit(c)
    ensures d < 10
  {
    c as int - '0' as int
  }

  function DigitChar(d: nat): (c: char)
    requires d < 10
    ensures IsDigit(c) && DigitValue(c) == d
  {
    ('0' as int + d) as char
  }

  /** The number a string of decimal digits denotes (most significant digit first). */
  function DigitsValue(s: string): nat
    requires AllDigits(s)
  {
    if s == [] then 0 else DigitsValue(s[..|s| - 1]) * 10 + DigitValue(s[|s| - 1])
  }

  /** `n.ToString()` for an unsigned integer: shortest decimal, no leading zero. */
  function NatToString(n: nat): (s: string)
    ensures 1 <= |s| && AllDigits(s)
    ensures DigitsValue(s) == n
    ensures s[0] == '0' ==> s == "0"
  {
    if n < 10 then [DigitChar(n)]
    else
      var init := NatToString(n / 10);
      var s := init + [DigitChar(n % 10)];
      assert s[..|s| - 1] == init;
      s
  }

  /** `i.ToString()` for a signed integer in the invariant culture. */
  function IntToString(i: int): string {
    if i < 0 then "-" + NatToString(-i) else NatToString(i)
  }

  lemma OneDigit(n: nat)
    requires n < 10
    ensures NatToString(n) == [DigitChar(n)]
  {
  }

  lemma TwoDigits(n: nat)
    requires 10 <= n < 100
    ensures NatToString(n) == [DigitChar(n / 10), DigitChar(n % 10)]
  {
    OneDigit(n / 10);
  }

  lemma ThreeDigits(n: nat)
    requires 100 <= n < 1000
    ensures NatToString(n) == [DigitChar(n / 100), DigitChar(n / 10 % 10), DigitChar(n % 10)]
  {
    TwoDigits(n / 10);
    assert n / 10 / 10 == n / 100;
  }

  lemma FourDigits(n: nat)
    requires 1000 <= n < 10000
    ensures NatToString(n) == [DigitChar(n / 1000), DigitChar(n / 100 % 10), DigitChar(n / 10 % 10), DigitChar(n % 10)]
  {
    ThreeDigits(n / 10);
    assert n / 10 / 100 == n / 1000;
    assert n / 10 / 10 % 10 == n / 100 % 10;
  }

  lemma ValueOfTwo(a: nat, b: nat)
    requires a < 10 && b < 10
    ensures AllDigits([DigitChar(a), DigitChar(b)])
    ensures DigitsValue([DigitChar(a), DigitChar(b)]) == a * 10 + b
  {
    var s := [DigitChar(a), DigitChar(b)];
    assert s[..1] == [DigitChar(a)];
    var t := [DigitChar(a)];
    assert t[..0] == [];
    assert DigitsValue(t) == DigitsValue(t[..0]) * 10 + a;
    assert DigitsValue(s) == DigitsValue(t) * 10 + b;
  }

  lemma ValueOfThree(a: nat, b: nat, c: nat)
    requires a < 10 && b < 10 && c < 10
    ensures AllDigits([DigitChar(a), DigitChar(b), DigitChar(c)])
    ensures DigitsValue([DigitChar(a), DigitChar(b), DigitChar(c)]) == a * 100 + b * 10 + c
  {
    var s := [DigitChar(a), DigitChar(b), DigitChar(c)];
    assert s[..2] == [DigitChar(a), DigitChar(b)];
    ValueOfTwo(a, b);
  }

  lemma ValueOfFour(a: nat, b: nat, c: nat, d: nat)
    requires a < 10 && b < 10 && c < 10 && d < 10
    ensures AllDigits([DigitChar(a), DigitChar(b), DigitChar(c), DigitChar(d)])
    ensures DigitsValue([DigitChar(a), DigitChar(b), DigitChar(c), DigitChar(d)]) == a * 1000 + b * 100 + c * 10 + d
  {
    var s := [DigitChar(a), DigitChar(b), DigitChar(c), DigitChar(d)];
    assert s[..3] == [DigitChar(a), DigitChar(b), DigitChar(c)];
    ValueOfThree(a, b, c);
  }

  /** Decimal rendering is injective: distinct numbers never print alike. */
  lemma NatToStringInjective(a: nat, b: nat)
    requires NatToString(a) == NatToString(b)
    ensures a == b
  {
    assert DigitsValue(NatToString(a)) == a;
  }

  // ----- TryParse -----

  /** The characters .NET's `NumberStyles.Integer` skips at both ends: U+0009..U+000D and U+0020. */
  predicate IsWhite(c: char) {
    c == ' ' || '\t' <= c <= '\r'
  }

  function TrimStart(s: string): (r: string)
    ensures |r| <= |s| && r == s[|s| - |r|..]
    ensures r != [] ==> !IsWhite(r[0])
  {
    if s != [] && IsWhite(s[0]) then TrimStart(s[1..]) else s
  }

  function TrimEnd(s: string): (r: string)
    ensures |r| <= |s| && r == s[..|r|]
    ensures r != [] ==> !IsWhite(r[|r| - 1])
  {
    if s != [] && IsWhite(s[|s| - 1]) then TrimEnd(s[..|s| - 1]) else s
  }

  /** An optional sign followed by at least one decimal digit, nothing else. */
  function SignedValue(s: string): Option<int> {
    if |s| > 0 && (s[0] == '-' || s[0] == '+') then
      var digits := s[1..];
      if digits != [] && AllDigits(digits) then
        Some(if s[0] == '-' then 0 - DigitsValue(digits) else DigitsValue(digits))
      else None
    else if s != [] && AllDigits(s) then Some(DigitsValue(s))
    else None
  }

  /**
   * `TryParse` of an integer type whose range is lo..hi: surrounding white
   * space is skipped, a leading sign is allowed, and the value must fit.
   * None stands for `false`; the out parameter then holds 0.
   */
  function TryParse(s: string, lo: int, hi: int): (r: Option<int>)
    ensures r.Some? ==> lo <= r.value <= hi
  {
    match SignedValue(TrimEnd(TrimStart(s)))
    case Some(v) => if lo <= v <= hi then Some(v) else None
    case None => None
  }

  /** The value `TryParse` leaves in its out parameter. */
  function ParsedOrZero(s: string, lo: int, hi: int): (v: int)
    ensures lo <= 0 <= hi ==> lo <= v <= hi
    ensures TryParse(s, lo, hi).None? ==> v == 0
    ensures TryParse(s, lo, hi).Some? ==> v == TryParse(s, lo, hi).value
  {
    match TryParse(s, lo, hi)
    case Some(v) => v
    case None => 0
  }

  lemma TrimNoWhite(s: string)
    requires s != [] && !IsWhite(s[0]) && !IsWhite(s[|s| - 1])
    ensures TrimEnd(TrimStart(s)) == s
  {
  }

  /** Parsing what `ToString()` printed gives the number back, for every value of the range. */
  lemma SignedValueIntToString(i: int)
    ensures SignedValue(IntToString(i)) == Some(i)
  {
    if i < 0 {
      var d := NatToString(-i);
      var s := "-" + d;
      assert s[1..] == d;
    }
  }

  /** What `ToString()` prints for an integer ends in a digit. */
  lemma IntToStringEndsInDigit(i: int)
    ensures IntToString(i) != [] && IsDigit(IntToString(i)[|IntToString(i)| - 1])
  {
    var s := IntToString(i);
    var d := NatToString(if i < 0 then -i else i);
    assert s[|s| - 1] == d[|d| - 1];
  }

  /** The printed form of an integer, once trimmed, is a signed numeral of that integer. */
  lemma TrimmedIntToString(i: int)
    ensures SignedValue(TrimEnd(TrimStart(IntToString(i)))) == Some(i)
  {
    var s := IntToString(i);
    IntToStringEndsInDigit(i);
    TrimNoWhite(s);
    SignedValueIntToString(i);
  }

  lemma TryParseIntToString(i: int, lo: int, hi: int)
    requires lo <= i <= hi
    ensures TryParse(IntToString(i), lo, hi) == Some(i)
  {
    TrimmedIntToString(i);
  }

  /** A numeral outside the target type's range does not parse. */
  lemma TryParseOutOfRange(i: int, lo: int, hi: int)
    requires i < lo || hi < i
    ensures TryParse(IntToString(i), lo, hi).None?
  {
    TrimmedIntToString(i);
  }

  /** A string without a single digit is never an integer. */
  lemma TryParseNeedsDigit(s: string, lo: int, hi: int)
    requires forall k :: 0 <= k < |s| ==> !IsDigit(s[k])
    ensures TryParse(s, lo, hi) == None
  {
    var t := TrimEnd(TrimStart(s));
    var a := TrimStart(s);
    assert forall k :: 0 <= k < |a| ==> a[k] == s[|s| - |a| + k];
    assert forall k :: 0 <= k < |t| ==> t[k] == a[k];
    if |t| > 0 && (t[0] == '-' || t[0] == '+') && |t| > 1 {
      assert !IsDigit(t[1]);
    } else if t != [] {
      assert !IsDigit(t[0]);
    }
  }

  // ----- unchecked Int32 arithmetic -----

  /** The Int32 that an unchecked C# assignment stores for the mathematical value x. */
  function WrapInt32(x: int): (r: int)
    ensures INT32_MIN <= r <= INT32_MAX
    ensures (r - x) % 0x1_0000_0000 == 0
    ensures INT32_MIN <= x <= INT32_MAX ==> r == x
  {
    (x - INT32_MIN) % 0x1_0000_0000 + INT32_MIN
  }
}
