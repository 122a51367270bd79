/**
 * Decimal rendering of naturals (template-literal interpolation of a number) and
 * the JavaScript `parseInt` algorithm of section 19.2.5 of ECMA-262.
 */
module Numerals {
  import opened Wrappers
  import Text

  /** The digit character for `d` in bases up to 16 (lower case). */
  function DigitChar(d: nat): (c: char)
    requires d < 16
  {
    "0123456789abcdef"[d]
  }

  /** The numeric value of `c` as a digit of base `radix`, if it is one. */
  function DigitValue(c: char, radix: nat): (r: Option<nat>)
    requires 2 <= radix <= 16
    ensures r.Some? ==> r.value < radix
    ensures radix == 10 ==> (r.Some? <==> Text.IsDigit(c))
  {
    var v :=
      if '0' <= c <= '9' then Some(c as int - '0' as int)
      else if 'a' <= c <= 'f' then Some(c as int - 'a' as int + 10)
      else if 'A' <= c <= 'F' then Some(c as int - 'A' as int + 10)
      else None;
    if v.Some? && v.value < radix then Some(v.value) else None
  }

  /** Decimal rendering of a natural number, most significant digit first, no leading zeros. */
  function NatToString(n: nat): (s: string)
    ensures |s| >= 1
    ensures forall i :: 0 <= i < |s| ==> Text.IsDigit(s[i])
    ensures s[0] == '0' ==> n == 0
  {
    if n < 10 then [DigitChar(n)] else NatToString(n / 10) + [DigitChar(n % 10)]
  }

  /** The longest prefix of `s` made of base-`radix` digits. */
  function DigitPrefix(s: string, radix: nat): (r: string)
    requires 2 <= radix <= 16
    ensures |r| <= |s| && r == s[..|r|]
    ensures forall i :: 0 <= i < |r| ==> DigitValue(r[i], radix).Some?
    ensures |r| < |s| ==> DigitValue(s[|r|], radix).None?
  {
    if |s| == 0 || DigitValue(s[0], radix).None? then ""
    else [s[0]] + DigitPrefix(s[1..], radix)
  }

  /** The value of a string of base-`radix` digits, read most significant first. */
  function DigitsValue(ds: string, radix: nat): nat
    requires 2 <= radix <= 16
    requires forall i :: 0 <= i < |ds| ==> DigitValue(ds[i], radix).Some?
  {
    if |ds| == 0 then 0
    else
      var n := |ds| - 1;
      assert forall i :: 0 <= i < n ==> ds[..n][i] == ds[i];
      var high := DigitsValue(ds[..n], radix);
      ProductIsNat(high, radix);
      high * radix + DigitValue(ds[n], radix).value
  }

  lemma ProductIsNat(a: nat, b: nat)
    ensures a * b >= 0
  {
  }

  /** Reading back a decimal rendering yields the number that was rendered. */
  lemma {:induction false} DigitsValueOfNatToString(n: nat)
    ensures DigitsValue(NatToString(n), 10) == n
  {
    var s := NatToString(n);
    DigitCharValue(n % 10);
    if n < 10 {
      assert s[..|s| - 1] == [];
    } else {
      assert s[..|s| - 1] == NatToString(n / 10);
      DigitsValueOfNatToString(n / 10);
    }
  }

  /** A decimal digit character reads back as its value. */
  lemma DigitCharValue(d: nat)
    requires d < 10
    ensures DigitValue(DigitChar(d), 10) == Some(d)
  {
  }

  /** The white-space and line-terminator characters `parseInt` skips (StrWhiteSpaceChar). */
  predicate IsJsWhiteSpace(c: char)
  {
    var n := c as int;
    || 0x09 <= n <= 0x0D  // tab, line feed, vertical tab, form feed, carriage return
    || n == 0x20 || n == 0xA0 || n == 0x1680
    || 0x2000 <= n <= 0x200A
    || n == 0x2028 || n == 0x2029 || n == 0x202F || n == 0x205F
    || n == 0x3000 || n == 0xFEFF
  }

  /** `s` without its leading white space. */
  function TrimStart(s: string): (r: string)
    ensures |r| <= |s| && r == s[|s| - |r|..]
    ensures |r| > 0 ==> !IsJsWhiteSpace(r[0])
    ensures (|s| > 0 && !IsJsWhiteSpace(s[0])) ==> r == s
  {
    if |s| > 0 && IsJsWhiteSpace(s[0]) then TrimStart(s[1..]) else s
  }

  /** Digits (and, without an explicit radix, a `0x` prefix) after the sign, read as a magnitude. */
  function ParseMagnitude(u: string, explicitDecimal: bool): Option<nat>
  {
    var hex := !explicitDecimal && |u| >= 2 && u[0] == '0' && (u[1] == 'x' || u[1] == 'X');
    var radix := if hex then 16 else 10;
    var ds := DigitPrefix(if hex then u[2..] else u, radix);
    if |ds| == 0 then None else Some(DigitsValue(ds, radix))
  }

  /**
   * `parseInt(s, 10)` when `explicitDecimal`, `parseInt(s)` otherwise (which also reads a
   * `0x`/`0X` hexadecimal prefix). `None` stands for `NaN`.
   */
  function ParseInt(s: string, explicitDecimal: bool): (r: Option<int>)
  {
    var t := TrimStart(s);
    var signed := |t| > 0 && (t[0] == '-' || t[0] == '+');
    var u := if signed then t[1..] else t;
    match ParseMagnitude(u, explicitDecimal)
    case None => None
    case Some(v) => Some(if signed && t[0] == '-' then -(v as int) else v as int)
  }

  /** `parseInt` with radix 10 fails exactly when no decimal digit follows the white space and sign. */
  lemma ParseIntDecimalNaN(s: string)
    ensures var t := TrimStart(s);
            var u := if |t| > 0 && (t[0] == '-' || t[0] == '+') then t[1..] else t;
            ParseInt(s, true).None? <==> (|u| == 0 || !Text.IsDigit(u[0]))
  {
  }

  /** `parseInt` reads back every decimal rendering exactly, with or without an explicit radix. */
  lemma ParseIntNatToString(n: nat, explicitDecimal: bool)
    ensures ParseInt(NatToString(n), explicitDecimal) == Some(n)
  {
    var s := NatToString(n);
    assert !IsJsWhiteSpace(s[0]) by {
      assert Text.IsDigit(s[0]);
    }
    ParseIntOfDigits(s, explicitDecimal);
    DigitsValueOfNatToString(n);
  }

  /** A minus sign before a decimal rendering is read back as the negated number. */
  lemma ParseIntNegative(n: nat, explicitDecimal: bool)
    ensures ParseInt("-" + NatToString(n), explicitDecimal) == Some(-(n as int))
  {
    var digits := NatToString(n);
    var s := "-" + digits;
    assert !IsJsWhiteSpace(s[0]);
    assert TrimStart(s) == s;
    assert s[1..] == digits;
    MagnitudeOfDigits(digits, explicitDecimal);
    DigitsValueOfNatToString(n);
  }

  /** On a string of decimal digits, `parseInt` is the value of those digits. */
  lemma ParseIntOfDigits(s: string, explicitDecimal: bool)
    requires |s| >= 1
    requires forall i :: 0 <= i < |s| ==> Text.IsDigit(s[i])
    ensures ParseInt(s, explicitDecimal) == Some(DigitsValue(s, 10) as int)
  {
    DigitIsPlain(s[0]);
    var t := TrimStart(s);
    assert t == s;
    assert !(t[0] == '-' || t[0] == '+');
    MagnitudeOfDigits(s, explicitDecimal);
  }

  /** A decimal digit is neither white space nor a sign. */
  lemma DigitIsPlain(c: char)
    requires Text.IsDigit(c)
    ensures !IsJsWhiteSpace(c) && c != '-' && c != '+'
  {
  }

  /** On a string of decimal digits, the magnitude read is the value of those digits. */
  lemma MagnitudeOfDigits(s: string, explicitDecimal: bool)
    requires |s| >= 1
    requires forall i :: 0 <= i < |s| ==> Text.IsDigit(s[i])
    ensures ParseMagnitude(s, explicitDecimal) == Some(DigitsValue(s, 10))
  {
    assert !(|s| >= 2 && (s[1] == 'x' || s[1] == 'X')) by {
      if |s| >= 2 {
        assert Text.IsDigit(s[1]);
      }
    }
    DigitPrefixAll(s);
  }

  /** A string made only of decimal digits is its own digit prefix. */
  lemma {:induction false} DigitPrefixAll(s: string)
    requires forall i :: 0 <= i < |s| ==> Text.IsDigit(s[i])
    ensures DigitPrefix(s, 10) == s
  {
    if |s| > 0 {
      DigitPrefixAll(s[1..]);
    }
  }
}
