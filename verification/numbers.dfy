/**
 * Integer text conversions with JavaScript semantics: `Number.prototype.toString()` on an
 * integral number and the global `parseInt(s)` with no radix argument.
 */
module Numbers {

  /** The result of `parseInt`: a (possibly negative) integer, or NaN. */
  datatype Num = NaN | Int(value: int) {
    /** JavaScript truthiness of a number: NaN and zero (including -0) are falsy. */
    predicate Truthy()
    {
      Int? && value != 0
    }
  }

  /** The two bases `parseInt` reads without a radix argument: 10, or 16 after `0x`. */
  type Radix = r: int | r == 10 || r == 16 witness 10

  predicate IsDigitOf(c: char, radix: Radix)
  {
    if radix == 16 then ('0' <= c <= '9' || 'a' <= c <= 'f' || 'A' <= c <= 'F')
    else '0' <= c <= '9'
  }

  function DigitValue(c: char, radix: Radix): (d: nat)
    requires IsDigitOf(c, radix)
    ensures d < (if radix == 16 then 16 else 10)
  {
    if '0' <= c <= '9' then c as int - '0' as int
    else if 'a' <= c <= 'f' then c as int - 'a' as int + 10
    else c as int - 'A' as int + 10
  }

  predicate AllDigits(s: string, radix: Radix)
  {
    forall i :: 0 <= i < |s| ==> IsDigitOf(s[i], radix)
  }

  /** The value of a digit string, most significant digit first. */
  function DigitsValue(s: string, radix: Radix): nat
    requires AllDigits(s, radix)
  {
    if |s| == 0 then 0
    else DigitsValue(s[..|s| - 1], radix) * (if radix == 16 then 16 else 10) + DigitValue(s[|s| - 1], radix)
  }

  /** The longest prefix of `s` made of digits of the radix (where `parseInt` stops reading). */
  function DigitPrefix(s: string, radix: Radix): (p: string)
    ensures |p| <= |s| && p == s[..|p|]
    ensures AllDigits(p, radix)
    ensures |p| < |s| ==> !IsDigitOf(s[|p|], radix)
  {
    if |s| == 0 || !IsDigitOf(s[0], radix) then ""
    else [s[0]] + DigitPrefix(s[1..], radix)
  }

  /** The characters `parseInt` skips at the front: the ECMAScript WhiteSpace and LineTerminator code points. */
  predicate IsSpace(c: char)
  {
    c == ' ' || c == '\t' || c == '\n' || c == '\r' || c == '\U{B}' || c == '\U{C}'
    || c == '\U{A0}' || c == '\U{1680}' || ('\U{2000}' <= c <= '\U{200A}')
    || c == '\U{2028}' || c == '\U{2029}' || c == '\U{202F}' || c == '\U{205F}'
    || c == '\U{3000}' || c == '\U{FEFF}'
  }

  function TrimStart(s: string): (t: string)
    ensures |t| <= |s| && t == s[|s| - |t|..]
    ensures |t| > 0 ==> !IsSpace(t[0])
  {
    if |s| > 0 && IsSpace(s[0]) then TrimStart(s[1..]) else s
  }

  /** Global `parseInt(s)`: skip white space, read an optional sign, then an unsigned number. */
  function ParseInt(s: string): (n: Num)
  {
    var t := TrimStart(s);
    if |t| > 0 && t[0] == '-' then Negate(ParseUnsigned(t[1..]))
    else if |t| > 0 && t[0] == '+' then ParseUnsigned(t[1..])
    else ParseUnsigned(t)
  }

  function Negate(n: Num): Num
  {
    match n
    case NaN => NaN
    case Int(v) => Int(-v)
  }

  /** After the sign: a `0x`/`0X` prefix selects radix 16, then the longest digit prefix is read; no digit at all is NaN. */
  function ParseUnsigned(u: string): (n: Num)
    ensures n.Int? ==> n.value >= 0
  {
    var hex := |u| >= 2 && u[0] == '0' && (u[1] == 'x' || u[1] == 'X');
    var radix := if hex then 16 else 10;
    var digits := DigitPrefix(if hex then u[2..] else u, radix);
    if |digits| == 0 then NaN else Int(DigitsValue(digits, radix))
  }

  function DigitChar(d: nat): (c: char)
    requires d < 10
    ensures IsDigitOf(c, 10) && DigitValue(c, 10) == d
  {
    ('0' as int + d) as char
  }

  /** Decimal text of a natural number, without leading zeros. */
  function NatToString(n: nat): (s: string)
    ensures |s| >= 1 && AllDigits(s, 10)
    ensures s[0] == '0' ==> n == 0
  {
    if n < 10 then [DigitChar(n)] else NatToString(n / 10) + [DigitChar(n % 10)]
  }

  /** `n.toString()` for an integral number (below 10^21 in magnitude, where JavaScript stays in plain decimal). */
  function IntToString(n: int): string
  {
    if n < 0 then "-" + NatToString(-n) else NatToString(n)
  }

  lemma {:induction false} NatToStringValue(n: nat)
    ensures DigitsValue(NatToString(n), 10) == n
  {
    if n >= 10 {
      var s := NatToString(n);
      NatToStringValue(n / 10);
      assert s[..|s| - 1] == NatToString(n / 10);
    }
  }

  /** The digit prefix of a digit string followed by a non-digit is that digit string. */
  lemma {:induction false} DigitPrefixStops(digits: string, rest: string, radix: Radix)
    requires AllDigits(digits, radix)
    requires |rest| > 0 ==> !IsDigitOf(rest[0], radix)
    ensures DigitPrefix(digits + rest, radix) == digits
  {
    if |digits| > 0 {
      DigitPrefixStops(digits[1..], rest, radix);
      assert (digits + rest)[1..] == digits[1..] + rest;
      assert [digits[0]] + digits[1..] == digits;
    } else {
      assert digits + rest == rest;
    }
  }

  /** Decimal text followed by anything that is not a digit (nor an `x` right after a lone `0`) reads back as its value. */
  lemma ParseUnsignedDecimal(n: nat, rest: string)
    requires |rest| > 0 ==> !IsDigitOf(rest[0], 10) && rest[0] != 'x' && rest[0] != 'X'
    ensures ParseUnsigned(NatToString(n) + rest) == Int(n)
  {
    var digits := NatToString(n);
    var u := digits + rest;
    NatToStringValue(n);
    DigitPrefixStops(digits, rest, 10);
    if |u| >= 2 {
      if |digits| >= 2 {
        assert u[1] == digits[1] && IsDigitOf(digits[1], 10);
      } else {
        assert u[1] == rest[0];
      }
    }
  }

  /**
   * `parseInt(n.toString() + rest) === n` when `rest` does not continue the number:
   * `parseInt` reads exactly the digits `toString` wrote and stops where they end.
   */
  lemma ParseIntPrefix(n: int, rest: string)
    requires |rest| > 0 ==> !IsDigitOf(rest[0], 10) && rest[0] != 'x' && rest[0] != 'X'
    ensures ParseInt(IntToString(n) + rest) == Int(n)
  {
    if n < 0 {
      NegativePrefix(-n, rest);
    } else {
      NaturalPrefix(n, rest);
    }
  }

  lemma NaturalPrefix(m: nat, rest: string)
    requires |rest| > 0 ==> !IsDigitOf(rest[0], 10) && rest[0] != 'x' && rest[0] != 'X'
    ensures ParseInt(NatToString(m) + rest) == Int(m)
  {
    var u := NatToString(m) + rest;
    ParseUnsignedDecimal(m, rest);
    assert u[0] == NatToString(m)[0];
    ParseIntDigits(u);
  }

  lemma NegativePrefix(m: nat, rest: string)
    requires |rest| > 0 ==> !IsDigitOf(rest[0], 10) && rest[0] != 'x' && rest[0] != 'X'
    ensures ParseInt("-" + NatToString(m) + rest) == Int(-(m as int))
  {
    var u := NatToString(m) + rest;
    ParseUnsignedDecimal(m, rest);
    assert u[0] == NatToString(m)[0];
    assert "-" + NatToString(m) + rest == "-" + u;
    ParseIntSigned(u);
  }

  lemma ParseIntDigits(u: string)
    requires |u| > 0 && IsDigitOf(u[0], 10)
    ensures ParseInt(u) == ParseUnsigned(u)
  {
    assert !IsSpace(u[0]);
    assert TrimStart(u) == u;
    assert u[0] != '-' && u[0] != '+';
  }

  lemma ParseIntSigned(u: string)
    requires |u| > 0 && IsDigitOf(u[0], 10)
    ensures ParseInt("-" + u) == Negate(ParseUnsigned(u))
  {
    var s := "-" + u;
    assert TrimStart(s) == s;
    assert s[1..] == u;
  }

  /** `parseInt(n.toString()) === n`: the decimal text of an integer reads back as the same integer. */
  lemma ParseIntRoundTrip(n: int)
    ensures ParseInt(IntToString(n)) == Int(n)
  {
    ParseIntPrefix(n, "");
    assert IntToString(n) + "" == IntToString(n);
  }
}
