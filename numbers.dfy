/**
 * Decimal rendering of naturals (template-literal interpolation of a count)
 * and JavaScript's `parseInt` with no radix argument.
 */
module Numbers {
  import opened Wrappers
  import opened Text

  predicate IsDecimalDigit(c: char) { '0' <= c <= '9' }

  /** The value of `c` as a digit of `radix` (10 or 16), if it is one. */
  function DigitValue(c: char, radix: nat): Option<nat> {
    if '0' <= c <= '9' && (c as int - '0' as int) < radix then Some(c as int - '0' as int)
    else if radix == 16 && 'a' <= c <= 'f' then Some(c as int - 'a' as int + 10)
    else if radix == 16 && 'A' <= c <= 'F' then Some(c as int - 'A' as int + 10)
    else None
  }

  predicate AllDigits(s: string, radix: nat) {
    forall i :: 0 <= i < |s| ==> DigitValue(s[i], radix).Some?
  }

  /** Length of the longest prefix of `s` made of digits of `radix`. */
  function DigitPrefixLength(s: string, radix: nat): (n: nat)
    ensures n <= |s| && AllDigits(s[..n], radix)
    ensures n < |s| ==> DigitValue(s[n], radix).None?
  {
    if s != [] && DigitValue(s[0], radix).Some? then 1 + DigitPrefixLength(s[1..], radix) else 0
  }

  /** The number a digit string denotes in `radix`, most significant digit first. */
  function DigitsValue(ds: string, radix: nat): nat
    requires AllDigits(ds, radix)
  {
    if ds == [] then 0
    else DigitsValue(ds[..|ds| - 1], radix) * radix + DigitValue(ds[|ds| - 1], radix).value
  }

  /** The digits after the sign: radix 16 after a `0x`/`0X` prefix, then the longest digit prefix. */
  function ParseUnsigned(u: string): Option<nat> {
    var hex := |u| >= 2 && u[0] == '0' && (u[1] == 'x' || u[1] == 'X');
    var radix := if hex then 16 else 10;
    var body := if hex then u[2..] else u;
    var digits := body[..DigitPrefixLength(body, radix)];
    if digits == [] then None else Some(DigitsValue(digits, radix))
  }

  /** An optional sign, then the digits. */
  function ParseSigned(t: string): Option<int> {
    if t != [] && (t[0] == '-' || t[0] == '+') then
      match ParseUnsigned(t[1..])
      case None => None
      case Some(v) => if t[0] == '-' then Some(-(v as int)) else Some(v as int)
    else
      match ParseUnsigned(t)
      case None => None
      case Some(v) => Some(v as int)
  }

  /** `parseInt(s)` with no radix argument; `None` stands for `NaN`. Blank text is `NaN`. */
  function ParseInt(s: string): (r: Option<int>)
    ensures AllWhitespace(s) ==> r.None?
  {
    ParseSigned(TrimStart(s))
  }

  function DigitChar(d: nat): char
    requires d < 10
  {
    ('0' as int + d) as char
  }

  /** The decimal form of `n`: digits only, with no leading zero unless `n` is zero. */
  function NatToString(n: nat): (s: string)
    ensures s != [] && forall i :: 0 <= i < |s| ==> IsDecimalDigit(s[i])
    ensures s[0] == '0' ==> n == 0
  {
    if n < 10 then [DigitChar(n)] else NatToString(n / 10) + [DigitChar(n % 10)]
  }

  /** Reading back the decimal digits of `n` gives `n`. */
  lemma {:induction false} NatToStringValue(n: nat)
    ensures AllDigits(NatToString(n), 10)
    ensures DigitsValue(NatToString(n), 10) == n
  {
    var s := NatToString(n);
    assert AllDigits(s, 10) by {
      forall i | 0 <= i < |s| ensures DigitValue(s[i], 10).Some? {
        assert IsDecimalDigit(s[i]);
      }
    }
    if n >= 10 {
      assert s[..|s| - 1] == NatToString(n / 10);
      NatToStringValue(n / 10);
    }
  }

  lemma {:induction false} DigitPrefixOfDigits(s: string, radix: nat)
    requires AllDigits(s, radix)
    ensures DigitPrefixLength(s, radix) == |s|
    decreases |s|
  {
    if s != [] {
      DigitPrefixOfDigits(s[1..], radix);
    }
  }

  /** The digits of `n`, read after any sign, give `n`. */
  lemma ParseUnsignedDecimal(n: nat)
    ensures ParseUnsigned(NatToString(n)) == Some(n)
  {
    var s := NatToString(n);
    NatToStringValue(n);
    DigitPrefixOfDigits(s, 10);
    assert s[..|s|] == s;
  }

  /** `parseInt` reads back every count the application renders: `parseInt(String(n)) == n`. */
  lemma ParseIntRoundTrip(n: nat)
    ensures ParseInt(NatToString(n)) == Some(n)
  {
    var s := NatToString(n);
    assert IsDecimalDigit(s[0]);
    assert !IsWhitespace(s[0]);
    assert TrimStart(s) == s;
    assert s[0] != '-' && s[0] != '+';
    ParseUnsignedDecimal(n);
  }

  /** `parseInt` ignores leading whitespace. */
  lemma ParseIntPadded(p: string, t: string)
    requires AllWhitespace(p)
    ensures ParseInt(p + t) == ParseInt(t)
  {
    TrimStartPadded(p, t);
  }

  /** Without leading whitespace `parseInt` starts at the sign. */
  lemma ParseIntUnpadded(t: string)
    requires t != [] && !IsWhitespace(t[0])
    ensures ParseInt(t) == ParseSigned(t)
  {
  }

  /** A sign character followed by the digits of `n`. */
  lemma ParseSignedDecimal(sign: char, n: nat)
    requires sign == '+' || sign == '-'
    ensures ParseSigned([sign] + NatToString(n)) == Some(if sign == '-' then -(n as int) else n as int)
  {
    var t := [sign] + NatToString(n);
    assert t[1..] == NatToString(n);
    ParseUnsignedDecimal(n);
  }

  /** An explicit plus sign is skipped and a minus sign negates, after any leading whitespace. */
  lemma ParseIntSigned(p: string, sign: char, n: nat)
    requires AllWhitespace(p)
    requires sign == '+' || sign == '-'
    ensures ParseInt(p + [sign] + NatToString(n)) == Some(if sign == '-' then -(n as int) else n as int)
  {
    var t := [sign] + NatToString(n);
    assert p + [sign] + NatToString(n) == p + t;
    ParseIntPadded(p, t);
    ParseIntUnpadded(t);
    ParseSignedDecimal(sign, n);
  }

  lemma ParseUnsignedNoDigit(u: string)
    requires u == [] || DigitValue(u[0], 10).None?
    ensures ParseUnsigned(u) == None
  {
    if u != [] {
      assert DigitPrefixLength(u, 10) == 0;
    }
  }

  /** A string that does not start with whitespace, a sign or a digit is `NaN`. */
  lemma ParseIntNoDigits(s: string)
    requires s == [] || (!IsWhitespace(s[0]) && s[0] != '-' && s[0] != '+' && !IsDecimalDigit(s[0]))
    ensures ParseInt(s) == None
  {
    assert TrimStart(s) == s;
    ParseUnsignedNoDigit(s);
  }
}
