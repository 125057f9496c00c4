/** The two conversions between text and numbers the calculator uses:
    `parseFloat` (reading the display) and `String(number)` (writing a
    rounded result to the display). Both are modelled exactly on the
    strings the calculator can produce; exponent notation is not. */
module Numerals {

  import opened Values

  function Pow10(n: nat): (p: nat)
    ensures p >= 1
  {
    if n == 0 then 1 else 10 * Pow10(n - 1)
  }

  lemma ScaleIsPow10()
    ensures Pow10(Decimals) == Scale
  {
  }

  predicate IsDigitChar(c: char)
  {
    '0' <= c <= '9'
  }

  predicate AllDigits(s: string)
  {
    forall i :: 0 <= i < |s| ==> IsDigitChar(s[i])
  }

  function DigitOf(c: char): (d: nat)
    requires IsDigitChar(c)
    ensures d < 10
  {
    c as int - '0' as int
  }

  function DigitChar(d: nat): (c: char)
    requires d < 10
    ensures IsDigitChar(c) && DigitOf(c) == d
  {
    ('0' as int + d) as char
  }

  /** The whole number a string of decimal digits denotes. */
  function DigitsValue(ds: string): nat
    requires AllDigits(ds)
    decreases |ds|
  {
    if |ds| == 0 then 0 else DigitsValue(ds[..|ds| - 1]) * 10 + DigitOf(ds[|ds| - 1])
  }

  lemma DigitsValueSnoc(ds: string, c: char)
    requires AllDigits(ds) && IsDigitChar(c)
    ensures AllDigits(ds + [c])
    ensures DigitsValue(ds + [c]) == DigitsValue(ds) * 10 + DigitOf(c)
  {
    assert (ds + [c])[..|ds|] == ds;
  }

  /** The fraction 0.d1d2...dn that the digits after a decimal point
      denote: their whole-number value over 10^n. */
  function FractionValue(ds: string): real
    requires AllDigits(ds)
  {
    DigitsValue(ds) as real / Pow10(|ds|) as real
  }

  /** The shortest decimal digit string of n: no leading zero unless n is 0. */
  function IntDigits(n: nat): (s: string)
    ensures |s| > 0 && AllDigits(s)
    ensures DigitsValue(s) == n
    ensures s[0] == '0' ==> s == "0"
    decreases n
  {
    if n < 10 then [DigitChar(n)]
    else
      var hi := IntDigits(n / 10);
      DigitsValueSnoc(hi, DigitChar(n % 10));
      hi + [DigitChar(n % 10)]
  }

  /** Exactly w digits denoting m, leading zeros included. */
  function PadDigits(m: nat, w: nat): (s: string)
    requires m < Pow10(w)
    ensures |s| == w && AllDigits(s)
    ensures DigitsValue(s) == m
    decreases w
  {
    if w == 0 then []
    else
      var hi := PadDigits(m / 10, w - 1);
      DigitsValueSnoc(hi, DigitChar(m % 10));
      hi + [DigitChar(m % 10)]
  }

  /** Drops the trailing zeros of a fraction's digits. */
  function StripZeros(ds: string): (r: string)
    requires AllDigits(ds)
    ensures AllDigits(r) && |r| <= |ds| && r == ds[..|r|]
    ensures |r| == 0 || r[|r| - 1] != '0'
    decreases |ds|
  {
    if |ds| > 0 && ds[|ds| - 1] == '0' then StripZeros(ds[..|ds| - 1]) else ds
  }

  /** A trailing zero does not change the fraction the digits denote. */
  lemma TrailingZeroValue(ds: string)
    requires AllDigits(ds)
    ensures AllDigits(ds + ['0'])
    ensures FractionValue(ds + ['0']) == FractionValue(ds)
  {
    DigitsValueSnoc(ds, '0');
    var t := ds + ['0'];
    assert Pow10(|t|) == Pow10(|ds|) * 10;
    RatioScale(DigitsValue(ds), Pow10(|ds|), DigitsValue(t), Pow10(|t|));
  }

  lemma RatioScale(v: nat, p: nat, w: nat, q: nat)
    requires w == v * 10 && q == p * 10 && p > 0
    ensures v as real / p as real == w as real / q as real
  {
    assert w as real == v as real * 10.0;
    assert q as real == p as real * 10.0;
  }

  /** Dropping trailing zeros does not change the fraction the digits denote. */
  lemma {:induction false} StripZerosValue(ds: string)
    requires AllDigits(ds)
    ensures FractionValue(StripZeros(ds)) == FractionValue(ds)
    decreases |ds|
  {
    if |ds| > 0 && ds[|ds| - 1] == '0' {
      var init := ds[..|ds| - 1];
      assert ds == init + ['0'];
      TrailingZeroValue(init);
      StripZerosValue(init);
    }
  }

  /** The longest prefix of t made of decimal digits. */
  function DigitPrefix(t: string): (p: string)
    ensures |p| <= |t| && p == t[..|p|] && AllDigits(p)
    ensures |p| == |t| || !IsDigitChar(t[|p|])
  {
    if |t| > 0 && IsDigitChar(t[0]) then [t[0]] + DigitPrefix(t[1..]) else []
  }

  /** The digit prefix of a + b is a when b does not go on with a digit. */
  lemma {:induction false} DigitPrefixOf(a: string, b: string)
    requires AllDigits(a)
    requires |b| == 0 || !IsDigitChar(b[0])
    ensures DigitPrefix(a + b) == a
    decreases |a|
  {
    if |a| == 0 {
      assert a + b == b;
    } else {
      assert (a + b)[0] == a[0] && (a + b)[1..] == a[1..] + b;
      DigitPrefixOf(a[1..], b);
      assert [a[0]] + a[1..] == a;
    }
  }

  function Negate(v: Value): Value
  {
    match v
    case Num(x) => Num(-x)
    case NaN => NaN
  }

  /** `parseFloat` without a sign: the longest prefix of the form
      digits [ '.' digits ] that holds at least one digit, or NaN. */
  function ParseUnsigned(t: string): Value
  {
    var ip := DigitPrefix(t);
    var rest := t[|ip|..];
    var fp := if |rest| > 0 && rest[0] == '.' then DigitPrefix(rest[1..]) else [];
    if |ip| == 0 && |fp| == 0 then NaN
    else Num(DigitsValue(ip) as real + FractionValue(fp))
  }

  /** `parseFloat`, with an optional leading sign. */
  function ParseFloat(s: string): Value
  {
    if |s| > 0 && s[0] == '-' then Negate(ParseUnsigned(s[1..]))
    else if |s| > 0 && s[0] == '+' then ParseUnsigned(s[1..])
    else ParseUnsigned(s)
  }

  /** The eight decimals of m / 10^8 (0 <= m < 10^8) without trailing zeros. */
  function FractionDigits(m: nat): (z: string)
    requires m < Scale
    ensures AllDigits(z)
  {
    ScaleIsPow10();
    StripZeros(PadDigits(m, Decimals))
  }

  lemma FractionDigitsValue(m: nat)
    requires m < Scale
    ensures FractionValue(FractionDigits(m)) == Unscale(m)
  {
    ScaleIsPow10();
    StripZerosValue(PadDigits(m, Decimals));
  }

  /** The part of `String(x)` after the integer part: nothing for a whole
      number, else '.' and the decimals without trailing zeros. */
  function FractionText(m: nat): string
    requires m < Scale
  {
    if m == 0 then "" else "." + FractionDigits(m)
  }

  /** `String(x)` for x = n / 10^8 with n >= 0, in fixed notation. */
  function ShowMagnitude(n: nat): string
  {
    IntDigits(n / Scale) + FractionText(n % Scale)
  }

  function Magnitude(k: int): nat
  {
    if k < 0 then -k else k
  }

  /** `String(x)` for a rounded result x = k / 10^8: a minus sign for a
      negative result, then the magnitude. */
  function ShowScaled(k: int): string
  {
    (if k < 0 then "-" else "") + ShowMagnitude(Magnitude(k))
  }

  /** `parseFloat` without a sign, given the digit prefix and fraction digits. */
  lemma UnsignedParts(t: string, ip: string, fp: string)
    requires DigitPrefix(t) == ip && |ip| > 0
    requires var rest := t[|ip|..];
      fp == if |rest| > 0 && rest[0] == '.' then DigitPrefix(rest[1..]) else []
    ensures ParseUnsigned(t) == Num(DigitsValue(ip) as real + FractionValue(fp))
  {
  }

  /** A string of digits parses, without its sign, to the number it denotes. */
  lemma ParseIntOnly(ip: string)
    requires |ip| > 0 && AllDigits(ip)
    ensures ParseUnsigned(ip) == Num(DigitsValue(ip) as real)
  {
    DigitPrefixOf(ip, []);
    assert ip + [] == ip;
    assert ip[|ip|..] == [];
    var e: string := [];
    assert FractionValue(e) == 0.0;
    UnsignedParts(ip, ip, e);
  }

  /** An integer part, '.', and fraction digits parse to integer plus fraction. */
  lemma ParseIntFrac(ip: string, ft: string, z: string)
    requires |ip| > 0 && AllDigits(ip) && AllDigits(z) && ft == "." + z
    ensures ParseUnsigned(ip + ft) == Num(DigitsValue(ip) as real + FractionValue(z))
  {
    var t := ip + ft;
    DigitPrefixOf(ip, ft);
    assert t[|ip|..] == ft;
    assert ft[1..] == z;
    DigitPrefixOf(z, []);
    assert z + [] == z;
    UnsignedParts(t, ip, z);
  }

  /** Digits, a point and digits read as the integer part plus the fraction
      the digits after the point denote; no digit after the point reads as
      the integer part alone. */
  lemma ParsePointFraction(ip: string, fp: string)
    requires |ip| > 0 && AllDigits(ip) && AllDigits(fp)
    ensures ParseFloat(ip + "." + fp) == Num(DigitsValue(ip) as real + FractionValue(fp))
  {
    var t := ip + "." + fp;
    assert t == ip + ("." + fp);
    assert t[0] == ip[0];
    ParseUnsignedStart(t);
    ParseIntFrac(ip, "." + fp, fp);
  }

  /** A string that starts with a digit has no sign to strip. */
  lemma ParseUnsignedStart(s: string)
    requires |s| > 0 && IsDigitChar(s[0])
    ensures ParseFloat(s) == ParseUnsigned(s)
  {
  }

  /** A string of digits parses to the number it denotes. */
  lemma ParseDigits(ds: string)
    requires |ds| > 0 && AllDigits(ds)
    ensures ParseFloat(ds) == Num(DigitsValue(ds) as real)
  {
    ParseUnsignedStart(ds);
    ParseIntOnly(ds);
  }

  lemma Split(n: nat)
    ensures Unscale(n) == (n / Scale) as real + Unscale(n % Scale)
  {
    var q, m := n / Scale, n % Scale;
    assert n as real == q as real * Scale as real + m as real;
  }

  /** An integer part and fraction text parse to integer plus fraction. */
  lemma ParseIntThenFraction(q: nat, m: nat)
    requires m < Scale
    ensures ParseUnsigned(IntDigits(q) + FractionText(m)) == Num(q as real + Unscale(m))
  {
    if m == 0 {
      ParseWholeText(q);
    } else {
      ParseFractionText(q, m);
    }
  }

  lemma ParseWholeText(q: nat)
    ensures ParseUnsigned(IntDigits(q) + FractionText(0)) == Num(q as real)
  {
    var ip := IntDigits(q);
    assert ip + FractionText(0) == ip;
    ParseIntOnly(ip);
  }

  lemma ParseFractionText(q: nat, m: nat)
    requires 0 < m < Scale
    ensures ParseUnsigned(IntDigits(q) + FractionText(m)) == Num(q as real + Unscale(m))
  {
    ParseIntFrac(IntDigits(q), FractionText(m), FractionDigits(m));
    FractionDigitsValue(m);
  }

  /** Reading a non-negative result back gives the value written. */
  lemma ParseShowMagnitude(n: nat)
    ensures ParseUnsigned(ShowMagnitude(n)) == Num(Unscale(n))
  {
    ParseIntThenFraction(n / Scale, n % Scale);
    Split(n);
  }

  /** Reading the display back gives exactly the rounded value written to it. */
  lemma ParseShowRoundTrip(k: int)
    ensures ParseFloat(ShowScaled(k)) == Num(Unscale(k))
  {
    if k < 0 {
      ParseShowNegative(k);
    } else {
      ParseShowNonNegative(k);
    }
  }

  lemma ParseShowNegative(k: int)
    requires k < 0
    ensures ParseFloat(ShowScaled(k)) == Num(Unscale(k))
  {
    var n := Magnitude(k);
    ParseMinusMagnitude(n);
    assert ShowScaled(k) == "-" + ShowMagnitude(n);
    UnscaleNegate(k);
  }

  lemma ParseMinusMagnitude(n: nat)
    ensures ParseFloat("-" + ShowMagnitude(n)) == Num(-Unscale(n))
  {
    assert ("-" + ShowMagnitude(n))[1..] == ShowMagnitude(n);
    ParseShowMagnitude(n);
  }

  lemma ParseShowNonNegative(k: nat)
    ensures ParseFloat(ShowScaled(k)) == Num(Unscale(k))
  {
    var t := ShowMagnitude(k);
    assert Magnitude(k) == k;
    assert ShowScaled(k) == "" + t;
    assert "" + t == t;
    ShowMagnitudeStart(k);
    ParseUnsignedStart(t);
    ParseShowMagnitude(k);
  }

  lemma UnscaleNegate(k: int)
    ensures Unscale(k) == -Unscale(-k)
  {
  }

  /** The text of a non-negative result starts with its integer digits. */
  lemma ShowMagnitudeStart(n: nat)
    ensures |ShowMagnitude(n)| > 0 && IsDigitChar(ShowMagnitude(n)[0])
    ensures ShowMagnitude(n)[0] == IntDigits(n / Scale)[0]
  {
  }

  /** A string whose first character cannot start a number parses to NaN,
      as the error marker does. */
  lemma ParseNonNumeric(s: string)
    requires |s| > 0 && !IsDigitChar(s[0]) && s[0] !in "+-."
    ensures ParseFloat(s) == NaN
  {
    assert DigitPrefix(s) == [];
  }

  /** A trailing decimal point does not change what a string parses to. */
  lemma ParseTrailingDot(s: string)
    requires '.' !in s
    ensures ParseFloat(s + ".") == ParseFloat(s)
  {
    if |s| > 0 && (s[0] == '-' || s[0] == '+') {
      assert (s + ".")[0] == s[0] && (s + ".")[1..] == s[1..] + ".";
      UnsignedTrailingDot(s[1..]);
    } else if |s| == 0 {
      assert DigitPrefix(".") == [];
      assert ParseUnsigned(".") == NaN;
    } else {
      assert (s + ".")[0] == s[0];
      UnsignedTrailingDot(s);
    }
  }

  lemma UnsignedTrailingDot(t: string)
    requires '.' !in t
    ensures ParseUnsigned(t + ".") == ParseUnsigned(t)
  {
    var ip := DigitPrefix(t);
    var rest := t[|ip|..];
    assert t == ip + rest;
    if |rest| == 0 {
      assert t == ip;
      DotAfterDigits(ip);
    } else {
      assert rest[0] == t[|ip|];
      assert t + "." == ip + (rest + ".");
      DotAfterOther(ip, rest);
    }
  }

  /** digits + '.' reads as the digits: no fraction digits follow. */
  lemma DotAfterDigits(ip: string)
    requires AllDigits(ip)
    ensures ParseUnsigned(ip + ".") == ParseUnsigned(ip)
  {
    DigitPrefixOf(ip, ".");
    assert (ip + ".")[|ip|..] == ".";
    assert DigitPrefix("."[1..]) == [];
    DigitPrefixOf(ip, []);
    assert ip + [] == ip;
    assert ip[|ip|..] == [];
  }

  /** After a character that is neither a digit nor a point, nothing
      further is read. */
  lemma DotAfterOther(ip: string, rest: string)
    requires AllDigits(ip) && |rest| > 0 && !IsDigitChar(rest[0]) && rest[0] != '.'
    ensures ParseUnsigned(ip + (rest + ".")) == ParseUnsigned(ip + rest)
  {
    DigitPrefixOf(ip, rest + ".");
    DigitPrefixOf(ip, rest);
    assert (ip + (rest + "."))[|ip|..] == rest + ".";
    assert (ip + rest)[|ip|..] == rest;
  }

  /** Typing one more digit after a string of digits: v becomes 10 v + d. */
  lemma ParseAppendDigit(ds: string, c: char)
    requires |ds| > 0 && AllDigits(ds) && IsDigitChar(c)
    ensures ParseFloat(ds + [c]) == Num((DigitsValue(ds) * 10 + DigitOf(c)) as real)
  {
    var t := ds + [c];
    DigitsValueSnoc(ds, c);
    var v := DigitsValue(t);
    assert v == DigitsValue(ds) * 10 + DigitOf(c);
    ParseDigits(t);
    assert ParseFloat(t) == Num(v as real);
  }
}
