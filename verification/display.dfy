/** The shape of the text the display can hold: a numeral being typed or a
    printed result, and the three facts the calculator keeps about it. */
module DisplayText {

  import opened Values
  import opened Numerals

  /** digits [ '.' digits ], with at least one digit before the point. */
  predicate IsUnsignedNumeral(t: string)
  {
    var ip := DigitPrefix(t);
    var rest := t[|ip|..];
    |ip| > 0 && (|rest| == 0 || (rest[0] == '.' && AllDigits(rest[1..])))
  }

  /** A numeral in progress or a printed result: an optional minus sign,
      then an unsigned numeral. */
  predicate IsNumeral(s: string)
  {
    if |s| > 0 && s[0] == '-' then IsUnsignedNumeral(s[1..]) else IsUnsignedNumeral(s)
  }

  predicate AtMostOneDot(s: string)
  {
    forall i, j :: 0 <= i < j < |s| && s[i] == '.' ==> s[j] != '.'
  }

  /** The text without its minus sign, if it has one. */
  function Unsigned(s: string): string
  {
    if |s| > 0 && s[0] == '-' then s[1..] else s
  }

  /** A redundant leading zero, as in "05" or "-05". */
  predicate LeadingZero(s: string)
  {
    var u := Unsigned(s);
    |u| >= 2 && u[0] == '0' && IsDigitChar(u[1])
  }

  lemma UnsignedNumeralParses(t: string)
    requires IsUnsignedNumeral(t)
    ensures ParseUnsigned(t).Num?
  {
  }

  /** Every numeral reads back as a number, never as NaN. */
  lemma NumeralParses(s: string)
    requires IsNumeral(s)
    ensures ParseFloat(s).Num?
  {
    if |s| > 0 && s[0] == '-' {
      UnsignedNumeralParses(s[1..]);
    } else {
      UnsignedNumeralParses(s);
      assert IsDigitChar(DigitPrefix(s)[0]);
      ParseUnsignedStart(s);
    }
  }

  lemma UnsignedAppendDigit(t: string, c: char)
    requires IsUnsignedNumeral(t) && IsDigitChar(c)
    ensures IsUnsignedNumeral(t + [c])
  {
    var ip := DigitPrefix(t);
    var rest := t[|ip|..];
    assert t == ip + rest;
    if |rest| == 0 {
      assert t == ip;
      DigitPrefixOf(t + [c], []);
      assert t + [c] + [] == t + [c];
    } else {
      assert t + [c] == ip + (rest + [c]);
      DigitPrefixOf(ip, rest + [c]);
      assert (t + [c])[|ip|..] == rest + [c];
      assert (rest + [c])[1..] == rest[1..] + [c];
    }
  }

  /** Typing a digit keeps a numeral a numeral. */
  lemma NumeralAppendDigit(s: string, c: char)
    requires IsNumeral(s) && IsDigitChar(c)
    ensures IsNumeral(s + [c])
  {
    if |s| > 0 && s[0] == '-' {
      assert (s + [c])[1..] == s[1..] + [c];
      UnsignedAppendDigit(s[1..], c);
    } else {
      UnsignedAppendDigit(s, c);
    }
  }

  lemma UnsignedAppendDot(t: string)
    requires IsUnsignedNumeral(t) && '.' !in t
    ensures IsUnsignedNumeral(t + ".")
  {
    var ip := DigitPrefix(t);
    var rest := t[|ip|..];
    assert t == ip + rest;
    assert |rest| == 0;
    assert t == ip;
    DigitPrefixOf(t, ".");
    assert (t + ".")[|t|..] == ".";
  }

  /** A decimal point after a numeral without one keeps it a numeral. */
  lemma NumeralAppendDot(s: string)
    requires IsNumeral(s) && '.' !in s
    ensures IsNumeral(s + ".")
  {
    if |s| > 0 && s[0] == '-' {
      assert (s + ".")[1..] == s[1..] + ".";
      assert '.' !in s[1..];
      UnsignedAppendDot(s[1..]);
    } else {
      UnsignedAppendDot(s);
    }
  }

  lemma DotFreeDigits(s: string)
    requires AllDigits(s)
    ensures '.' !in s
  {
  }

  /** A string with a single point between two point-free parts. */
  lemma OneDot(a: string, b: string)
    requires '.' !in a && '.' !in b
    ensures AtMostOneDot(a + "." + b)
  {
    var s := a + "." + b;
    forall i, j | 0 <= i < j < |s| && s[i] == '.'
      ensures s[j] != '.'
    {
      assert s[j] == b[j - |a| - 1];
    }
  }

  lemma NoDot(s: string)
    requires '.' !in s
    ensures AtMostOneDot(s)
  {
  }

  /** The shape of a printed result: a numeral with at most one point and
      no redundant leading zero. */
  lemma ShowScaledShape(k: int)
    ensures IsNumeral(ShowScaled(k))
    ensures AtMostOneDot(ShowScaled(k))
    ensures !LeadingZero(ShowScaled(k))
  {
    ShowScaledNumeral(k);
    ShowScaledOneDot(k);
    ShowScaledNoLeadingZero(k);
  }

  lemma ShowScaledNumeral(k: int)
    ensures IsNumeral(ShowScaled(k))
  {
    var n := Magnitude(k);
    MagnitudeNumeral(n);
    if k < 0 {
      assert ShowScaled(k)[1..] == ShowMagnitude(n);
    } else {
      assert ShowScaled(k) == ShowMagnitude(n);
      ShowMagnitudeStart(n);
    }
  }

  lemma ShowScaledOneDot(k: int)
    ensures AtMostOneDot(ShowScaled(k))
  {
    var n := Magnitude(k);
    FractionTextShape(n % Scale);
    TextOneDot(if k < 0 then "-" else "", IntDigits(n / Scale), FractionText(n % Scale));
  }

  /** The fraction text is empty, or a point followed by digits. */
  lemma FractionTextShape(m: nat)
    requires m < Scale
    ensures var ft := FractionText(m);
      ft == "" || (|ft| > 0 && ft[0] == '.' && AllDigits(ft[1..]))
  {
    if m != 0 {
      PointThenDigits(FractionDigits(m));
    }
  }

  lemma PointThenDigits(z: string)
    requires AllDigits(z)
    ensures var ft := "." + z;
      |ft| > 0 && ft[0] == '.' && AllDigits(ft[1..])
  {
    assert ("." + z)[1..] == z;
  }

  /** A sign, integer digits, and an optional point with fraction digits
      hold at most one point. */
  lemma TextOneDot(sign: string, ip: string, ft: string)
    requires '.' !in sign && AllDigits(ip)
    requires ft == "" || (|ft| > 0 && ft[0] == '.' && AllDigits(ft[1..]))
    ensures AtMostOneDot(sign + (ip + ft))
  {
    DotFreeDigits(ip);
    assert '.' !in sign + ip;
    if ft == "" {
      assert sign + (ip + ft) == sign + ip;
      NoDot(sign + ip);
    } else {
      DotFreeDigits(ft[1..]);
      assert sign + (ip + ft) == (sign + ip) + "." + ft[1..];
      OneDot(sign + ip, ft[1..]);
    }
  }

  lemma ShowScaledNoLeadingZero(k: int)
    ensures !LeadingZero(ShowScaled(k))
  {
    MagnitudeNoLeadingZero(Magnitude(k));
    if k < 0 {
      NegativeUnsigned(k);
    } else {
      NonNegativeUnsigned(k);
    }
  }

  /** Without its sign, a negative result is its printed magnitude. */
  lemma NegativeUnsigned(k: int)
    requires k < 0
    ensures Unsigned(ShowScaled(k)) == ShowMagnitude(Magnitude(k))
  {
    assert ShowScaled(k) == "-" + ShowMagnitude(Magnitude(k));
  }

  /** A non-negative result has no sign to strip. */
  lemma NonNegativeUnsigned(k: int)
    requires k >= 0
    ensures Unsigned(ShowScaled(k)) == ShowMagnitude(Magnitude(k))
  {
    var t := ShowMagnitude(Magnitude(k));
    NonNegativeText(k);
    ShowMagnitudeStart(Magnitude(k));
    DigitStartUnsigned(t);
  }

  lemma NonNegativeText(k: int)
    requires k >= 0
    ensures ShowScaled(k) == ShowMagnitude(Magnitude(k))
  {
    var t := ShowMagnitude(Magnitude(k));
    assert ShowScaled(k) == "" + t;
    assert "" + t == t;
  }

  lemma DigitStartUnsigned(t: string)
    requires |t| > 0 && IsDigitChar(t[0])
    ensures Unsigned(t) == t
  {
  }

  /** The printed magnitude starts with "0" only as "0" or "0.". */
  lemma MagnitudeNoLeadingZero(n: nat)
    ensures !LeadingZero(ShowMagnitude(n))
  {
    var ip, ft := IntDigits(n / Scale), FractionText(n % Scale);
    assert ShowMagnitude(n) == ip + ft;
    assert (ip + ft)[0] == ip[0];
    assert Unsigned(ip + ft) == ip + ft;
    if |ip + ft| >= 2 && ip[0] == '0' {
      assert ip == "0";
      assert (ip + ft)[1] == ft[0] == '.';
    }
  }

  lemma MagnitudeNumeral(n: nat)
    ensures IsUnsignedNumeral(ShowMagnitude(n))
  {
    var ip, ft := IntDigits(n / Scale), FractionText(n % Scale);
    DigitPrefixOf(ip, ft);
    assert (ip + ft)[|ip|..] == ft;
    if n % Scale != 0 {
      assert ft[1..] == FractionDigits(n % Scale);
    }
  }
}
