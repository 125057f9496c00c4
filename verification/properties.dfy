/** What holds of every state the calculator can reach, and of key
    sequences: the display is always a numeral or the error marker, reads
    back as NaN exactly in the second case, and Clear forgets everything. */
module CalculatorProperties {

  import opened Wrappers
  import opened Values
  import opened Numerals
  import opened DisplayText
  import opened Calculator

  /** Text left by an error: the marker, possibly with keys typed after it. */
  predicate IsErrorText(t: string)
  {
    |t| >= |ErrorMarker| && t[..|ErrorMarker|] == ErrorMarker
  }

  /** The invariant of reachable states. */
  predicate Inv(s: State)
  {
    && (IsNumeral(s.currentInput) || IsErrorText(s.currentInput))
    && AtMostOneDot(s.currentInput)
    && !LeadingZero(s.currentInput)
    && SignedOnlyShown(s)
    && (s.op.Some? ==> s.firstOperand.Some?)
  }

  /** Text with a minus sign is only ever a printed result, so a fresh
      number is due whenever the display shows one. */
  predicate SignedOnlyShown(s: State)
  {
    |s.currentInput| > 0 && s.currentInput[0] == '-' ==> s.waiting
  }

  lemma InitialInv()
    ensures Inv(Initial)
  {
    assert DigitPrefix("0") == "0";
  }

  /** Appending a character other than a point keeps at most one point. */
  lemma AppendNonDot(t: string, c: char)
    requires AtMostOneDot(t) && c != '.'
    ensures AtMostOneDot(t + [c])
  {
  }

  lemma SingleDigit(d: Digit)
    ensures IsNumeral([d]) && AtMostOneDot([d]) && !LeadingZero([d])
  {
    assert DigitPrefix([d]) == [d];
  }

  lemma DigitInv(s: State, d: Digit)
    requires Inv(s)
    ensures Inv(PressDigit(s, d))
  {
    var t := s.currentInput;
    if s.waiting || t == "0" {
      SingleDigit(d);
    } else {
      AppendNonDot(t, d);
      if IsNumeral(t) {
        NumeralAppendDigit(t, d);
      } else {
        assert (t + [d])[..|ErrorMarker|] == t[..|ErrorMarker|];
      }
      DigitEntry(s, d);
    }
  }

  lemma PointInv(s: State)
    requires Inv(s)
    ensures Inv(PressPoint(s))
  {
    PointEntry(s);
    var t := s.currentInput;
    if s.waiting {
      assert DigitPrefix("0.") == "0";
    } else if '.' !in t {
      if IsNumeral(t) {
        NumeralAppendDot(t);
      } else {
        assert (t + ".")[..|ErrorMarker|] == t[..|ErrorMarker|];
      }
      assert (t + ".")[|t|] == '.';
    }
  }

  lemma ErrorMarkerShape()
    ensures IsErrorText(ErrorMarker) && AtMostOneDot(ErrorMarker) && !LeadingZero(ErrorMarker)
  {
  }

  lemma OperatorInv(s: State, next: Op)
    requires Inv(s)
    ensures Inv(PressOperator(s, next))
  {
    OperatorEntry(s, next);
    ErrorMarkerShape();
    if s.firstOperand.Some? && s.op.Some? && !s.waiting {
      var result := Apply(s.op.value, s.firstOperand.value, ParseFloat(s.currentInput));
      if result.Num? {
        ShowResultReadsBack(result.r);
      }
    }
  }

  lemma EqualsInv(s: State)
    requires Inv(s)
    ensures Inv(PressEquals(s))
  {
    ErrorMarkerShape();
    if s.op.Some? && s.firstOperand.Some? {
      var result := Apply(s.op.value, s.firstOperand.value, ParseFloat(s.currentInput));
      if result.Num? {
        ShowResultReadsBack(result.r);
      }
    }
  }

  /** Every key keeps the invariant. */
  lemma StepInv(s: State, key: Key)
    requires Inv(s)
    ensures Inv(Step(s, key))
  {
    match key
    case DigitKey(d) => DigitInv(s, d);
    case PointKey => PointInv(s);
    case ClearKey => InitialInv();
    case OperatorKey(next) => OperatorInv(s, next);
    case EqualsKey => EqualsInv(s);
  }

  lemma {:induction false} RunInv(s: State, keys: seq<Key>)
    requires Inv(s)
    ensures Inv(Run(s, keys))
    decreases |keys|
  {
    if |keys| > 0 {
      StepInv(s, keys[0]);
      RunInv(Step(s, keys[0]), keys[1..]);
    }
  }

  /** Whatever is pressed from power-on, the invariant holds. */
  lemma Reachable(keys: seq<Key>)
    ensures Inv(Run(Initial, keys))
  {
    InitialInv();
    RunInv(Initial, keys);
  }

  /** Under the invariant, the display reads as NaN exactly when it holds
      error text; so an error, once shown, is what the next computation
      receives as its operand. */
  lemma ErrorIffNaN(s: State)
    requires Inv(s)
    ensures ParseFloat(s.currentInput).NaN? <==> IsErrorText(s.currentInput)
  {
    var t := s.currentInput;
    if IsErrorText(t) {
      assert t[0] == ErrorMarker[0];
      ParseNonNumeric(t);
    } else {
      NumeralParses(t);
    }
  }

  /** A NaN first operand poisons every later result. */
  lemma NaNOperandSticks(s: State, next: Op)
    requires s.firstOperand == Some(NaN) && s.op.Some?
    ensures PressEquals(s).currentInput == ErrorMarker && PressEquals(s).firstOperand == Some(NaN)
    ensures !s.waiting ==> PressOperator(s, next) == State(ErrorMarker, None, None, false)
  {
  }

  /** Pressing a + b is pressing a, then b. */
  lemma {:induction false} RunAppend(s: State, a: seq<Key>, b: seq<Key>)
    ensures Run(s, a + b) == Run(Run(s, a), b)
    decreases |a|
  {
    if |a| > 0 {
      assert (a + b)[1..] == a[1..] + b;
      RunAppend(Step(s, a[0]), a[1..], b);
    } else {
      assert a + b == b;
    }
  }

  /** Clear forgets everything pressed before it. */
  lemma ClearForgets(s: State, a: seq<Key>, b: seq<Key>)
    ensures Run(s, a + [ClearKey] + b) == Run(Initial, b)
  {
    RunAppend(s, a + [ClearKey], b);
    RunAppend(s, a, [ClearKey]);
  }

  /** The states a chaining error leads to: error text still being typed
      onto with nothing captured, or a NaN first operand. */
  predicate Poisoned(s: State)
  {
    || (IsErrorText(s.currentInput) && !s.waiting && s.firstOperand.None? && s.op.None?)
    || s.firstOperand == Some(NaN)
  }

  /** Every key but Clear keeps the machine poisoned. */
  lemma PoisonedStep(s: State, key: Key)
    requires Poisoned(s) && key != ClearKey
    ensures Poisoned(Step(s, key))
  {
    var t := s.currentInput;
    if IsErrorText(t) {
      assert t[0] == ErrorMarker[0];
      assert t != "0";
    }
    match key
    case DigitKey(d) =>
      if IsErrorText(t) && !s.waiting {
        assert (t + [d])[..|ErrorMarker|] == t[..|ErrorMarker|];
      }
    case PointKey =>
      if IsErrorText(t) && !s.waiting {
        assert (t + ".")[..|ErrorMarker|] == t[..|ErrorMarker|];
      }
    case OperatorKey(next) =>
      if s.firstOperand.None? {
        ParseNonNumeric(t);
      }
    case EqualsKey =>
  }

  /** Once poisoned, the machine stays poisoned until Clear, and every
      result computed along the way, on equals or on folding a chain, is
      the error marker. */
  lemma {:induction false} RunPoisoned(s: State, keys: seq<Key>)
    requires Poisoned(s) && ClearKey !in keys
    ensures Poisoned(Run(s, keys))
    decreases |keys|
  {
    if |keys| > 0 {
      PoisonedStep(s, keys[0]);
      assert ClearKey !in keys[1..];
      RunPoisoned(Step(s, keys[0]), keys[1..]);
    }
  }

  /** A poisoned machine computes nothing but the error marker. */
  lemma PoisonedResults(s: State, next: Op)
    requires Poisoned(s)
    ensures s.op.Some? ==> PressEquals(s).currentInput == ErrorMarker
    ensures s.op.Some? && !s.waiting ==> PressOperator(s, next) == State(ErrorMarker, None, None, false)
  {
  }

  /** The keys for typing a string of digits. */
  function DigitKeys(ds: seq<Digit>): (keys: seq<Key>)
    ensures |keys| == |ds|
    ensures forall i :: 0 <= i < |ds| ==> keys[i] == DigitKey(ds[i])
  {
    if |ds| == 0 then [] else [DigitKey(ds[0])] + DigitKeys(ds[1..])
  }

  lemma DigitKeysSnoc(ds: seq<Digit>, d: Digit)
    ensures DigitKeys(ds + [d]) == DigitKeys(ds) + [DigitKey(d)]
  {
  }

  /** Typing digits when a fresh number is due gives a digit string that
      denotes the number typed, whatever leading zeros it had, and touches
      nothing but the input. */
  lemma {:induction false} EnterNumber(s: State, ds: seq<Digit>)
    requires s.waiting && |ds| > 0
    ensures var r := Run(s, DigitKeys(ds));
      && r.firstOperand == s.firstOperand && r.op == s.op && !r.waiting
      && |r.currentInput| > 0 && AllDigits(r.currentInput)
      && DigitsValue(r.currentInput) == DigitsValue(ds)
      && ParseFloat(r.currentInput) == Num(DigitsValue(ds) as real)
    decreases |ds|
  {
    var r := Run(s, DigitKeys(ds));
    if |ds| == 1 {
      assert DigitKeys(ds) == [DigitKey(ds[0])];
      assert r == PressDigit(s, ds[0]);
      assert r.currentInput == ds;
    } else {
      var init, d := ds[..|ds| - 1], ds[|ds| - 1];
      assert ds == init + [d];
      EnterNumber(s, init);
      var m := Run(s, DigitKeys(init));
      DigitKeysSnoc(init, d);
      RunAppend(s, DigitKeys(init), [DigitKey(d)]);
      assert r == PressDigit(m, d);
      DigitsValueSnoc(init, d);
      if m.currentInput == "0" {
        assert r.currentInput == [d];
        assert DigitsValue(m.currentInput) == 0;
        assert DigitsValue([d]) == DigitOf(d);
      } else {
        assert r.currentInput == m.currentInput + [d];
        DigitsValueSnoc(m.currentInput, d);
      }
    }
    ParseDigits(r.currentInput);
  }

  lemma RunOne(s: State, key: Key)
    ensures Run(s, [key]) == Step(s, key)
  {
    assert [key][1..] == [];
  }

  lemma RunTwo(s: State, a: Key, b: Key)
    ensures Run(s, [a, b]) == Step(Step(s, a), b)
  {
    var s1 := Step(s, a);
    assert [a, b][1..] == [b];
    assert Run(s, [a, b]) == Run(s1, [b]);
    RunOne(s1, b);
  }

  lemma RunThree(s: State, a: Key, b: Key, c: Key)
    ensures Run(s, [a, b, c]) == Step(Step(Step(s, a), b), c)
  {
    assert [a, b, c][1..] == [b, c];
    RunTwo(Step(s, a), b, c);
  }

  /** Digits typed after a point are appended as they are. */
  lemma {:induction false} AppendFraction(s: State, fp: seq<Digit>)
    requires !s.waiting && '.' in s.currentInput
    ensures Run(s, DigitKeys(fp)) == s.(currentInput := s.currentInput + fp)
    decreases |fp|
  {
    var t := s.currentInput;
    if |fp| == 0 {
      assert DigitKeys(fp) == [];
      assert t + fp == t;
    } else {
      var init, d := fp[..|fp| - 1], fp[|fp| - 1];
      assert fp == init + [d];
      AppendFraction(s, init);
      var m := s.(currentInput := t + init);
      DigitKeysSnoc(init, d);
      RunAppend(s, DigitKeys(init), [DigitKey(d)]);
      assert '.' in m.currentInput by { assert m.currentInput[..|t|] == t; }
      DigitAfterPoint(m, d);
      assert t + init + [d] == t + fp;
    }
  }

  /** A digit typed onto text holding a point is appended. */
  lemma DigitAfterPoint(s: State, d: Digit)
    requires !s.waiting && '.' in s.currentInput
    ensures Run(s, [DigitKey(d)]) == s.(currentInput := s.currentInput + [d])
  {
    RunOne(s, DigitKey(d));
    assert s.currentInput != "0";
  }

  /** Typing integer digits and the point when a fresh number is due gives
      digits denoting the integer part, then the point; with no integer
      digits the point starts "0.". */
  lemma PointAfterDigits(s: State, ip: seq<Digit>)
    requires s.waiting
    ensures var p := Run(s, DigitKeys(ip) + [PointKey]);
      var n := |p.currentInput|;
      && p.firstOperand == s.firstOperand && p.op == s.op && !p.waiting
      && n >= 2 && p.currentInput[n - 1] == '.'
      && AllDigits(p.currentInput[..n - 1]) && DigitsValue(p.currentInput[..n - 1]) == DigitsValue(ip)
      && (|ip| == 0 ==> p.currentInput == "0.")
  {
    var m := Run(s, DigitKeys(ip));
    RunAppend(s, DigitKeys(ip), [PointKey]);
    RunOne(m, PointKey);
    var t: string;
    if |ip| == 0 {
      assert m == s;
      t := "0";
      assert DigitsValue(t) == 0 == DigitsValue(ip);
    } else {
      EnterNumber(s, ip);
      t := m.currentInput;
      DotFreeDigits(t);
    }
    var p := PressPoint(m);
    assert p == m.(currentInput := t + ".", waiting := false);
    assert p.currentInput[..|t|] == t;
  }

  /** Typing integer digits, the point and fraction digits when a fresh
      number is due gives text that reads as the integer part plus the
      fraction. Nothing but the input changes. */
  lemma EnterDecimal(s: State, ip: seq<Digit>, fp: seq<Digit>)
    requires s.waiting
    ensures var r := Run(s, DigitKeys(ip) + [PointKey] + DigitKeys(fp));
      && r.firstOperand == s.firstOperand && r.op == s.op && !r.waiting
      && ParseFloat(r.currentInput) == Num(DigitsValue(ip) as real + FractionValue(fp))
      && (|ip| == 0 ==> r.currentInput == "0." + fp)
  {
    var p := Run(s, DigitKeys(ip) + [PointKey]);
    PointAfterDigits(s, ip);
    RunAppend(s, DigitKeys(ip) + [PointKey], DigitKeys(fp));
    assert '.' in p.currentInput by { assert p.currentInput[|p.currentInput| - 1] == '.'; }
    AppendFraction(p, fp);
    FractionAfterPoint(p.currentInput, ip, fp);
  }

  /** Integer digits and a point, then fraction digits, read as integer
      part plus fraction. */
  lemma FractionAfterPoint(text: string, ip: seq<Digit>, fp: seq<Digit>)
    requires |text| >= 2 && text[|text| - 1] == '.'
    requires AllDigits(text[..|text| - 1]) && DigitsValue(text[..|text| - 1]) == DigitsValue(ip)
    ensures ParseFloat(text + fp) == Num(DigitsValue(ip) as real + FractionValue(fp))
  {
    var t := text[..|text| - 1];
    assert text == t + ".";
    ParsePointFraction(t, fp);
  }

  /** A number as typed on the keypad: integer digits alone, or integer
      digits (possibly none), the point key and fraction digits. */
  datatype Entry = Whole(ip: seq<Digit>) | Decimal(ip: seq<Digit>, fp: seq<Digit>)

  /** A whole entry needs at least one digit. */
  predicate Typed(e: Entry)
  {
    e.Whole? ==> |e.ip| > 0
  }

  function EntryKeys(e: Entry): seq<Key>
  {
    match e
    case Whole(ip) => DigitKeys(ip)
    case Decimal(ip, fp) => DigitKeys(ip) + [PointKey] + DigitKeys(fp)
  }

  /** The number an entry denotes. */
  function EntryValue(e: Entry): real
  {
    match e
    case Whole(ip) => DigitsValue(ip) as real
    case Decimal(ip, fp) => DigitsValue(ip) as real + FractionValue(fp)
  }

  /** Typing any entry when a fresh number is due gives text that reads as
      the number entered, and touches nothing but the input. */
  lemma EnterEntry(s: State, e: Entry)
    requires s.waiting && Typed(e)
    ensures var r := Run(s, EntryKeys(e));
      && r.firstOperand == s.firstOperand && r.op == s.op && !r.waiting
      && ParseFloat(r.currentInput) == Num(EntryValue(e))
  {
    if e.Whole? {
      EnterWhole(s, e);
    } else {
      EnterFraction(s, e);
    }
  }

  lemma EnterWhole(s: State, e: Entry)
    requires s.waiting && e.Whole? && |e.ip| > 0
    ensures var r := Run(s, EntryKeys(e));
      && r.firstOperand == s.firstOperand && r.op == s.op && !r.waiting
      && ParseFloat(r.currentInput) == Num(EntryValue(e))
  {
    assert EntryKeys(e) == DigitKeys(e.ip);
    EnterNumber(s, e.ip);
  }

  lemma EnterFraction(s: State, e: Entry)
    requires s.waiting && e.Decimal?
    ensures var r := Run(s, EntryKeys(e));
      && r.firstOperand == s.firstOperand && r.op == s.op && !r.waiting
      && ParseFloat(r.currentInput) == Num(EntryValue(e))
  {
    assert EntryKeys(e) == DigitKeys(e.ip) + [PointKey] + DigitKeys(e.fp);
    EnterDecimal(s, e.ip, e.fp);
  }

  /** An operator pressed with no first operand captures the input, and
      the number entered next becomes the second operand. */
  lemma EnterSecondOperand(s: State, o: Op, e: Entry)
    requires s.firstOperand.None? && Typed(e)
    ensures var r := Run(s, [OperatorKey(o)] + EntryKeys(e));
      && r.firstOperand == Some(ParseFloat(s.currentInput)) && r.op == Some(o) && !r.waiting
      && ParseFloat(r.currentInput) == Num(EntryValue(e))
  {
    var s1 := PressOperator(s, o);
    RunOne(s, OperatorKey(o));
    RunAppend(s, [OperatorKey(o)], EntryKeys(e));
    EnterEntry(s1, e);
  }

  /** Equals pressed after any keys acts on the state they leave. */
  lemma RunThenEquals(s: State, keys: seq<Key>)
    ensures Run(s, keys + [EqualsKey]) == PressEquals(Run(s, keys))
  {
    RunAppend(s, keys, [EqualsKey]);
    RunOne(Run(s, keys), EqualsKey);
  }

  /** Pressing an operator, entering b (whole or with a point) and pressing
      equals, with no first operand captured yet, evaluates the input a
      against b: the result is shown and stored rounded to eight decimals,
      or the marker is shown. */
  lemma Evaluate(s: State, o: Op, e: Entry, a: Value)
    requires s.firstOperand.None? && Typed(e) && ParseFloat(s.currentInput) == a
    ensures var r := Run(s, [OperatorKey(o)] + EntryKeys(e) + [EqualsKey]);
      var result := Apply(o, a, Num(EntryValue(e)));
      && r.op.None? && r.waiting
      && (result.NaN? ==> r.currentInput == ErrorMarker && r.firstOperand == Some(a))
      && (result.Num? ==>
            && r.firstOperand == Some(Num(Round8(result.r)))
            && ParseFloat(r.currentInput) == Num(Round8(result.r)))
  {
    var typed := Run(s, [OperatorKey(o)] + EntryKeys(e));
    EnterSecondOperand(s, o, e);
    RunThenEquals(s, [OperatorKey(o)] + EntryKeys(e));
    EqualsEntry(typed);
  }

  /** A whole-number result is printed as its digits alone. */
  lemma ShowWhole(n: nat)
    ensures ShowResult(n as real) == IntDigits(n)
    ensures Round8(n as real) == n as real
  {
    assert n as real == Unscale(n * Scale);
    RoundScaledExact(n * Scale);
    Round8Integer(n);
    assert (n * Scale) / Scale == n && (n * Scale) % Scale == 0;
  }

  lemma ParseDigit(d: Digit)
    ensures ParseFloat([d]) == Num(DigitOf(d) as real)
  {
    ParseDigits([d]);
  }

  /** Equals on operands whose result is a whole number n shows n. */
  lemma EqualsWhole(s: State, n: nat)
    requires s.op.Some? && s.firstOperand.Some?
    requires Apply(s.op.value, s.firstOperand.value, ParseFloat(s.currentInput)) == Num(n as real)
    ensures PressEquals(s) == State(IntDigits(n), Some(Num(n as real)), None, true)
  {
    ShowWhole(n);
  }

  /** Folding a pending operation whose result is a whole number n. */
  lemma FoldWhole(s: State, next: Op, n: nat)
    requires s.op.Some? && s.firstOperand.Some? && !s.waiting
    requires Apply(s.op.value, s.firstOperand.value, ParseFloat(s.currentInput)) == Num(n as real)
    ensures PressOperator(s, next) == State(IntDigits(n), Some(Num(n as real)), Some(next), true)
  {
    ShowWhole(n);
  }

  /** Folding a pending sum of two whole numbers. */
  lemma FoldSum(s: State, next: Op, a: nat, b: nat)
    requires s.op == Some(Add) && s.firstOperand == Some(Num(a as real)) && !s.waiting
    requires ParseFloat(s.currentInput) == Num(b as real)
    ensures PressOperator(s, next) == State(IntDigits(a + b), Some(Num((a + b) as real)), Some(next), true)
  {
    assert Apply(Add, Num(a as real), Num(b as real)) == Num((a + b) as real);
    FoldWhole(s, next, a + b);
  }

  /** A digit, an operator, and a second digit, from the initial state. */
  lemma TwoDigits(a: Digit, o: Op, b: Digit)
    ensures Run(Initial, [DigitKey(a), OperatorKey(o), DigitKey(b)])
         == State([b], Some(Num(DigitOf(a) as real)), Some(o), false)
  {
    ParseDigit(a);
    var s1 := State([a], None, None, false);
    assert Step(Initial, DigitKey(a)) == s1;
    var s2 := State([a], Some(Num(DigitOf(a) as real)), Some(o), true);
    assert Step(s1, OperatorKey(o)) == s2;
    assert Step(s2, DigitKey(b)) == State([b], Some(Num(DigitOf(a) as real)), Some(o), false);
    RunThree(Initial, DigitKey(a), OperatorKey(o), DigitKey(b));
  }

  /** a o b = for single digits a and b, with keys in one list. */
  lemma TwoDigitsEquals(a: Digit, o: Op, b: Digit)
    ensures Run(Initial, [DigitKey(a), OperatorKey(o), DigitKey(b), EqualsKey])
         == PressEquals(State([b], Some(Num(DigitOf(a) as real)), Some(o), false))
  {
    TwoDigits(a, o, b);
    RunThenEquals(Initial, [DigitKey(a), OperatorKey(o), DigitKey(b)]);
    assert [DigitKey(a), OperatorKey(o), DigitKey(b)] + [EqualsKey]
        == [DigitKey(a), OperatorKey(o), DigitKey(b), EqualsKey];
  }
}
