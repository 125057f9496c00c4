/** The calculator with two corrections to its handlers, next to the
    machine as written:

    - after equals, a number typed before the next operator becomes the
      first operand (as written, the previous result is kept and the typed
      number is discarded);
    - after an error, a digit or point starts a fresh number (as written,
      after a chaining error they are appended to the marker, and the text
      keeps reading as NaN).

    Everything else is the machine as written. */
module CorrectedCalculator {

  import opened Wrappers
  import opened Values
  import opened Numerals
  import opened DisplayText
  import opened Calculator
  import opened CalculatorProperties

  /** A fresh number is due: after an operator or equals, or after an error. */
  predicate FreshEntry(s: State)
  {
    s.waiting || s.currentInput == ErrorMarker
  }

  function PressDigitFixed(s: State, d: Digit): State
  {
    if FreshEntry(s) then s.(currentInput := [d], waiting := false) else PressDigit(s, d)
  }

  function PressPointFixed(s: State): State
  {
    if FreshEntry(s) then s.(currentInput := "0.", waiting := false) else PressPoint(s)
  }

  /** With no operator pending and a number typed since equals, the typed
      number is captured, as in a fresh chain. */
  function PressOperatorFixed(s: State, next: Op): State
  {
    if s.firstOperand.Some? && s.op.None? && !s.waiting then
      s.(firstOperand := Some(ParseFloat(s.currentInput)), op := Some(next), waiting := true)
    else PressOperator(s, next)
  }

  function StepFixed(s: State, key: Key): State
  {
    match key
    case DigitKey(d) => PressDigitFixed(s, d)
    case PointKey => PressPointFixed(s)
    case ClearKey => PressClear(s)
    case OperatorKey(next) => PressOperatorFixed(s, next)
    case EqualsKey => PressEquals(s)
  }

  function RunFixed(s: State, keys: seq<Key>): State
    decreases |keys|
  {
    if |keys| == 0 then s else RunFixed(StepFixed(s, keys[0]), keys[1..])
  }

  /** The corrections change nothing outside the two situations they are
      for: a digit or point typed onto the marker with no fresh number due,
      and an operator pressed with no operator pending after a number was
      typed. */
  lemma FixedAgreesElsewhere(s: State, key: Key)
    requires key.DigitKey? || key.PointKey? ==> !(s.currentInput == ErrorMarker && !s.waiting)
    requires key.OperatorKey? ==> !(s.firstOperand.Some? && s.op.None? && !s.waiting)
    ensures StepFixed(s, key) == Step(s, key)
  {
  }

  /** As written, an operator pressed after equals and a typed number reads
      the stale first operand: the same keys give different states
      depending on a result the user has typed over. */
  lemma StaleOperandAsWritten()
    ensures var s := State("7", Some(Num(5.0)), None, false);
      PressOperator(s, Add) != PressOperator(s.(firstOperand := None), Add)
  {
    var s := State("7", Some(Num(5.0)), None, false);
    assert ParseFloat("7") == Num(7.0) by { ParseDigits("7"); }
    assert PressOperator(s, Add).firstOperand == Some(Num(5.0));
    assert PressOperator(s.(firstOperand := None), Add).firstOperand == Some(Num(7.0));
  }

  /** Corrected: with no operator pending, the first operand is read only
      right after equals, where it is the result on display; once a number
      has been typed it plays no part. */
  lemma OperandNotReadFixed(s: State, next: Op)
    requires s.op.None? && !s.waiting
    ensures PressOperatorFixed(s, next) == PressOperatorFixed(s.(firstOperand := None), next)
    ensures PressOperatorFixed(s, next)
         == s.(firstOperand := Some(ParseFloat(s.currentInput)), op := Some(next), waiting := true)
  {
  }

  /** Corrected: right after equals, an operator continues from the result. */
  lemma ContinueFromResultFixed(s: State, next: Op)
    requires s.op.None? && s.waiting && s.firstOperand.Some?
    ensures PressOperatorFixed(s, next) == s.(op := Some(next), waiting := true)
  {
  }

  /** The invariant of the corrected machine: the only text that is not a
      numeral is the bare marker. */
  predicate InvFixed(s: State)
  {
    && (IsNumeral(s.currentInput) || s.currentInput == ErrorMarker)
    && AtMostOneDot(s.currentInput)
    && !LeadingZero(s.currentInput)
    && SignedOnlyShown(s)
    && (s.op.Some? ==> s.firstOperand.Some?)
  }

  lemma StepInvFixed(s: State, key: Key)
    requires InvFixed(s)
    ensures InvFixed(StepFixed(s, key))
  {
    ErrorMarkerShape();
    if key.DigitKey? && FreshEntry(s) {
      SingleDigit(key.d);
    } else if key.PointKey? && FreshEntry(s) {
      assert DigitPrefix("0.") == "0";
      OneDot("0", "");
      assert "0" + "." + "" == "0.";
    } else if key.OperatorKey? && s.firstOperand.Some? && s.op.None? && !s.waiting {
    } else {
      assert Inv(s);
      StepInv(s, key);
      var r := Step(s, key);
      assert StepFixed(s, key) == r;
      if !IsNumeral(r.currentInput) {
        ErrorTextAfterStep(s, key);
      }
    }
  }

  /** As written, error text other than the bare marker arises only by
      typing onto the marker: any other step that leaves text which is not
      a numeral leaves the bare marker. */
  lemma ErrorTextAfterStep(s: State, key: Key)
    requires Inv(s) && (IsNumeral(s.currentInput) || s.currentInput == ErrorMarker)
    requires key.DigitKey? || key.PointKey? ==> IsNumeral(s.currentInput) && !s.waiting
    requires !IsNumeral(Step(s, key).currentInput)
    ensures Step(s, key).currentInput == ErrorMarker
  {
    var t := s.currentInput;
    match key
    case DigitKey(d) =>
      if t == "0" {
        SingleDigit(d);
      } else {
        NumeralAppendDigit(t, d);
      }
    case PointKey =>
      if '.' !in t {
        NumeralAppendDot(t);
      }
    case ClearKey =>
    case OperatorKey(next) =>
      OperatorEntry(s, next);
      if s.firstOperand.Some? && s.op.Some? && !s.waiting {
        var result := Apply(s.op.value, s.firstOperand.value, ParseFloat(s.currentInput));
        if result.Num? {
          ShowResultReadsBack(result.r);
        }
      }
    case EqualsKey =>
      if s.op.Some? && s.firstOperand.Some? {
        var result := Apply(s.op.value, s.firstOperand.value, ParseFloat(s.currentInput));
        if result.Num? {
          ShowResultReadsBack(result.r);
        }
      }
  }

  lemma {:induction false} RunInvFixed(s: State, keys: seq<Key>)
    requires InvFixed(s)
    ensures InvFixed(RunFixed(s, keys))
    decreases |keys|
  {
    if |keys| > 0 {
      StepInvFixed(s, keys[0]);
      RunInvFixed(StepFixed(s, keys[0]), keys[1..]);
    }
  }

  /** Corrected: from power-on, the display reads as NaN exactly when it
      shows the bare marker, so an error never leaks into a later operand
      through typed text. */
  lemma ReachableFixed(keys: seq<Key>)
    ensures var r := RunFixed(Initial, keys);
      InvFixed(r) && (ParseFloat(r.currentInput).NaN? <==> r.currentInput == ErrorMarker)
  {
    InitialInv();
    RunInvFixed(Initial, keys);
    var r := RunFixed(Initial, keys);
    if r.currentInput == ErrorMarker {
      ParseNonNumeric(ErrorMarker);
    } else {
      NumeralParses(r.currentInput);
    }
  }

  /** Corrected: a digit after an error starts a fresh number. */
  lemma DigitAfterErrorFixed(s: State, d: Digit)
    requires s.currentInput == ErrorMarker
    ensures PressDigitFixed(s, d).currentInput == [d]
    ensures ParseFloat(PressDigitFixed(s, d).currentInput) == Num(DigitOf(d) as real)
  {
    ParseDigits([d]);
  }

  lemma {:induction false} RunFixedAppend(s: State, a: seq<Key>, b: seq<Key>)
    ensures RunFixed(s, a + b) == RunFixed(RunFixed(s, a), b)
    decreases |a|
  {
    if |a| > 0 {
      assert (a + b)[1..] == a[1..] + b;
      RunFixedAppend(StepFixed(s, a[0]), a[1..], b);
    } else {
      assert a + b == b;
    }
  }

  lemma RunFixedThree(s: State, a: Key, b: Key, c: Key)
    ensures RunFixed(s, [a, b, c]) == StepFixed(StepFixed(StepFixed(s, a), b), c)
  {
    var s1 := StepFixed(s, a);
    var s2 := StepFixed(s1, b);
    assert [a, b, c][1..] == [b, c];
    assert RunFixed(s, [a, b, c]) == RunFixed(s1, [b, c]);
    assert [b, c][1..] == [c];
    assert RunFixed(s1, [b, c]) == RunFixed(s2, [c]);
    assert [c][1..] == [];
    assert RunFixed(s2, [c]) == RunFixed(StepFixed(s2, c), []);
  }

  lemma RunFixedThenEquals(s: State, keys: seq<Key>)
    ensures RunFixed(s, keys + [EqualsKey]) == PressEquals(RunFixed(s, keys))
  {
    RunFixedAppend(s, keys, [EqualsKey]);
  }

  /** 2 + 3 = leaves 5 on display and as the first operand, in both machines. */
  lemma SumShown()
    ensures Run(Initial, [DigitKey('2'), OperatorKey(Add), DigitKey('3'), EqualsKey])
         == State("5", Some(Num(5.0)), None, true)
    ensures RunFixed(Initial, [DigitKey('2'), OperatorKey(Add), DigitKey('3'), EqualsKey])
         == State("5", Some(Num(5.0)), None, true)
  {
    var keys := [DigitKey('2'), OperatorKey(Add), DigitKey('3')];
    assert keys + [EqualsKey] == [DigitKey('2'), OperatorKey(Add), DigitKey('3'), EqualsKey];
    TwoDigitsEquals('2', Add, '3');
    RunFixedThenEquals(Initial, keys);
    SumTypedFixed();
    SumEquals(State("3", Some(Num(2.0)), Some(Add), false));
  }

  lemma SumTypedFixed()
    ensures RunFixed(Initial, [DigitKey('2'), OperatorKey(Add), DigitKey('3')])
         == State("3", Some(Num(2.0)), Some(Add), false)
  {
    RunFixedThree(Initial, DigitKey('2'), OperatorKey(Add), DigitKey('3'));
    ParseDigit('2');
    assert StepFixed(Initial, DigitKey('2')) == State("2", None, None, false);
    assert StepFixed(State("2", None, None, false), OperatorKey(Add)) == State("2", Some(Num(2.0)), Some(Add), true);
  }

  lemma SumEquals(s: State)
    requires s == State("3", Some(Num(2.0)), Some(Add), false)
    ensures PressEquals(s) == State("5", Some(Num(5.0)), None, true)
  {
    ParseDigit('3');
    EqualsWhole(s, 5);
    assert IntDigits(5) == "5";
  }

  /** As written, 7 + 1 typed after 2 + 3 = adds 1 to the kept 5. */
  lemma SevenPlusOneAsWritten(s: State)
    requires s == State("5", Some(Num(5.0)), None, true)
    ensures Run(s, [DigitKey('7'), OperatorKey(Add), DigitKey('1')]) == State("1", Some(Num(5.0)), Some(Add), false)
  {
    RunThree(s, DigitKey('7'), OperatorKey(Add), DigitKey('1'));
  }

  /** Corrected, 7 + 1 typed after 2 + 3 = captures 7. */
  lemma SevenPlusOneFixed(s: State)
    requires s == State("5", Some(Num(5.0)), None, true)
    ensures RunFixed(s, [DigitKey('7'), OperatorKey(Add), DigitKey('1')]) == State("1", Some(Num(7.0)), Some(Add), false)
  {
    RunFixedThree(s, DigitKey('7'), OperatorKey(Add), DigitKey('1'));
    ParseDigit('7');
  }

  /** As written: 2 + 3 = 7 + 1 = shows 6, the typed 7 being discarded. */
  lemma NewNumberAfterEqualsAsWritten()
    ensures Run(Initial, [DigitKey('2'), OperatorKey(Add), DigitKey('3'), EqualsKey,
                          DigitKey('7'), OperatorKey(Add), DigitKey('1'), EqualsKey])
         == State("6", Some(Num(6.0)), None, true)
  {
    var sum := [DigitKey('2'), OperatorKey(Add), DigitKey('3'), EqualsKey];
    var next := [DigitKey('7'), OperatorKey(Add), DigitKey('1')];
    assert sum + next + [EqualsKey] == [DigitKey('2'), OperatorKey(Add), DigitKey('3'), EqualsKey,
                                        DigitKey('7'), OperatorKey(Add), DigitKey('1'), EqualsKey];
    RunThenEquals(Initial, sum + next);
    RunAppend(Initial, sum, next);
    SumShown();
    SevenPlusOneAsWritten(Run(Initial, sum));
    PlusOneEquals(Run(Initial, sum + next), 5);
    assert IntDigits(6) == "6";
  }

  /** n + 1 = shows n + 1. */
  lemma PlusOneEquals(s: State, n: nat)
    requires s == State("1", Some(Num(n as real)), Some(Add), false)
    ensures PressEquals(s) == State(IntDigits(n + 1), Some(Num((n + 1) as real)), None, true)
  {
    ParseDigit('1');
    EqualsWhole(s, n + 1);
  }

  /** Corrected: 2 + 3 = 7 + 1 = shows 8. */
  lemma NewNumberAfterEqualsFixed()
    ensures RunFixed(Initial, [DigitKey('2'), OperatorKey(Add), DigitKey('3'), EqualsKey,
                               DigitKey('7'), OperatorKey(Add), DigitKey('1'), EqualsKey])
         == State("8", Some(Num(8.0)), None, true)
  {
    var sum := [DigitKey('2'), OperatorKey(Add), DigitKey('3'), EqualsKey];
    var next := [DigitKey('7'), OperatorKey(Add), DigitKey('1')];
    assert sum + next + [EqualsKey] == [DigitKey('2'), OperatorKey(Add), DigitKey('3'), EqualsKey,
                                        DigitKey('7'), OperatorKey(Add), DigitKey('1'), EqualsKey];
    RunFixedThenEquals(Initial, sum + next);
    RunFixedAppend(Initial, sum, next);
    SumShown();
    SevenPlusOneFixed(RunFixed(Initial, sum));
    PlusOneEquals(RunFixed(Initial, sum + next), 7);
    assert IntDigits(8) == "8";
  }

  /** Corrected: 1 / 0 + 5 shows 5, a fresh number after the error. */
  lemma DigitAfterChainErrorFixed()
    ensures RunFixed(Initial, [DigitKey('1'), OperatorKey(Divide), DigitKey('0'),
                               OperatorKey(Add), DigitKey('5')])
         == State("5", None, None, false)
  {
    var keys := [DigitKey('1'), OperatorKey(Divide), DigitKey('0')];
    assert keys + [OperatorKey(Add), DigitKey('5')]
        == [DigitKey('1'), OperatorKey(Divide), DigitKey('0'), OperatorKey(Add), DigitKey('5')];
    RunFixedAppend(Initial, keys, [OperatorKey(Add), DigitKey('5')]);
    RunFixedThree(Initial, DigitKey('1'), OperatorKey(Divide), DigitKey('0'));
    ParseDigit('1');
    assert StepFixed(Initial, DigitKey('1')) == State("1", None, None, false);
    var s := State("0", Some(Num(1.0)), Some(Divide), false);
    assert RunFixed(Initial, keys) == s;
    ParseDigit('0');
    DivideByZero(s, Add);
    assert [OperatorKey(Add), DigitKey('5')][1..] == [DigitKey('5')];
    assert StepFixed(s, OperatorKey(Add)) == State(ErrorMarker, None, None, false);
  }
}
