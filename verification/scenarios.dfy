/** Concrete key sequences and what the display shows after them. */
module Scenarios {

  import opened Wrappers
  import opened Values
  import opened Numerals
  import opened Calculator
  import opened CalculatorProperties

  /** 5 + 3 = shows 8. */
  lemma FivePlusThree()
    ensures Run(Initial, [DigitKey('5'), OperatorKey(Add), DigitKey('3'), EqualsKey])
         == State("8", Some(Num(8.0)), None, true)
  {
    TwoDigitsEquals('5', Add, '3');
    ParseDigit('3');
    EqualsWhole(State("3", Some(Num(5.0)), Some(Add), false), 8);
  }

  /** 1 / 0 = shows the error marker, keeps 1 as the first operand and
      leaves no operator pending. */
  lemma OneOverZero()
    ensures Run(Initial, [DigitKey('1'), OperatorKey(Divide), DigitKey('0'), EqualsKey])
         == State(ErrorMarker, Some(Num(1.0)), None, true)
  {
    TwoDigitsEquals('1', Divide, '0');
    ParseDigit('0');
    DivideByZero(State("0", Some(Num(1.0)), Some(Divide), false), Add);
  }

  /** 6 + 3 x 2, before equals: the sum 9 has been folded in. */
  lemma ChainingTyped()
    ensures Run(Initial, [DigitKey('6'), OperatorKey(Add), DigitKey('3'),
                          OperatorKey(Multiply), DigitKey('2')])
         == State("2", Some(Num(9.0)), Some(Multiply), false)
  {
    var first := [DigitKey('6'), OperatorKey(Add), DigitKey('3')];
    assert first + [OperatorKey(Multiply), DigitKey('2')]
        == [DigitKey('6'), OperatorKey(Add), DigitKey('3'), OperatorKey(Multiply), DigitKey('2')];
    RunAppend(Initial, first, [OperatorKey(Multiply), DigitKey('2')]);
    TwoDigits('6', Add, '3');
    ChainingFold(Run(Initial, first));
  }

  /** x folds the typed sum 6 + 3 in, and 2 is typed after it. */
  lemma ChainingFold(s: State)
    requires s == State("3", Some(Num(6.0)), Some(Add), false)
    ensures Run(s, [OperatorKey(Multiply), DigitKey('2')]) == State("2", Some(Num(9.0)), Some(Multiply), false)
  {
    RunTwo(s, OperatorKey(Multiply), DigitKey('2'));
    ParseDigit('3');
    FoldSum(s, Multiply, 6, 3);
    assert Step(s, OperatorKey(Multiply)) == PressOperator(s, Multiply);
    assert IntDigits(9) == "9";
  }

  /** 6 + 3 x 2 = shows 18: the sum is folded in when x is pressed. */
  lemma Chaining()
    ensures Run(Initial, [DigitKey('6'), OperatorKey(Add), DigitKey('3'),
                          OperatorKey(Multiply), DigitKey('2'), EqualsKey])
         == State("18", Some(Num(18.0)), None, true)
  {
    var typed := [DigitKey('6'), OperatorKey(Add), DigitKey('3'), OperatorKey(Multiply), DigitKey('2')];
    assert typed + [EqualsKey] == [DigitKey('6'), OperatorKey(Add), DigitKey('3'),
                                   OperatorKey(Multiply), DigitKey('2'), EqualsKey];
    RunThenEquals(Initial, typed);
    ChainingTyped();
    ChainingEquals(Run(Initial, typed));
  }

  lemma ChainingEquals(s: State)
    requires s == State("2", Some(Num(9.0)), Some(Multiply), false)
    ensures PressEquals(s) == State("18", Some(Num(18.0)), None, true)
  {
    ParseDigit('2');
    EqualsWhole(s, 18);
    assert IntDigits(18) == "18";
  }

  /** "0." followed by a digit reads as that many tenths. */
  lemma ParseTenths(d: Digit)
    ensures ParseFloat(['0', '.', d]) == Num(DigitOf(d) as real / 10.0)
  {
    assert ['0', '.', d] == "0" + ['.', d];
    assert ['.', d] == "." + [d];
    ParseIntFrac("0", ['.', d], [d]);
    assert DigitsValue([d]) == DigitOf(d);
  }

  /** Typing 0 . d when a fresh number is due. */
  lemma TypeTenths(s: State, d: Digit)
    requires s.waiting || s.currentInput == "0"
    ensures Run(s, [DigitKey('0'), PointKey, DigitKey(d)]) == s.(currentInput := ['0', '.', d], waiting := false)
  {
    var s1 := s.(currentInput := "0", waiting := false);
    assert Step(s, DigitKey('0')) == s1;
    var s2 := s.(currentInput := "0.", waiting := false);
    assert Step(s1, PointKey) == s2;
    assert Step(s2, DigitKey(d)) == s.(currentInput := ['0', '.', d], waiting := false);
    RunThree(s, DigitKey('0'), PointKey, DigitKey(d));
  }

  lemma ShowThreeTenths()
    ensures ShowResult(0.3) == "0.3" && Round8(0.3) == 0.3
  {
    var k := RoundScaled(0.3);
    assert k == 30000000;
    ThreeTenthsDigits(k);
  }

  lemma ThreeTenthsDigits(k: int)
    requires k == 30000000
    ensures ShowScaled(k) == "0.3"
  {
    assert k / Scale == 0 && k % Scale == k;
    assert IntDigits(0) == "0";
    assert PadDigits(30000000, Decimals) == "30000000";
    assert StripZeros("30000000") == "3";
    assert FractionText(k) == ".3";
  }

  /** 0.1 + */
  lemma TenthsFirst()
    ensures Run(Initial, [DigitKey('0'), PointKey, DigitKey('1'), OperatorKey(Add)])
         == State("0.1", Some(Num(0.1)), Some(Add), true)
  {
    var tenth := [DigitKey('0'), PointKey, DigitKey('1')];
    assert tenth + [OperatorKey(Add)] == [DigitKey('0'), PointKey, DigitKey('1'), OperatorKey(Add)];
    RunAppend(Initial, tenth, [OperatorKey(Add)]);
    TypeTenths(Initial, '1');
    var s1 := State("0.1", None, None, false);
    RunOne(s1, OperatorKey(Add));
    ParseTenths('1');
  }

  /** 0.1 + 0.2, before equals. */
  lemma TenthsTyped()
    ensures Run(Initial, [DigitKey('0'), PointKey, DigitKey('1'), OperatorKey(Add),
                          DigitKey('0'), PointKey, DigitKey('2')])
         == State("0.2", Some(Num(0.1)), Some(Add), false)
  {
    var first := [DigitKey('0'), PointKey, DigitKey('1'), OperatorKey(Add)];
    var fifth := [DigitKey('0'), PointKey, DigitKey('2')];
    assert first + fifth == [DigitKey('0'), PointKey, DigitKey('1'), OperatorKey(Add),
                             DigitKey('0'), PointKey, DigitKey('2')];
    RunAppend(Initial, first, fifth);
    TenthsFirst();
    TypeTenths(State("0.1", Some(Num(0.1)), Some(Add), true), '2');
  }

  lemma TenthsEquals(s: State)
    requires s == State("0.2", Some(Num(0.1)), Some(Add), false)
    ensures PressEquals(s) == State("0.3", Some(Num(0.3)), None, true)
  {
    ParseTenths('2');
    assert Apply(Add, Num(0.1), Num(0.2)) == Num(0.3);
    ShowThreeTenths();
  }

  /** 0.1 + 0.2 = shows 0.3. */
  lemma TenthsAdd()
    ensures Run(Initial, [DigitKey('0'), PointKey, DigitKey('1'), OperatorKey(Add),
                          DigitKey('0'), PointKey, DigitKey('2'), EqualsKey])
         == State("0.3", Some(Num(0.3)), None, true)
  {
    var typed := [DigitKey('0'), PointKey, DigitKey('1'), OperatorKey(Add),
                  DigitKey('0'), PointKey, DigitKey('2')];
    assert typed + [EqualsKey] == [DigitKey('0'), PointKey, DigitKey('1'), OperatorKey(Add),
                                   DigitKey('0'), PointKey, DigitKey('2'), EqualsKey];
    RunThenEquals(Initial, typed);
    TenthsTyped();
    TenthsEquals(Run(Initial, typed));
  }

  /** 1 / 0 + : the chain is abandoned. */
  lemma ChainError()
    ensures Run(Initial, [DigitKey('1'), OperatorKey(Divide), DigitKey('0'), OperatorKey(Add)])
         == State(ErrorMarker, None, None, false)
  {
    var keys := [DigitKey('1'), OperatorKey(Divide), DigitKey('0')];
    TwoDigits('1', Divide, '0');
    RunAppend(Initial, keys, [OperatorKey(Add)]);
    assert keys + [OperatorKey(Add)] == [DigitKey('1'), OperatorKey(Divide), DigitKey('0'), OperatorKey(Add)];
    var s := State("0", Some(Num(1.0)), Some(Divide), false);
    RunOne(s, OperatorKey(Add));
    ParseDigit('0');
    DivideByZero(s, Add);
  }

  /** After an error from chaining no fresh number is due, so a digit is
      appended to the marker; the text reads as NaN. */
  lemma DigitAfterChainError()
    ensures var r := Run(Initial, [DigitKey('1'), OperatorKey(Divide), DigitKey('0'),
                                   OperatorKey(Add), DigitKey('5')]);
      r == State("Erro5", None, None, false) && ParseFloat(r.currentInput) == NaN
  {
    var keys := [DigitKey('1'), OperatorKey(Divide), DigitKey('0'), OperatorKey(Add)];
    ChainError();
    RunAppend(Initial, keys, [DigitKey('5')]);
    assert keys + [DigitKey('5')] == [DigitKey('1'), OperatorKey(Divide), DigitKey('0'),
                                       OperatorKey(Add), DigitKey('5')];
    RunOne(State(ErrorMarker, None, None, false), DigitKey('5'));
    ParseNonNumeric("Erro5");
  }

  /** After an error from equals a fresh number is due, so a digit replaces
      the marker. */
  lemma DigitAfterEqualsError()
    ensures Run(Initial, [DigitKey('1'), OperatorKey(Divide), DigitKey('0'), EqualsKey, DigitKey('5')])
         == State("5", Some(Num(1.0)), None, false)
  {
    var keys := [DigitKey('1'), OperatorKey(Divide), DigitKey('0'), EqualsKey];
    OneOverZero();
    RunAppend(Initial, keys, [DigitKey('5')]);
    assert keys + [DigitKey('5')] == [DigitKey('1'), OperatorKey(Divide), DigitKey('0'),
                                       EqualsKey, DigitKey('5')];
    RunOne(State(ErrorMarker, Some(Num(1.0)), None, true), DigitKey('5'));
  }

  /** Continuing from error text: the NaN it reads as becomes the first
      operand, and the next result is an error again. */
  lemma ErrorPersists()
    ensures Run(Initial, [DigitKey('1'), OperatorKey(Divide), DigitKey('0'),
                          OperatorKey(Add), DigitKey('5'), OperatorKey(Add),
                          DigitKey('2'), EqualsKey])
         == State(ErrorMarker, Some(NaN), None, true)
  {
    var keys := [DigitKey('1'), OperatorKey(Divide), DigitKey('0'), OperatorKey(Add), DigitKey('5')];
    DigitAfterChainError();
    var s := State("Erro5", None, None, false);
    RunAppend(Initial, keys, [OperatorKey(Add), DigitKey('2')]);
    RunThenEquals(Initial, keys + [OperatorKey(Add), DigitKey('2')]);
    assert keys + [OperatorKey(Add), DigitKey('2')] + [EqualsKey]
        == [DigitKey('1'), OperatorKey(Divide), DigitKey('0'), OperatorKey(Add), DigitKey('5'),
            OperatorKey(Add), DigitKey('2'), EqualsKey];
    var s1 := State("Erro5", Some(NaN), Some(Add), true);
    assert Step(s, OperatorKey(Add)) == s1;
    var s2 := State("2", Some(NaN), Some(Add), false);
    assert Step(s1, DigitKey('2')) == s2;
    NaNOperandSticks(s2, Add);
  }
}
