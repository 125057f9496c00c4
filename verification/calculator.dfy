/** The calculator's input state machine: its four pieces of state and the
    five button handlers, each a pure transition from the state the previous
    press left to the next one. */
module Calculator {

  import opened Wrappers
  import opened Values
  import opened Numerals
  import opened DisplayText

  /** The key of a digit button. */
  type Digit = c: char | '0' <= c <= '9' witness '0'

  /** What is displayed or being typed, the operand captured before the
      pending operator, the pending operator, and whether the next digit
      starts a fresh number. */
  datatype State = State(currentInput: string, firstOperand: Option<Value>, op: Option<Op>, waiting: bool)

  /** The text shown when a computation is NaN or not finite. */
  const ErrorMarker: string := "Erro"

  const Initial: State := State("0", None, None, false)

  /** The display text for a computed result: `String(Math.round(x * 10^8) / 10^8)`. */
  function ShowResult(x: real): string
  {
    ShowScaled(RoundScaled(x))
  }

  /** Digit key: replaces the input when a fresh number is due or the input
      is exactly "0", and is appended otherwise. */
  function PressDigit(s: State, d: Digit): State
  {
    if s.waiting then s.(currentInput := [d], waiting := false)
    else s.(currentInput := if s.currentInput == "0" then [d] else s.currentInput + [d])
  }

  /** Decimal point key: starts "0." when a fresh number is due, and is
      appended only to an input without a point. */
  function PressPoint(s: State): State
  {
    if s.waiting then s.(currentInput := "0.", waiting := false)
    else if '.' !in s.currentInput then s.(currentInput := s.currentInput + ".")
    else s
  }

  /** Clear key: back to the initial state. */
  function PressClear(s: State): State
  {
    Initial
  }

  /** Operator key: captures the input as the first operand, or first folds
      the pending operation into it when a second operand has been typed.
      A NaN result abandons the chain and does not record the operator. */
  function PressOperator(s: State, next: Op): State
  {
    var input := ParseFloat(s.currentInput);
    if s.firstOperand.None? then
      s.(firstOperand := Some(input), op := Some(next), waiting := true)
    else if s.op.Some? && !s.waiting then
      var result := Apply(s.op.value, s.firstOperand.value, input);
      if result.NaN? then State(ErrorMarker, None, None, false)
      else State(ShowResult(result.r), Some(Num(Round8(result.r))), Some(next), true)
    else
      s.(op := Some(next), waiting := true)
  }

  /** Equals key: nothing without a pending operator and first operand;
      otherwise evaluates, and always ends with no operator pending and a
      fresh number due. An error keeps the old first operand. */
  function PressEquals(s: State): State
  {
    if s.op.None? || s.firstOperand.None? then s
    else
      var result := Apply(s.op.value, s.firstOperand.value, ParseFloat(s.currentInput));
      if result.NaN? then s.(currentInput := ErrorMarker, op := None, waiting := true)
      else State(ShowResult(result.r), Some(Num(Round8(result.r))), None, true)
  }

  /** The buttons of the calculator. */
  datatype Key = DigitKey(d: Digit) | PointKey | ClearKey | OperatorKey(next: Op) | EqualsKey

  function Step(s: State, key: Key): State
  {
    match key
    case DigitKey(d) => PressDigit(s, d)
    case PointKey => PressPoint(s)
    case ClearKey => PressClear(s)
    case OperatorKey(next) => PressOperator(s, next)
    case EqualsKey => PressEquals(s)
  }

  /** The state after pressing the keys in order, each seeing the state the
      previous one left. */
  function Run(s: State, keys: seq<Key>): State
    decreases |keys|
  {
    if |keys| == 0 then s else Run(Step(s, keys[0]), keys[1..])
  }

  /** A displayed result always reads back as the operand stored with it. */
  lemma ShowResultReadsBack(x: real)
    ensures ParseFloat(ShowResult(x)) == Num(Round8(x))
    ensures IsNumeral(ShowResult(x)) && AtMostOneDot(ShowResult(x)) && !LeadingZero(ShowResult(x))
  {
    ParseShowRoundTrip(RoundScaled(x));
    ShowScaledShape(RoundScaled(x));
  }

  /** Digit entry: a fresh number replaces the input; otherwise "0" is
      replaced and anything else extended. The typed digits accumulate as a
      decimal number, and no redundant leading zero can appear. */
  lemma DigitEntry(s: State, d: Digit)
    ensures var r := PressDigit(s, d);
      && r.firstOperand == s.firstOperand && r.op == s.op && !r.waiting
      && (s.waiting || s.currentInput == "0" ==> r.currentInput == [d])
      && (!s.waiting && s.currentInput != "0" ==> r.currentInput == s.currentInput + [d])
      && (!LeadingZero(s.currentInput) && (s.waiting || |s.currentInput| == 0 || s.currentInput[0] != '-') ==>
            !LeadingZero(r.currentInput))
      && (s.waiting ==> ParseFloat(r.currentInput) == Num(DigitOf(d) as real))
      && (!s.waiting && |s.currentInput| > 0 && AllDigits(s.currentInput) ==>
            ParseFloat(r.currentInput) == Num((DigitsValue(s.currentInput) * 10 + DigitOf(d)) as real))
  {
    ParseDigits([d]);
    if !s.waiting && |s.currentInput| > 0 && AllDigits(s.currentInput) {
      if s.currentInput == "0" {
        assert DigitsValue(s.currentInput) == 0;
      } else {
        ParseAppendDigit(s.currentInput, d);
      }
    }
  }

  /** Decimal point: a fresh number becomes "0."; otherwise a point is added
      only when there is none, so the input always ends up holding a point
      but never a second one, and the number it denotes does not change. */
  lemma PointEntry(s: State)
    ensures var r := PressPoint(s);
      && r.firstOperand == s.firstOperand && r.op == s.op && !r.waiting
      && (s.waiting ==> r.currentInput == "0.")
      && (!s.waiting && '.' in s.currentInput ==> r == s)
      && (!s.waiting && '.' !in s.currentInput ==> r.currentInput == s.currentInput + ".")
      && '.' in r.currentInput
      && (AtMostOneDot(s.currentInput) ==> AtMostOneDot(r.currentInput))
      && (!s.waiting ==> ParseFloat(r.currentInput) == ParseFloat(s.currentInput))
  {
    var r := PressPoint(s);
    if s.waiting {
      assert r.currentInput == "0" + ".";
      OneDot("0", "");
      assert "0" + "." + "" == "0.";
    } else if '.' !in s.currentInput {
      assert r.currentInput[|s.currentInput|] == '.';
      OneDot(s.currentInput, "");
      assert s.currentInput + "." + "" == r.currentInput;
      ParseTrailingDot(s.currentInput);
    }
  }

  /** Pressing the point twice is pressing it once. */
  lemma PointIdempotent(s: State)
    ensures PressPoint(PressPoint(s)) == PressPoint(s)
  {
    PointEntry(s);
  }

  /** Operator choice. With no first operand the input is captured; with an
      operator already chosen and no digit typed since, only the operator is
      replaced. After a typed second operand the pending operation is folded
      in: the display then reads back as the new first operand, or, on NaN,
      the chain is abandoned without recording the new operator. */
  lemma OperatorEntry(s: State, next: Op)
    ensures var r := PressOperator(s, next);
      && (s.firstOperand.None? ==>
            r == s.(firstOperand := Some(ParseFloat(s.currentInput)), op := Some(next), waiting := true))
      && (s.firstOperand.Some? && (s.op.None? || s.waiting) ==>
            r == s.(op := Some(next), waiting := true))
      && (s.firstOperand.Some? && s.op.Some? && !s.waiting ==>
            var result := Apply(s.op.value, s.firstOperand.value, ParseFloat(s.currentInput));
            && (result.NaN? ==> r == State(ErrorMarker, None, None, false))
            && (result.Num? ==>
                  && r.firstOperand == Some(Num(Round8(result.r)))
                  && ParseFloat(r.currentInput) == Num(Round8(result.r))
                  && r.op == Some(next) && r.waiting))
      && ((r.currentInput == ErrorMarker && r.firstOperand.None? && r.op.None? && !r.waiting)
          || (r.firstOperand.Some? && r.op == Some(next) && r.waiting))
  {
    if s.firstOperand.Some? && s.op.Some? && !s.waiting {
      var result := Apply(s.op.value, s.firstOperand.value, ParseFloat(s.currentInput));
      if result.Num? {
        ShowResultReadsBack(result.r);
      }
    }
  }

  /** Equals: no effect without a pending operator and first operand.
      Otherwise the operator is cleared and a fresh number is due; a result
      is shown and stored as the first operand, reading back as it, and an
      error shows the marker and keeps the old first operand. */
  lemma EqualsEntry(s: State)
    ensures var r := PressEquals(s);
      && (s.op.None? || s.firstOperand.None? ==> r == s)
      && (s.op.Some? && s.firstOperand.Some? ==>
            var result := Apply(s.op.value, s.firstOperand.value, ParseFloat(s.currentInput));
            && r.op.None? && r.waiting
            && (result.NaN? ==> r.currentInput == ErrorMarker && r.firstOperand == s.firstOperand)
            && (result.Num? ==>
                  && r.firstOperand == Some(Num(Round8(result.r)))
                  && ParseFloat(r.currentInput) == Num(Round8(result.r))))
  {
    if s.op.Some? && s.firstOperand.Some? {
      var result := Apply(s.op.value, s.firstOperand.value, ParseFloat(s.currentInput));
      if result.Num? {
        ShowResultReadsBack(result.r);
      }
    }
  }

  /** Dividing by a zero second operand is an error whatever the first
      operand: equals shows the marker, and chaining abandons the chain. */
  lemma DivideByZero(s: State, next: Op)
    requires s.op == Some(Divide) && s.firstOperand.Some?
    requires ParseFloat(s.currentInput) == Num(0.0)
    ensures PressEquals(s).currentInput == ErrorMarker
    ensures !s.waiting ==> PressOperator(s, next) == State(ErrorMarker, None, None, false)
  {
    assert Apply(Divide, s.firstOperand.value, Num(0.0)) == NaN;
  }
}
