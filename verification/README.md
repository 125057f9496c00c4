# Calculator input state machine

A Dafny model of the logical core of a four-function pocket calculator written as a
React component (`App.tsx`). The core is a state machine over four pieces of state:

- `currentInput`: the text on the display;
- `firstOperand`: the number captured before the pending operator;
- `operator`: the pending operator;
- `waitingForSecondOperand`: whether the next digit starts a fresh number.

Five button handlers move the machine from one state to the next:

- digit;
- decimal point;
- clear;
- operator, which folds a pending operation in when a second operand has been typed;
- equals.

Arithmetic results are rounded to eight decimals. Any NaN result, including division by
zero, shows the error marker `Erro`.

The model is pure.

- `Calculator.State` is an immutable datatype.
- Each handler is a function from the old state to the new one.
- `Calculator.Run` presses a list of keys in order.
- Numbers are exact reals, and `Value = Num(real) | NaN` carries the not-a-number case.
- `parseFloat` and `String(number)` are given concrete definitions for the texts this
  machine produces (`Numerals.ParseFloat`, `Numerals.ShowScaled`).
- A printed result reads back as exactly the stored operand (`Numerals.ParseShowRoundTrip`).

Modules:

- `Wrappers`: `Option`.
- `Values`: operands, the operator table, eight-decimal rounding.
- `Numerals`: decimal digit strings, `parseFloat`, `String` for rounded results.
- `DisplayText`: the shapes the display text can take.
- `Calculator`: the state, the five handlers, keys and runs, and contract lemmas for the
  digit, point, operator and equals handlers. Clear is covered by
  `CalculatorProperties.ClearForgets`.
- `CalculatorProperties`: the invariant of reachable states, and facts about key
  sequences.
- `Scenarios`: concrete key sequences and what they show.
- `CorrectedCalculator`: the two findings below, with the handlers as written next to the
  corrected ones.

In three places the code does not do what a four-function pocket calculator is expected
to do. The model follows the code:

- **Rounding ties.** `Math.round` sends ties towards positive infinity, so -0.5 units in the
  eighth decimal become 0, where rounding half away from zero would give -1.
  `Values.RoundScaled` is `floor(x * 10^8 + 1/2)`.
- **Stale first operand.** A calculator is expected to ignore the stored result once a new
  number is typed with no operator pending. The code reads it: when an operator is pressed
  after equals and a newly typed number, the old result is kept and the typed number is
  dropped. This is the first finding below.
- **Recovery after an error.** A calculator is expected to start a fresh number with the
  first digit after an error. That holds only after an equals error, which leaves
  `waitingForSecondOperand` set. After a chaining error the flag is cleared, so the digit
  is appended to the marker and gives "Erro5". This is the second finding below.

## Model

| member | source | states |
|---|---|---|
| Values.Apply | App.tsx:12-17 | The operator table gives NaN exactly when an operand is NaN or a division has a zero second operand; otherwise it gives the arithmetic result. |
| Values.ApplyInverse | App.tsx:13-16 | Undoing an operation with its inverse (subtract after add, divide after multiply, and so on) with the same second operand gives back the first operand, whenever the division is defined. |
| Values.RoundScaled | App.tsx:64 | `Math.round(x * 10^8)` is the integer within half a unit of `x * 10^8`. A tie goes up. |
| Values.Round8Near | App.tsx:64 | Rounding to eight decimals moves a result by at most half a unit in the eighth decimal. |
| Values.RoundScaledExact | App.tsx:64 | A number that already has at most eight decimals scales back to its own integer, so rounding does not change it. |
| Values.Round8Idempotent | App.tsx:64 | Rounding a rounded result changes nothing. |
| Values.Round8Integer | App.tsx:64 | Whole-number results are not disturbed by the rounding. |
| Numerals.ParseDigits | App.tsx:47 | `parseFloat` of a non-empty digit string is the whole number those digits denote. |
| Numerals.ParseAppendDigit | App.tsx:24 | Typing one more digit d after digits denoting v makes the input read as 10v + d. |
| Numerals.ParseTrailingDot | App.tsx:35 | A point added to an input without one does not change what the input reads as. |
| Numerals.ParsePointFraction | App.tsx:35 | Digits, a point and digits read as the integer part plus the fraction the digits after the point denote. |
| Numerals.ParseNonNumeric | App.tsx:47 | Text that starts with neither a digit, a sign nor a point, such as the error marker, reads as NaN. |
| Numerals.ParseShowRoundTrip | App.tsx:64-66 | The printed form of a rounded result k / 10^8 reads back as exactly k / 10^8, negative results included. |
| DisplayText.ShowScaledShape | App.tsx:65 | A printed result is a numeral: an optional minus sign, then digits, then at most one point followed by digits. It has no redundant leading zero, before or after the sign. |
| DisplayText.NumeralParses | App.tsx:47 | Every numeral reads as a number, never NaN. |
| Calculator.ShowResultReadsBack | App.tsx:82-84 | The text shown for a result reads back as the rounded value stored as the first operand, and it is a well-formed numeral. |
| Calculator.DigitEntry | App.tsx:19-26 | When a fresh number is due, a digit replaces the input and clears the flag. Otherwise "0" is replaced and any other input is extended. Operand and operator are untouched. A fresh digit reads as itself, typed digits accumulate as 10v + d. No leading zero appears, even after a minus sign, provided that any signed input is a shown result, which a digit replaces. |
| Calculator.PointEntry | App.tsx:28-37 | A fresh number becomes "0.". Otherwise a point is added only to an input without one. The input then holds a point, and never a second one. Unless a fresh number was due, the number it reads as is unchanged. |
| Calculator.PointIdempotent | App.tsx:34-36 | Pressing the point twice is the same as pressing it once. |
| Calculator.OperatorEntry | App.tsx:46-71 | With no first operand, the parsed input is captured. If no digit has been typed since the last operator, or no operator is pending, only the operator is replaced. A typed second operand is folded in: on success the display reads back as the new rounded first operand and the new operator is pending. On NaN the state becomes ("Erro", none, none, false) and the new operator is dropped. In every case other than the error, the new operator is pending and a fresh number is due. |
| Calculator.EqualsEntry | App.tsx:73-89 | With no operator or no first operand, equals changes nothing. Otherwise no operator is left pending and a fresh number is due. A result is shown and stored rounded, and the shown text reads back as the stored value. An error shows the marker and keeps the old first operand. |
| Calculator.DivideByZero | App.tsx:13 | A zero second operand to a pending division gives the error marker on equals. Chaining abandons the chain instead. |
| CalculatorProperties.InitialInv | App.tsx:7-10 | The initial state satisfies the invariant. |
| CalculatorProperties.StepInv | App.tsx:19-89 | Every key preserves the invariant. The display is a numeral or text starting with the error marker. It has at most one point and no leading zero, even after a minus sign. Signed text appears only while a fresh number is due. A pending operator always has a first operand. |
| CalculatorProperties.RunInv | App.tsx:19-89 | Any sequence of keys preserves the invariant. |
| CalculatorProperties.Reachable | App.tsx:7-89 | Every state reachable from power-on satisfies the invariant. |
| CalculatorProperties.ErrorIffNaN | App.tsx:55-56 | In any state satisfying the invariant, so in every reachable state, the display reads as NaN if and only if it holds error text. |
| CalculatorProperties.NaNOperandSticks | App.tsx:77-80 | Once the first operand is NaN, equals shows the marker and chaining abandons the chain. |
| CalculatorProperties.ClearForgets | App.tsx:39-44 | Whatever was pressed before Clear, the machine then behaves as from power-on. |
| CalculatorProperties.EnterNumber | App.tsx:20-24 | Typing digits when a fresh number is due leaves a digit string that reads as the number typed, leading zeros included. Nothing else changes. |
| CalculatorProperties.EnterDecimal | App.tsx:20-35 | Typing integer digits, the point and fraction digits when a fresh number is due leaves text that reads as the integer part plus the fraction. With no integer digits the text is exactly "0." followed by the fraction digits. Nothing else changes. |
| CalculatorProperties.EnterEntry | App.tsx:19-37 | Any number typed on the keypad, whole or with a point, reads back as the number it denotes. Nothing else changes. |
| CalculatorProperties.Evaluate | App.tsx:46-89 | Pressing operator o, typing b (whole or with a point) and pressing equals, starting with no first operand, computes (input o b). On success the display and the stored operand are that value rounded to eight decimals, and the shown text reads back as it. On NaN the marker is shown. Either way no operator is left pending. |
| CalculatorProperties.PoisonedStep | App.tsx:19-89 | Error text typed onto with nothing captured, or a NaN first operand, survives every key but Clear. |
| CalculatorProperties.RunPoisoned | App.tsx:19-89 | Any key sequence without Clear keeps the machine in that poisoned condition. |
| CalculatorProperties.PoisonedResults | App.tsx:55-60 | In the poisoned condition, equals with a pending operator shows the marker and folding a chain abandons it. |
| Scenarios.FivePlusThree | App.tsx:73-89 | 5 + 3 = shows "8" and stores 8. |
| Scenarios.OneOverZero | App.tsx:79-80 | 1 / 0 = shows the marker, keeps 1 as the first operand and leaves no operator pending. |
| Scenarios.Chaining | App.tsx:51-70 | 6 + 3 x 2 = shows "18": pressing x folds the pending sum in first, with no precedence. |
| Scenarios.TenthsAdd | App.tsx:28-37 | 0.1 + 0.2 = shows "0.3". |
| Scenarios.ChainError | App.tsx:55-60 | 1 / 0 + abandons the chain: ("Erro", none, none, false). |
| Scenarios.DigitAfterChainError | App.tsx:57-59 | After a chaining error a digit is appended to the marker, giving "Erro5", which reads as NaN. |
| Scenarios.DigitAfterEqualsError | App.tsx:87-88 | After an equals error, a digit replaces the marker. |
| Scenarios.ErrorPersists | App.tsx:49-50 | Continuing from "Erro5": its NaN becomes the first operand, and the next result is the marker again. |
| CorrectedCalculator.StaleOperandAsWritten | App.tsx:49-51 | As written, an operator pressed after equals and a typed number behaves differently depending on the stale first operand. |
| CorrectedCalculator.NewNumberAfterEqualsAsWritten | App.tsx:46-71 | As written, 2 + 3 = 7 + 1 = shows "6": the typed 7 is dropped. |
| CorrectedCalculator.OperandNotReadFixed | App.tsx:49-51 | Corrected: with no operator pending and a number typed, the operator captures that number. The stale first operand plays no part. |
| CorrectedCalculator.ContinueFromResultFixed | App.tsx:69-70 | Corrected: right after equals, an operator still continues from the result. |
| CorrectedCalculator.NewNumberAfterEqualsFixed | App.tsx:46-71 | Corrected: 2 + 3 = 7 + 1 = shows "8". |
| CorrectedCalculator.FixedAgreesElsewhere | App.tsx:19-89 | The corrected handlers agree with the ones as written everywhere except the two situations they correct: a digit or point typed onto the marker when no fresh number is due, and an operator pressed after a typed number with an operand but no operator pending. |
| CorrectedCalculator.ErrorTextAfterStep | App.tsx:55-60 | As written, the only way to get error text other than the bare marker is to type onto the marker. |
| CorrectedCalculator.StepInvFixed | App.tsx:19-89 | Corrected: every key keeps the display a numeral or the bare marker, with at most one point and no leading zero, even after a minus sign. Signed text appears only while a fresh number is due. A pending operator always has a first operand. |
| CorrectedCalculator.RunInvFixed | App.tsx:19-89 | Corrected: any sequence of keys preserves that invariant. |
| CorrectedCalculator.ReachableFixed | App.tsx:55-60 | Corrected: from power-on, the display reads as NaN exactly when it shows the bare marker. |
| CorrectedCalculator.DigitAfterErrorFixed | App.tsx:19-26 | Corrected: a digit pressed on the marker starts a fresh number that reads as the digit. |
| CorrectedCalculator.DigitAfterChainErrorFixed | App.tsx:55-60 | Corrected: 1 / 0 + 5 shows "5". |

## Left out

- Rendering: the JSX layout, `Display`, `Button` and the `ButtonVariant` enum. They only
  map buttons to handlers, which `Calculator.Key` and `Calculator.Step` stand for.
- React machinery: hooks, `useCallback` dependency lists and batched updates. Each handler
  is modelled as seeing the state left by the previous press, which is what the handlers'
  dependency lists give.
- `handleDigitClick` takes any string; the model takes `Calculator.Digit`, the characters
  '0' to '9', which are all the buttons pass.
- Values.Apply: arithmetic is exact on reals. IEEE-754 rounding of each operation is not
  modelled, and neither is overflow. In the source a raw result outside the double range is
  Infinity, which the test at App.tsx:55 and App.tsx:79 turns into the error marker. A
  finite raw result close to the top of the range can still overflow when multiplied by
  10^8 at App.tsx:64 and App.tsx:82, after that test: the source then shows "Infinity" and
  stores Infinity as the first operand, with no error marker. In the model the only
  non-finite value is the NaN of a zero divisor or a NaN operand.
- Numerals.ParseFloat: models `parseFloat` for an optional sign, digits, a point and
  digits. Exponents, leading whitespace and "Infinity" are not read. In the source
  `String` writes exponent notation (such as "1e+21" or "1e-7") for very large or very
  small results, and `parseFloat` reads that text back as the same value. The model prints
  fixed notation instead (see below), which also reads back as the same value, so the
  numbers computed agree and only the text shown differs.
- Numerals.ShowScaled: prints k / 10^8 in fixed notation. `String(number)` uses exponent
  notation below 10^-6 and from 10^21 up, so results of that size print differently in the
  source.
- Numbers typed with a minus sign: the keypad has no sign key, so `CalculatorProperties.Evaluate`
  covers the non-negative second operands the keys can enter.

## Findings

| source | as written | input that shows it | evidently intended | confidence | as-written member | corrected member |
|---|---|---|---|---|---|---|
| App.tsx:49-51 | An operator with a first operand but no operator pending only records the operator, so a number typed after equals is dropped in favour of the old result. | 2 + 3 = 7 + 1 = shows 6 | The typed number becomes the first operand, and 2 + 3 = 7 + 1 = shows 8. | not executed | CorrectedCalculator.NewNumberAfterEqualsAsWritten | CorrectedCalculator.NewNumberAfterEqualsFixed |
| App.tsx:55-60 | A chaining error clears `waitingForSecondOperand`, and "Erro" is not "0", so the next digit is appended to the marker. The text keeps reading as NaN, and every later result is an error until Clear (`CalculatorProperties.RunPoisoned`, `CalculatorProperties.PoisonedResults`). | 1 / 0 + 5 shows "Erro5" | A digit after an error starts a fresh number, as it does after an equals error. 1 / 0 + 5 shows "5". | not executed | Scenarios.DigitAfterChainError | CorrectedCalculator.DigitAfterChainErrorFixed |
