/** Numbers as the calculator sees them, the operator table, and the
    eight-decimal rounding applied to every computed result. */
module Values {

  /** A JavaScript number restricted to what the calculator can produce:
      a finite real, or NaN. Infinities are not modelled (see README). */
  datatype Value = Num(r: real) | NaN

  /** The four keys of the operator table. */
  datatype Op = Divide | Multiply | Add | Subtract

  /** The operator table: one binary function per operator. Division by a
      zero second operand is NaN by an explicit guard; NaN propagates
      through every operator, as in IEEE arithmetic. */
  function Apply(op: Op, first: Value, second: Value): (r: Value)
    ensures r.NaN? <==> first.NaN? || second.NaN? || (op.Divide? && second == Num(0.0))
  {
    if first.NaN? || second.NaN? then NaN
    else
      match op
      case Divide => if second.r == 0.0 then NaN else Num(first.r / second.r)
      case Multiply => Num(first.r * second.r)
      case Add => Num(first.r + second.r)
      case Subtract => Num(first.r - second.r)
  }

  /** Dividing a product by one of its non-zero factors gives the other. */
  lemma ProductQuotient(a: real, b: real)
    requires b != 0.0
    ensures (a * b) / b == a
  {
    assert (a * b) / b * b == a * b;
  }

  /** The operator that undoes another one. */
  function Inverse(op: Op): Op
  {
    match op
    case Divide => Multiply
    case Multiply => Divide
    case Add => Subtract
    case Subtract => Add
  }

  /** Each table entry computes its own operation: applying the inverse
      operator with the same second operand gives the first operand back. */
  lemma ApplyInverse(op: Op, x: real, y: real)
    requires op.Add? || op.Subtract? || y != 0.0
    ensures Apply(Inverse(op), Apply(op, Num(x), Num(y)), Num(y)) == Num(x)
  {
    match op
    case Divide =>
      assert x / y * y == x;
    case Multiply =>
      ProductQuotient(x, y);
    case Add =>
    case Subtract =>
  }

  /** Results are kept to eight decimal places ... */
  const Decimals: nat := 8

  /** ... by scaling with 10^8. */
  const Scale: nat := 100000000

  /** `Math.round(x * 10^8)`: the integer nearest to x * 10^8, a tie going
      up (towards positive infinity), which is what `Math.round` does. */
  function RoundScaled(x: real): (k: int)
    ensures x * Scale as real - 0.5 < k as real <= x * Scale as real + 0.5
  {
    (x * Scale as real + 0.5).Floor
  }

  /** The number k / 10^8 that a scaled integer stands for. */
  function Unscale(k: int): real
  {
    k as real / Scale as real
  }

  /** `Math.round(x * 10^8) / 10^8`. */
  function Round8(x: real): real
  {
    Unscale(RoundScaled(x))
  }

  /** Rounding moves a result by at most half a unit in the eighth decimal. */
  lemma Round8Near(x: real)
    ensures -0.5 / Scale as real < Round8(x) - x <= 0.5 / Scale as real
  {
    var k := RoundScaled(x);
    var S := Scale as real;
    assert x * S - 0.5 < k as real <= x * S + 0.5;
    calc {
      Round8(x) - x;
      k as real / S - x;
      (k as real - x * S) / S;
    }
  }

  /** A number that already has at most eight decimals is left unchanged. */
  lemma RoundScaledExact(k: int)
    ensures RoundScaled(Unscale(k)) == k
  {
    var S := Scale as real;
    assert Unscale(k) * S == k as real;
  }

  /** Rounding twice is rounding once. */
  lemma Round8Idempotent(x: real)
    ensures Round8(Round8(x)) == Round8(x)
  {
    RoundScaledExact(RoundScaled(x));
  }

  /** Whole numbers are not disturbed by the rounding. */
  lemma Round8Integer(n: int)
    ensures Round8(n as real) == n as real
  {
    assert n as real == Unscale(n * Scale);
    RoundScaledExact(n * Scale);
  }
}
