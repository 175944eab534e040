/** The arithmetic of the decimal library the pricing code relies on.

    Add, Sub, Mul, Shift and Cmp are exact, so decimals are modelled as
    reals. Div rounds its quotient to 16 places, halves away from zero, which
    is the library's default precision. */
module Decimals {

  /** One unit in the last place of a quotient. */
  const ULP: real := 0.0000000000000001
  const SCALE: real := 10000000000000000.0

  const INT64_RANGE: int := 0x1_0000_0000_0000_0000
  const INT64_LIMIT: int := 0x8000_0000_0000_0000

  function Abs(x: real): real {
    if x < 0.0 then -x else x
  }

  function Min(x: real, y: real): real {
    if x <= y then x else y
  }

  /** The nearest integer, halves away from zero. */
  function RoundUnits(x: real): int {
    if x >= 0.0 then (x + 0.5).Floor else -(0.5 - x).Floor
  }

  function Round16(x: real): real {
    RoundUnits(x * SCALE) as real / SCALE
  }

  function Div(x: real, y: real): real
    requires y != 0.0
  {
    Round16(x / y)
  }

  function Ceil(x: real): int {
    -(-x).Floor
  }

  /** Conversion of a big integer to a signed 64-bit one: its low 64 bits. */
  function Int64(n: int): int {
    var low := n % INT64_RANGE;
    if low < INT64_LIMIT then low else low - INT64_RANGE
  }

  /** The integer part, truncated towards zero. */
  function Trunc(x: real): int {
    if x >= 0.0 then x.Floor else -(-x).Floor
  }

  function Pow10(n: nat): (p: real)
    ensures p > 0.0
  {
    if n == 0 then 1.0 else 10.0 * Pow10(n - 1)
  }

  /** Moves the decimal point `places` to the right. */
  function ShiftUp(x: real, places: nat): real {
    x * Pow10(places)
  }

  /** Moves the decimal point `places` to the left. */
  function ShiftDown(x: real, places: nat): real {
    x / Pow10(places)
  }

  lemma ShiftInverse(x: real, places: nat)
    ensures ShiftUp(ShiftDown(x, places), places) == x
  {
    hide Pow10;
    QuotientTimesDivisor(x, Pow10(places));
  }

  lemma ShiftOrder(x: real, y: real, places: nat)
    ensures x < y <==> ShiftUp(x, places) < ShiftUp(y, places)
  {
    hide Pow10;
    MulOrder(x, y, Pow10(places));
  }

  lemma ShiftSum(x: real, y: real, places: nat)
    ensures ShiftUp(x + y, places) == ShiftUp(x, places) + ShiftUp(y, places)
    ensures ShiftUp(x - y, places) == ShiftUp(x, places) - ShiftUp(y, places)
    ensures ShiftUp(-x, places) == -ShiftUp(x, places)
    ensures ShiftUp(0.0, places) == 0.0
  {
    hide Pow10;
  }

  lemma {:induction false} Pow10Sum(a: nat, b: nat)
    ensures Pow10(a + b) == Pow10(a) * Pow10(b)
  {
    if a > 0 {
      Pow10Sum(a - 1, b);
      Associate(10.0, Pow10(a - 1), Pow10(b));
    }
  }

  lemma Pow10Of16()
    ensures Pow10(16) == SCALE
  {
    assert Pow10(4) == 10000.0;
    Pow10Sum(4, 4);
    Pow10Sum(8, 8);
  }

  lemma Associate(x: real, y: real, z: real)
    ensures x * y * z == x * (y * z)
  {
  }

  /** Rounding is the one integer within half a unit, the farther from zero of
      two equally near ones. */
  lemma RoundUnitsNearest(x: real, k: int)
    ensures k == RoundUnits(x) <==>
            || Abs(k as real - x) < 0.5
            || (Abs(k as real - x) == 0.5 && Abs(k as real) > Abs(x))
  {
  }

  lemma RoundUnitsMonotone(x: real, y: real)
    requires x <= y
    ensures RoundUnits(x) <= RoundUnits(y)
  {
  }

  lemma Round16Error(x: real)
    ensures Abs(Round16(x) - x) <= ULP / 2.0
  {
    var u := RoundUnits(x * SCALE);
    RoundUnitsNearest(x * SCALE, u);
    assert Round16(x) * SCALE == u as real;
  }

  lemma Round16Monotone(x: real, y: real)
    requires x <= y
    ensures Round16(x) <= Round16(y)
  {
    RoundUnitsMonotone(x * SCALE, y * SCALE);
  }

  /** Values with at most 16 places are not changed. */
  lemma Round16Exact(x: real, units: int)
    requires x * SCALE == units as real
    ensures Round16(x) == x
  {
    RoundUnitsNearest(x * SCALE, units);
  }

  lemma Round16Integer(n: int)
    ensures Round16(n as real) == n as real
  {
    Round16Exact(n as real, n * 10000000000000000);
  }

  lemma QuotientTimesDivisor(x: real, y: real)
    requires y != 0.0
    ensures x / y * y == x
  {
  }

  /** Comparison of quotients by cross multiplication. */
  lemma QuotientLe(a: real, b: real, c: real, d: real)
    requires b > 0.0 && d > 0.0
    requires a * d <= c * b
    ensures a / b <= c / d
  {
    var x, y := a / b, c / d;
    assert a * d == x * (b * d) && c * b == y * (b * d);
  }

  /** Division by a positive divisor is monotone. */
  lemma DivMonotone(a: real, b: real, c: real, d: real)
    requires b > 0.0 && d > 0.0
    requires a * d <= c * b
    ensures Div(a, b) <= Div(c, d)
  {
    QuotientLe(a, b, c, d);
    Round16Monotone(a / b, c / d);
  }

  lemma RoundUnitsAtMost(x: real, k: int)
    requires k >= 0
    ensures RoundUnits(x) <= k <==> x < k as real + 0.5
  {
  }

  lemma MulOrder(x: real, y: real, k: real)
    requires k > 0.0
    ensures x < y <==> x * k < y * k
  {
  }

  lemma MulMonotone(x: real, y: real, k: real)
    requires x <= y && k >= 0.0
    ensures x * k <= y * k
  {
  }
}
