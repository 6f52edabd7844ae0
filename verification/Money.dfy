/** Money helpers of money.ts. Amounts are integer cents; rates are exact reals (floating-point error is not modelled). */
module Money {
  /** `Math.round`: ties go up. */
  function Round(x: real): (r: int)
    ensures x - 0.5 < r as real <= x + 0.5
  {
    (x + 0.5).Floor
  }

  lemma {:induction false} RoundMonotone(x: real, y: real)
    requires x <= y
    ensures Round(x) <= Round(y)
  {}

  /** Dollars to cents. */
  function Dollars(d: real): int {
    Round(d * 100.0)
  }

  function Abs(x: int): nat {
    if x < 0 then -x else x
  }

  function AbsReal(x: real): real {
    if x < 0.0 then -x else x
  }

  function Min(a: int, b: int): int {
    if a <= b then a else b
  }

  function Max(a: int, b: int): int {
    if a >= b then a else b
  }

  function MaxReal(a: real, b: real): real {
    if a >= b then a else b
  }

  function MinReal(a: real, b: real): real {
    if a <= b then a else b
  }

  function ClampMin0(cents: int): int {
    if cents < 0 then 0 else cents
  }

  /** Half away from zero. */
  function RoundAway(x: real): (r: int)
    ensures AbsReal(r as real - x) <= 0.5
  {
    if x < 0.0 then -Round(-x) else Round(x)
  }

  /** Cents to whole dollars, half away from zero. */
  function ToDollars(cents: int): (d: int)
    ensures Abs(100 * d - cents) <= 50
  {
    RoundAway(cents as real / 100.0)
  }

  /** Cents times a rate, half away from zero. */
  function MulRate(cents: int, rate: real): int {
    RoundAway(cents as real * rate)
  }

  lemma {:induction false} MulRateMonotone(a: int, b: int, rate: real)
    requires a <= b && rate >= 0.0
    ensures MulRate(a, rate) <= MulRate(b, rate)
  {
    var x, y := a as real * rate, b as real * rate;
    assert y - x == (b - a) as real * rate;
    assert (b - a) as real * rate >= 0.0;
  }

  lemma {:induction false} MulRateBounds(cents: int, rate: real)
    requires cents >= 0 && 0.0 <= rate <= 1.0
    ensures 0 <= MulRate(cents, rate) <= cents
  {
    var c := cents as real;
    assert 0.0 <= c * rate;
    assert c * (1.0 - rate) >= 0.0;
    assert c * (1.0 - rate) == c - c * rate;
  }

  /** A whole-dollar amount survives the trip through cents. */
  lemma {:induction false} WholeDollarsRoundTrip(d: int)
    ensures Dollars(d as real) == 100 * d
    ensures ToDollars(Dollars(d as real)) == d
  {
    assert d as real * 100.0 == (100 * d) as real;
    assert (100 * d) as real / 100.0 == d as real;
  }
}
