/** Python's numeric operators on exact reals: `round()`, `int()`, and `%`
    on floats. Binary floating point is not modelled; see README. */
module PyNum {

  /** Python 3 `round(x)`: the nearest integer, ties going to the even one. */
  function RoundHalfEven(x: real): (n: int)
    ensures -0.5 <= x - n as real <= 0.5
    ensures (x - n as real == 0.5 || n as real - x == 0.5) ==> n % 2 == 0
  {
    var f := x.Floor;
    var d := x - f as real;
    if d < 0.5 then f
    else if d > 0.5 then f + 1
    else if f % 2 == 0 then f
    else f + 1
  }

  /** The two properties of `RoundHalfEven` single out one integer. */
  lemma RoundHalfEvenUnique(x: real, n: int)
    requires -0.5 <= x - n as real <= 0.5
    requires (x - n as real == 0.5 || n as real - x == 0.5) ==> n % 2 == 0
    ensures RoundHalfEven(x) == n
  {
  }

  /** `int(x)` for a float: truncation toward zero. */
  function Trunc(x: real): (n: int)
    ensures x >= 0.0 ==> 0 <= n && n as real <= x < n as real + 1.0
    ensures x < 0.0 ==> n as real - 1.0 < x <= n as real <= 0.0
  {
    if x >= 0.0 then x.Floor else -((-x).Floor)
  }

  /** `x % m` for floats and `m > 0`: the remainder takes the sign of `m`. */
  function FloorMod(x: real, m: real): (r: real)
    requires m > 0.0
    ensures 0.0 <= r < m
    ensures ((x - r) / m).Floor as real == (x - r) / m
  {
    var f := (x / m).Floor as real;
    FloorBounds(x, m, f);
    x - m * f
  }

  /** The remainder is the one value in [0, m) that differs from `x` by a
      whole multiple of `m`. */
  lemma FloorModUnique(x: real, m: real, k: int, r: real)
    requires m > 0.0 && 0.0 <= r < m && x == k as real * m + r
    ensures FloorMod(x, m) == r
  {
    var q := r / m;
    ScaleBelow(m, r);
    assert x / m == k as real + q;
    assert (x / m).Floor == k;
  }

  /** Adding whole multiples of the modulus does not change the remainder. */
  lemma FloorModPeriodic(x: real, m: real, k: int)
    requires m > 0.0
    ensures FloorMod(x + k as real * m, m) == FloorMod(x, m)
  {
    var f := (x / m).Floor;
    var r := x - m * f as real;
    FloorBounds(x, m, f as real);
    assert x + k as real * m == (f + k) as real * m + r;
    FloorModUnique(x + k as real * m, m, f + k, r);
  }

  lemma ScaleBelow(m: real, r: real)
    requires m > 0.0 && 0.0 <= r < m
    ensures 0.0 <= r / m < 1.0
  {
    var i := 1.0 / m;
    assert i > 0.0;
    assert r / m == r * i;
    assert 1.0 == m * i;
    assert (m - r) * i == m * i - r * i;
    assert (m - r) * i > 0.0;
    assert r * i >= 0.0;
    assert r * i < 1.0;
  }

  lemma FloorBounds(x: real, m: real, f: real)
    requires m > 0.0 && f <= x / m < f + 1.0
    ensures 0.0 <= x - m * f < m
    ensures (m * f) / m == f
  {
    var d := x / m - f;
    assert m * d == x - m * f;
    ScaleUnit(m, d);
  }

  lemma ScaleUnit(m: real, d: real)
    requires m > 0.0 && 0.0 <= d < 1.0
    ensures 0.0 <= m * d < m
  {
    assert m * (1.0 - d) > 0.0;
  }
}
