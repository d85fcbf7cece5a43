/** The floating-point library calls of the source (`math.sqrt`, `math.acos`,
    `Math.sqrt`, `Math.atan2`) are not computed here: a model function takes
    them as a `MathLib` value, and a lemma that needs one of their properties
    assumes it through `Lawful`. */
module Numerics {

  /** Python's `math.pi` and JavaScript's `Math.PI`. */
  const Pi: real := 3.141592653589793

  datatype MathLib = MathLib(sqrt: real -> real, acos: real -> real, atan2: (real, real) -> real)

  /** The only facts about the library that the proofs rely on: the square
      root of a non-negative number is its non-negative square root, and
      `acos` maps [-1, 1] into [0, pi]. */
  ghost predicate Lawful(m: MathLib)
  {
    && (forall x :: 0.0 <= x ==> 0.0 <= m.sqrt(x) && m.sqrt(x) * m.sqrt(x) == x)
    && (forall c :: -1.0 <= c <= 1.0 ==> 0.0 <= m.acos(c) <= Pi)
  }

  /** Python `math.degrees`, and the `* (180 / Math.PI)` of the dashboard. */
  function Degrees(radians: real): real
  {
    radians * (180.0 / Pi)
  }

  function SumOfSquares(x: real, y: real, z: real): (s: real)
    ensures 0.0 <= s
  {
    x * x + y * y + z * z
  }

  lemma MulPositive(a: real, b: real, c: real)
    requires 0.0 < a && b < c
    ensures a * b < a * c
  {
    assert a * (c - b) == a * c - a * b;
    assert 0.0 < a * (c - b);
  }

  lemma MulNonnegative(a: real, b: real)
    requires 0.0 <= a && 0.0 <= b
    ensures 0.0 <= a * b
  {
  }

  lemma SquareNonnegative(a: real)
    ensures 0.0 <= a * a
  {
    if a < 0.0 {
      MulNonnegative(-a, -a);
      assert (-a) * (-a) == a * a;
    } else {
      MulNonnegative(a, a);
    }
  }

  /** Scaling every coordinate by `k` scales the sum of squares by `k * k`. */
  lemma SumOfSquaresScaled(k: real, x: real, y: real, z: real)
    ensures SumOfSquares(k * x, k * y, k * z) == k * k * SumOfSquares(x, y, z)
  {
    var kk := k * k;
    assert (k * x) * (k * x) == kk * (x * x);
    assert (k * y) * (k * y) == kk * (y * y);
    assert (k * z) * (k * z) == kk * (z * z);
    assert kk * (x * x) + kk * (y * y) + kk * (z * z) == kk * (x * x + y * y + z * z);
  }

  lemma SquareStrictlyIncreasing(q: real, r: real)
    requires 0.0 <= q < r
    ensures q * q < r * r
  {
    MulNonnegative(q, r - q);
    assert q * (r - q) == q * r - q * q;
    MulPositive(r, q, r);
    assert r * q == q * r;
    LessChain(q * q, q * r, r * r);
  }

  lemma LessChain(a: real, b: real, c: real)
    requires a <= b < c
    ensures a < c
  {
  }

  /** Two non-negative numbers with the same square are equal. */
  lemma SquareInjective(q: real, r: real)
    requires 0.0 <= q && 0.0 <= r && q * q == r * r
    ensures q == r
  {
    if q < r {
      SquareStrictlyIncreasing(q, r);
    } else if r < q {
      SquareStrictlyIncreasing(r, q);
    }
  }

  /** The square root is determined by the two facts of `Lawful`. */
  lemma SqrtUnique(m: MathLib, x: real, r: real)
    requires Lawful(m) && 0.0 <= x && 0.0 <= r && r * r == x
    ensures m.sqrt(x) == r
  {
    var q := m.sqrt(x);
    assert 0.0 <= q && q * q == x;
    SquareInjective(q, r);
  }

  lemma SqrtOfZero(m: MathLib)
    requires Lawful(m)
    ensures m.sqrt(0.0) == 0.0
  {
    SqrtUnique(m, 0.0, 0.0);
  }

  lemma SqrtIsZeroOnlyAtZero(m: MathLib, x: real)
    requires Lawful(m) && 0.0 <= x
    ensures m.sqrt(x) == 0.0 <==> x == 0.0
  {
    var r := m.sqrt(x);
    assert r * r == x;
    if x == 0.0 { SqrtOfZero(m); }
  }

  /** Only 0 squares to 0. */
  lemma SquareIsZeroOnlyAtZero(a: real)
    ensures a * a == 0.0 ==> a == 0.0
  {
    if a * a == 0.0 {
      assert 0.0 * 0.0 == 0.0;
      if 0.0 <= a {
        SquareInjective(a, 0.0);
      } else {
        assert (-a) * (-a) == a * a;
        SquareInjective(-a, 0.0);
      }
    }
  }

  /** Non-negative terms add up to 0 only when each of them is 0. */
  lemma ZeroSum(p: real, q: real, r: real)
    requires 0.0 <= p && 0.0 <= q && 0.0 <= r
    ensures p + q + r == 0.0 <==> p == 0.0 && q == 0.0 && r == 0.0
  {
  }

  /** A sum of squares is 0 exactly for the zero vector. */
  lemma SumOfSquaresIsZeroOnlyAtZero(x: real, y: real, z: real)
    ensures SumOfSquares(x, y, z) == 0.0 <==> x == 0.0 && y == 0.0 && z == 0.0
  {
    SquareNonnegative(x);
    SquareNonnegative(y);
    SquareNonnegative(z);
    ZeroSum(x * x, y * y, z * z);
    SquareIsZeroOnlyAtZero(x);
    SquareIsZeroOnlyAtZero(y);
    SquareIsZeroOnlyAtZero(z);
  }

  /** The square root of a positive number is positive. */
  lemma SqrtPositive(m: MathLib, x: real)
    requires Lawful(m) && 0.0 <= x && x != 0.0
    ensures 0.0 < m.sqrt(x)
  {
    SqrtIsZeroOnlyAtZero(m, x);
  }

  lemma SqrtOfScaledSquare(m: MathLib, k: real, x: real)
    requires Lawful(m) && 0.0 < k && 0.0 <= x
    ensures m.sqrt(k * k * x) == k * m.sqrt(x)
  {
    var r := m.sqrt(x);
    assert 0.0 <= r && r * r == x;
    MulNonnegative(k, r);
    assert (k * r) * (k * r) == k * k * x;
    SqrtUnique(m, k * k * x, k * r);
  }
}
