/**
 * Products, quotients, squares and cubes of reals, each carrying the sign
 * rules of an ordered field in its contract. The physics modules compute
 * with these instead of raw `*` and `/` between variables, so that what
 * they prove about energies and volumes follows from the rules stated here
 * by linear reasoning alone.
 */
module RealArith {

  /** `a * b`, with the sign of a product. */
  function Mul(a: real, b: real): (r: real)
    ensures a > 0.0 && b > 0.0 ==> r > 0.0
    ensures a < 0.0 && b < 0.0 ==> r > 0.0
    ensures a > 0.0 && b < 0.0 ==> r < 0.0
    ensures a < 0.0 && b > 0.0 ==> r < 0.0
    ensures a >= 0.0 && b >= 0.0 ==> r >= 0.0
    ensures a == 0.0 || b == 0.0 ==> r == 0.0
  {
    a * b
  }

  /** `x * x`: never negative, and zero only at zero. */
  function Sq(x: real): (r: real)
    ensures r >= 0.0
    ensures x != 0.0 ==> r > 0.0
    ensures x == 0.0 ==> r == 0.0
  {
    Mul(x, x)
  }

  /** `x * x * x`: zero at zero and, for positive `x`, positive and on the same side of 1 as `x`. */
  function Cube(x: real): (r: real)
    ensures x == 0.0 ==> r == 0.0
    ensures x > 0.0 ==> r > 0.0
    ensures x > 0.0 && x > 1.0 ==> r > 1.0
    ensures x > 0.0 && x < 1.0 ==> r < 1.0
    ensures x == 1.0 ==> r == 1.0
  {
    if x > 0.0 then CubeVersusOne(x); Mul(Sq(x), x) else Mul(Sq(x), x)
  }

  /** `a / b`, with the sign of a quotient and its comparison with 1 for a positive divisor. */
  function Div(a: real, b: real): (r: real)
    requires b != 0.0
    ensures a == 0.0 ==> r == 0.0
    ensures b > 0.0 ==> (r > 0.0 <==> a > 0.0) && (r < 0.0 <==> a < 0.0)
    ensures b > 0.0 ==> (r > 1.0 <==> a > b) && (r < 1.0 <==> a < b) && (r == 1.0 <==> a == b)
  {
    if b > 0.0 then RatioSide(a, b); a / b else a / b
  }

  // ---------------------------------------------------------------- proofs

  lemma DivMul(a: real, b: real)
    requires b != 0.0
    ensures (a / b) * b == a
  {
  }

  lemma MulRightStrict(a: real, b: real, c: real)
    requires a < b && c > 0.0
    ensures a * c < b * c
  {
  }

  /** For positive `r2`, the ratio `s2 / r2` lies on the same side of 1 (and of 0) as `s2` of `r2` (and of 0). */
  lemma RatioSide(s2: real, r2: real)
    requires r2 > 0.0
    ensures s2 / r2 > 1.0 <==> s2 > r2
    ensures s2 / r2 < 1.0 <==> s2 < r2
    ensures s2 / r2 == 1.0 <==> s2 == r2
    ensures s2 / r2 > 0.0 <==> s2 > 0.0
    ensures s2 / r2 < 0.0 <==> s2 < 0.0
  {
    var q := s2 / r2;
    DivMul(s2, r2);
    if q > 1.0 { MulRightStrict(1.0, q, r2); }
    if q < 1.0 { MulRightStrict(q, 1.0, r2); }
    if q > 0.0 { MulRightStrict(0.0, q, r2); }
    if q < 0.0 { MulRightStrict(q, 0.0, r2); }
  }

  lemma MulComm(a: real, b: real)
    ensures Mul(a, b) == Mul(b, a)
  {
    assert Mul(a, b) == a * b;
    assert Mul(b, a) == b * a;
    assert a * b == b * a;
  }

  lemma MulAssoc(a: real, b: real, c: real)
    ensures Mul(Mul(a, b), c) == Mul(a, Mul(b, c))
  {
    assert (a * b) * c == a * (b * c);
  }

  /** Multiplication distributes over subtraction. */
  lemma MulSub(a: real, b: real, c: real)
    ensures Mul(a, b - c) == Mul(a, b) - Mul(a, c)
  {
    assert a * (b - c) == a * b - a * c;
  }

  lemma MulNeg(a: real, b: real)
    ensures Mul(a, -b) == -Mul(a, b)
  {
  }

  lemma MulOne(x: real)
    ensures Mul(1.0, x) == x && Mul(x, 1.0) == x
  {
  }

  /** Multiplying by a positive factor keeps a strict order. */
  lemma MulLess(a: real, b: real, c: real)
    requires a < b && c > 0.0
    ensures Mul(a, c) < Mul(b, c)
  {
    MulRightStrict(a, b, c);
  }

  /** The cube of a positive number lies on the same side of 1 as the number. */
  lemma CubeVersusOne(q: real)
    requires q > 0.0
    ensures Mul(Sq(q), q) > 0.0
    ensures q > 1.0 ==> Mul(Sq(q), q) > 1.0
    ensures q < 1.0 ==> Mul(Sq(q), q) < 1.0
    ensures q == 1.0 ==> Mul(Sq(q), q) == 1.0
  {
    MulOne(q);
    MulOne(Sq(q));
    if q > 1.0 {
      MulLess(1.0, q, q);
      MulLess(1.0, Sq(q), q);
    } else if q < 1.0 {
      MulLess(q, 1.0, q);
      MulLess(Sq(q), 1.0, q);
    }
  }

  /** `x^2 - x` is positive above 1, zero at 1 and negative between 0 and 1. */
  lemma SquareMinusSelf(x: real)
    requires x > 0.0
    ensures x > 1.0 ==> Sq(x) - x > 0.0
    ensures x < 1.0 ==> Sq(x) - x < 0.0
    ensures x == 1.0 ==> Sq(x) - x == 0.0
  {
    MulOne(x);
    if x > 1.0 {
      MulLess(1.0, x, x);
    } else if x < 1.0 {
      MulLess(x, 1.0, x);
    }
  }

  /** Squaring is strictly monotone on non-negative reals. */
  lemma SquareMonotone(s: real, d: real)
    requires 0.0 <= s < d
    ensures Sq(s) < Sq(d)
  {
    if s > 0.0 {
      MulLess(s, d, s);
      MulLess(s, d, d);
      MulComm(d, s);
    }
  }

  /** Multiplication distributes over addition. */
  lemma MulAdd(a: real, b: real, c: real)
    ensures Mul(a + b, c) == Mul(a, c) + Mul(b, c)
  {
    assert (a + b) * c == a * c + b * c;
  }

  /** A constant factor can move into the second operand. */
  lemma MulScale(a: real, b: real, k: real)
    ensures Mul(a, b) * k == Mul(a, b * k)
  {
    assert (a * b) * k == a * (b * k);
  }

  /** Doubling one factor doubles the product. */
  lemma MulDouble(a: real, b: real)
    ensures Mul(a, 2.0 * b) == 2.0 * Mul(a, b)
  {
    assert a * (2.0 * b) == 2.0 * (a * b);
  }

  /** Division undoes multiplication by a non-zero factor. */
  lemma MulDivCancel(u: real, c: real)
    requires c != 0.0
    ensures Div(Mul(u, c), c) == u
  {
    assert (u * c) / c == u;
  }

  /** Multiplication undoes division by a non-zero divisor. */
  lemma DivMulCancel(u: real, c: real)
    requires c != 0.0
    ensures Mul(Div(u, c), c) == u
  {
    DivMul(u, c);
  }

  /** Doubling the divisor halves the quotient. */
  lemma DivDouble(a: real, d: real)
    requires d != 0.0
    ensures Div(a, 2.0 * d) == Div(a, d) / 2.0
  {
    var q := a / d;
    var h := q / 2.0;
    var x := a / (2.0 * d);
    DivMul(a, d);
    DivMul(a, 2.0 * d);
    assert q == 2.0 * h;
    assert h * (2.0 * d) == (2.0 * h) * d;
    assert x * (2.0 * d) == h * (2.0 * d);
    MulCancel(x, h, 2.0 * d);
  }

  lemma MulCancel(x: real, y: real, c: real)
    requires c != 0.0 && x * c == y * c
    ensures x == y
  {
    assert (x - y) * c == 0.0;
  }
}
