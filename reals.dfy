/** Small facts about products of reals that the solver does not find on its own. */
module RealFacts {

  lemma SquarePositive(a: real)
    requires a != 0.0
    ensures a * a > 0.0
  {
    if a < 0.0 {
      assert (-a) * (-a) > 0.0;
      assert (-a) * (-a) == a * a;
    }
  }

  lemma SquareNonNegative(a: real)
    ensures a * a >= 0.0
  {
    if a != 0.0 {
      SquarePositive(a);
    }
  }

  /** Squaring is strictly increasing on the non-negative reals. */
  lemma SquareStrictlyIncreasing(a: real, b: real)
    requires 0.0 <= a < b
    ensures a * a < b * b
  {
    var ab := a * b;
    assert a * a <= ab by {
      assert a * (b - a) >= 0.0;
    }
    assert ab < b * b by {
      assert (b - a) * b > 0.0;
    }
  }

  /** A non-negative square root is unique. */
  lemma SquareRootUnique(d: real, e: real)
    requires d >= 0.0 && e >= 0.0 && d * d == e * e
    ensures d == e
  {
    if d < e {
      SquareStrictlyIncreasing(d, e);
    } else if e < d {
      SquareStrictlyIncreasing(e, d);
    }
  }

  /** A sum of two squares is positive unless both numbers are zero. */
  lemma SumOfSquaresPositive(a: real, b: real)
    ensures a * a + b * b >= 0.0
    ensures a != 0.0 || b != 0.0 ==> a * a + b * b > 0.0
  {
    SquareNonNegative(a);
    SquareNonNegative(b);
    if a != 0.0 {
      SquarePositive(a);
    }
    if b != 0.0 {
      SquarePositive(b);
    }
  }

  /** |a| < bound implies a * a < bound * bound. */
  lemma SquareBelow(a: real, bound: real)
    requires -bound < a < bound
    ensures a * a < bound * bound
  {
    if a >= 0.0 {
      SquareStrictlyIncreasing(a, bound);
    } else {
      SquareStrictlyIncreasing(-a, bound);
      assert (-a) * (-a) == a * a;
    }
  }

  /** For bound >= 0, a outside [-bound, bound] has a square above bound * bound. */
  lemma SquareAbove(a: real, bound: real)
    requires bound >= 0.0
    ensures a > bound || a < -bound ==> a * a > bound * bound
  {
    if a > bound {
      SquareStrictlyIncreasing(bound, a);
    } else if a < -bound {
      SquareStrictlyIncreasing(bound, -a);
      assert (-a) * (-a) == a * a;
    }
  }

  /** For bound >= 0, |a| >= bound implies a * a >= bound * bound. */
  lemma SquareAtLeast(a: real, bound: real)
    requires bound >= 0.0
    ensures a >= bound || a <= -bound ==> a * a >= bound * bound
  {
    if a > bound {
      SquareStrictlyIncreasing(bound, a);
    } else if a < -bound {
      SquareStrictlyIncreasing(bound, -a);
      assert (-a) * (-a) == a * a;
    } else if a == bound || a == -bound {
      assert a * a == bound * bound;
    }
  }

  /** A number with a positive square is not zero. */
  lemma NonZeroFromSquare(x: real)
    ensures x * x > 0.0 ==> x != 0.0
  {
  }

  /** A positive number times a positive factor is positive. */
  lemma MulPositive(a: real, f: real)
    requires a > 0.0 && f > 0.0
    ensures a * f > 0.0
  {
  }

  /** Multiplying by a positive factor keeps a non-strict order. */
  lemma MulMonotone(a: real, b: real, c: real)
    requires a <= b && c > 0.0
    ensures a * c <= b * c
  {
  }

  /** Multiplying by a positive factor keeps a strict order. */
  lemma MulStrictMonotone(a: real, b: real, c: real)
    requires a < b && c > 0.0
    ensures a * c < b * c
  {
  }

  /** A non-negative number divided by a positive one is non-negative. */
  lemma DivNonNegative(a: real, b: real)
    requires a >= 0.0 && b > 0.0
    ensures a / b >= 0.0
  {
  }

  /** The normalised square d^2 / r^2 of an offset d against a radius r. */
  function NormalisedSquare(d: real, r: real): real
    requires r != 0.0
  {
    d * d / (r * r)
  }

  /** For r > 0, the normalised square d^2 / r^2 is never negative, and it is at most 1
      exactly when d lies in [-r, r]. */
  lemma NormalisedSquareBound(d: real, r: real)
    requires r > 0.0
    ensures NormalisedSquare(d, r) >= 0.0
    ensures NormalisedSquare(d, r) <= 1.0 <==> -r <= d <= r
  {
    var q := d * d / (r * r);
    var b := d * d / r / r;
    DivNonNegative(d * d, r);
    DivNonNegative(d * d / r, r);
    assert q * (r * r) == d * d == b * r * r;
    if q < 0.0 {
      MulStrictMonotone(q, b, r);
      MulStrictMonotone(q * r, b * r, r);
    }
    if q <= 1.0 {
      MulMonotone(q, 1.0, r);
      MulMonotone(q * r, r, r);
      SquareAbove(d, r);
    } else {
      MulStrictMonotone(1.0, q, r);
      MulStrictMonotone(r, q * r, r);
      if -r < d < r {
        SquareBelow(d, r);
      }
    }
  }

  /** For rx, ry > 0, a point with dx^2 / rx^2 + dy^2 / ry^2 <= 1 has |dx| <= rx and |dy| <= ry. */
  lemma NormalisedSumBound(dx: real, dy: real, rx: real, ry: real)
    requires rx > 0.0 && ry > 0.0
    ensures NormalisedSquare(dx, rx) + NormalisedSquare(dy, ry) <= 1.0 ==> -rx <= dx <= rx && -ry <= dy <= ry
  {
    NormalisedSquareBound(dx, rx);
    NormalisedSquareBound(dy, ry);
  }

  /** A positive number times a non-positive factor is not positive. */
  lemma MulNonPositive(a: real, f: real)
    requires a > 0.0 && f <= 0.0
    ensures a * f <= 0.0
  {
    assert a * (-f) >= 0.0;
  }

  /** The sign of a product follows the signs of its factors. */
  lemma ProductSign(a: real, b: real)
    ensures a * b > 0.0 <==> (a > 0.0 && b > 0.0) || (a < 0.0 && b < 0.0)
    ensures a * b < 0.0 <==> (a > 0.0 && b < 0.0) || (a < 0.0 && b > 0.0)
  {
    if a < 0.0 && b < 0.0 {
      assert a * b == (-a) * (-b);
    }
    if a < 0.0 && b > 0.0 {
      assert a * b == -((-a) * b);
    }
    if a > 0.0 && b < 0.0 {
      assert a * b == -(a * (-b));
    }
  }

  /** Two numbers whose squares sum to at most r^2 lie in [-r, r]. */
  lemma SumOfSquaresBound(a: real, b: real, r: real)
    requires r >= 0.0 && a * a + b * b <= r * r
    ensures -r <= a <= r && -r <= b <= r
  {
    SquareNonNegative(a);
    SquareNonNegative(b);
    SquareAbove(a, r);
    SquareAbove(b, r);
  }

  /** A function that returns `Math.sqrt` on non-negative arguments: the non-negative root. */
  ghost predicate IsSquareRoot(sqrt: real -> real)
  {
    forall x: real {:trigger sqrt(x)} :: x >= 0.0 ==> sqrt(x) >= 0.0 && sqrt(x) * sqrt(x) == x
  }
}
