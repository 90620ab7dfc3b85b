/** Real multiplication and division behind named functions.

    Python floats are modelled as `real`. The geometry proofs use only a
    handful of facts about products and quotients; they are stated once
    here and applied by name, so that the rest of the model reasons about
    `Times` and `Quot` terms linearly.
 */
module Reals {
  function Times(a: real, b: real): real { a * b }

  function Quot(a: real, b: real): real
    requires b != 0.0
  {
    a / b
  }

  function Square(a: real): real { Times(a, a) }

  /** The absolute value, Python's `abs` on a float. */
  function Abs(a: real): (r: real)
    ensures r >= 0.0
    ensures r == a || r == -a
  {
    if a < 0.0 then -a else a
  }

  function Min(a: real, b: real): (r: real)
    ensures r <= a && r <= b
    ensures r == a || r == b
  {
    if a <= b then a else b
  }

  function Max(a: real, b: real): (r: real)
    ensures r >= a && r >= b
    ensures r == a || r == b
  {
    if a >= b then a else b
  }

  lemma ProductPositive(a: real, b: real)
    requires a > 0.0 && b > 0.0
    ensures Times(a, b) > 0.0
  {
  }

  /** A product is zero exactly when a factor is. */
  lemma ProductZero(a: real, b: real)
    ensures Times(a, b) == 0.0 <==> a == 0.0 || b == 0.0
  {
    if a != 0.0 && b != 0.0 {
      assert (a * b) / b == a;
    }
  }

  lemma SquarePositive(a: real)
    ensures Square(a) >= 0.0
    ensures a != 0.0 ==> Square(a) > 0.0
  {
    if a > 0.0 {
      ProductPositive(a, a);
    } else if a < 0.0 {
      ProductPositive(-a, -a);
      assert (-a) * (-a) == a * a;
    }
  }

  /** A sum of two squares is zero exactly when both roots are. */
  lemma SquareSumZero(a: real, b: real)
    ensures Square(a) + Square(b) == 0.0 <==> a == 0.0 && b == 0.0
  {
    SquarePositive(a);
    SquarePositive(b);
  }

  /** Dividing by a non-zero number undoes multiplying by it, and back. */
  lemma QuotCancels(a: real, s: real)
    requires s != 0.0
    ensures Quot(Times(a, s), s) == a
    ensures Times(Quot(a, s), s) == a
  {
  }

  lemma TimesCommutes(a: real, b: real)
    ensures Times(a, b) == Times(b, a)
  {
  }

  lemma TimesNegates(a: real, b: real)
    ensures Times(a, -b) == -Times(a, b)
    ensures Times(-a, b) == -Times(a, b)
  {
  }

  /** Scaling both factors of a cross term by the same `k` leaves the two
      cross terms equal. */
  lemma ScaledCrossTerms(a: real, b: real, k: real)
    ensures Times(Times(a, k), b) == Times(Times(b, k), a)
  {
  }

  /** The dot product of `(a, c) - k (b, d)` with `(b, d)`. */
  lemma ResidualDot(a: real, b: real, c: real, d: real, k: real)
    ensures Times(a - Times(b, k), b) + Times(c - Times(d, k), d)
         == Times(a, b) + Times(c, d) - Times(k, Times(b, b) + Times(d, d))
  {
  }

  /** Multiplying by a positive number keeps the order. */
  lemma TimesMonotone(c: real, x: real, y: real)
    requires c > 0.0
    ensures Times(c, x) > Times(c, y) <==> x > y
    ensures Times(c, x) <= Times(c, y) <==> x <= y
  {
    if x > y {
      ProductPositive(c, x - y);
    } else if x < y {
      ProductPositive(c, y - x);
    }
  }

  lemma ProductNonNegative(a: real, b: real)
    requires a >= 0.0 && b >= 0.0
    ensures Times(a, b) >= 0.0
  {
    if a > 0.0 && b > 0.0 {
      ProductPositive(a, b);
    }
  }

  /** Scaling by `a` and then by `1 / a` gives back the number. */
  lemma ScaleBack(x: real, a: real)
    requires a != 0.0
    ensures Times(Times(x, a), Quot(1.0, a)) == x
  {
  }

  /** A quotient of a non-negative by a positive number is non-negative. */
  lemma QuotNonNegative(a: real, b: real)
    requires a >= 0.0 && b > 0.0
    ensures Quot(a, b) >= 0.0
  {
    if Quot(a, b) < 0.0 {
      QuotCancels(a, b);
      TimesMonotone(b, 0.0, Quot(a, b));
      TimesCommutes(b, Quot(a, b));
      ProductZero(b, 0.0);
      assert false;
    }
  }

  lemma QuotSelf(a: real)
    requires a != 0.0
    ensures Quot(a, a) == 1.0
    ensures Quot(0.0, a) == 0.0
  {
  }

  lemma TimesUnit(a: real)
    ensures Times(1.0, a) == a
    ensures Times(0.0, a) == 0.0
  {
  }
}
