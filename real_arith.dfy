/** Facts about real arithmetic used by the models, and the square root that the
    Python code takes from `math.sqrt` and `np.sqrt`.

    Dafny has no square root on `real`, so every operation that needs one receives
    it as a function parameter `sqrt` constrained by `IsSqrt`: on non-negative
    arguments it returns the non-negative number whose square is the argument. The
    lemmas below turn comparisons of a root into comparisons of squares, and state
    the sign facts about products and quotients that the solver does not find on
    its own. */
module RealArith {

  ghost predicate IsSqrt(sqrt: real -> real) {
    forall x :: 0.0 <= x ==> 0.0 <= sqrt(x) && sqrt(x) * sqrt(x) == x
  }

  /** The product of two positive numbers is positive. */
  lemma MulPos(x: real, y: real)
    requires 0.0 < x && 0.0 < y
    ensures 0.0 < x * y
  {
  }

  /** The product of two non-negative numbers is non-negative. */
  lemma MulNonneg(x: real, y: real)
    requires 0.0 <= x && 0.0 <= y
    ensures 0.0 <= x * y
  {
  }

  /** A square is never negative. */
  lemma SquareNonneg(x: real)
    ensures 0.0 <= x * x
  {
  }

  /** Scaling by a factor in `[0, 1]` keeps a number between zero and itself. */
  lemma ScaleBetween(t: real, d: real)
    ensures 0.0 <= t <= 1.0 && 0.0 <= d ==> 0.0 <= t * d <= d
    ensures 0.0 <= t <= 1.0 && d <= 0.0 ==> d <= t * d <= 0.0
  {
    assert d - t * d == (1.0 - t) * d;
    if t < 0.0 || 1.0 < t {
    } else if 0.0 <= d {
      MulNonneg(t, d);
      MulNonneg(1.0 - t, d);
    } else {
      MulNonneg(t, -d);
      MulNonneg(1.0 - t, -d);
    }
  }

  /** Signs of a quotient by a positive number. */
  lemma DivSigns(a: real, b: real)
    requires 0.0 < b
    ensures a <= 0.0 ==> a / b <= 0.0
    ensures 0.0 <= a ==> 0.0 <= a / b
    ensures b <= a ==> 1.0 <= a / b
    ensures a <= b ==> a / b <= 1.0
  {
  }

  /** Dividing and multiplying back by the same non-zero number is the identity. */
  lemma DivMul(x: real, m: real)
    requires m != 0.0
    ensures x == (x / m) * m
  {
  }

  /** A non-zero number divided by itself is one. */
  lemma DivSelf(m: real)
    requires m != 0.0
    ensures m / m == 1.0
  {
    var q := m / m;
    DivMul(m, m);
    assert (q - 1.0) * m == 0.0;
    if q > 1.0 {
      if m > 0.0 { MulPos(q - 1.0, m); } else { MulPos(q - 1.0, -m); }
    } else if q < 1.0 {
      if m > 0.0 { MulPos(1.0 - q, m); } else { MulPos(1.0 - q, -m); }
    }
  }

  /** Two non-negative numbers compare as their squares do. */
  lemma SquareMonotone(a: real, b: real)
    requires 0.0 <= a && 0.0 <= b
    ensures a < b <==> a * a < b * b
  {
    assert b * b - a * a == (b - a) * (b + a);
    if a < b {
      MulPos(b - a, b + a);
    } else if b < a {
      MulPos(a - b, b + a);
      assert a * a - b * b == (a - b) * (b + a);
    }
  }

  /** `sqrt(x) < c` exactly when `x < c * c`, for a non-negative bound `c`. */
  lemma RootBelow(sqrt: real -> real, x: real, c: real)
    requires IsSqrt(sqrt)
    requires 0.0 <= x && 0.0 <= c
    ensures sqrt(x) < c <==> x < c * c
  {
    SquareMonotone(sqrt(x), c);
  }

  /** Comparing one root with a multiple of another is comparing the radicands,
      the multiple squared: `sqrt(x) < k * sqrt(y)` exactly when `x < k * k * y`. */
  lemma RootBelowScaled(sqrt: real -> real, x: real, y: real, k: real)
    requires IsSqrt(sqrt)
    requires 0.0 <= x && 0.0 <= y && 0.0 <= k
    ensures sqrt(x) < k * sqrt(y) <==> x < k * k * y
  {
    var c := k * sqrt(y);
    MulNonneg(k, sqrt(y));
    RootBelow(sqrt, x, c);
    assert c * c == k * k * (sqrt(y) * sqrt(y));
  }

  /** `sqrt(x) > c` exactly when `x > c * c`, for a non-negative bound `c`. */
  lemma RootAbove(sqrt: real -> real, x: real, c: real)
    requires IsSqrt(sqrt)
    requires 0.0 <= x && 0.0 <= c
    ensures sqrt(x) > c <==> x > c * c
  {
    SquareMonotone(c, sqrt(x));
  }

  /** The root is determined by its square: any non-negative `r` with `r * r == x` is `sqrt(x)`. */
  lemma RootUnique(sqrt: real -> real, x: real, r: real)
    requires IsSqrt(sqrt)
    requires 0.0 <= r && r * r == x
    ensures sqrt(x) == r
  {
    var s := sqrt(x);
    if s < r {
      SquareMonotone(s, r);
    } else if r < s {
      SquareMonotone(r, s);
    }
  }

  /** The root of zero is zero, and only zero has root zero. */
  lemma RootZero(sqrt: real -> real, x: real)
    requires IsSqrt(sqrt)
    requires 0.0 <= x
    ensures sqrt(x) == 0.0 <==> x == 0.0
  {
    if x == 0.0 {
      RootUnique(sqrt, 0.0, 0.0);
    }
  }
}
