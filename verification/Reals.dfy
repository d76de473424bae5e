/** Facts about multiplying and dividing reals that the solver does not find unaided. */
module Reals {
  /** A product kept folded where its factors do not matter. */
  function Times(x: real, y: real): real {
    x * y
  }

  lemma TimesCommutes(x: real, y: real)
    ensures Times(x, y) == Times(y, x)
  {}

  ghost predicate SquareRoot(sqrt: real -> real) {
    forall x :: x >= 0.0 ==> sqrt(x) >= 0.0 && sqrt(x) * sqrt(x) == x
  }

  lemma PartOf(fraction: real, x: real)
    requires 0.0 <= fraction <= 1.0 && x >= 0.0
    ensures 0.0 <= fraction * x <= x
  {
    var rest := 1.0 - fraction;
    assert rest * x >= 0.0;
    assert x == fraction * x + rest * x;
  }

  lemma SquareIsNonNegative(x: real)
    ensures x * x >= 0.0
  {
    if x < 0.0 {
      assert (-x) * (-x) == x * x;
    }
  }

  lemma SquareGrows(x: real, y: real)
    requires 0.0 <= x < y
    ensures x * x < y * y
  {
    assert (y - x) * y > 0.0 && (y - x) * x >= 0.0;
    assert y * y - x * x == (y - x) * y + (y - x) * x;
  }

  lemma SquareOrder(x: real, y: real)
    requires x >= 0.0 && y * y <= x * x
    ensures -x <= y <= x
  {
    if y > x {
      SquareGrows(x, y);
    } else if -y > x {
      assert (-y) * (-y) == y * y;
      SquareGrows(x, -y);
    }
  }

  lemma SquareVanishes(x: real)
    ensures x * x == 0.0 <==> x == 0.0
  {
    if x > 0.0 {
      SquareGrows(0.0, x);
    } else if x < 0.0 {
      SquareGrows(0.0, -x);
    }
  }

  lemma DivideKeepsOrder(a: real, b: real, n: real)
    requires n > 0.0
    ensures a <= b <==> a / n <= b / n
    ensures a < b <==> a / n < b / n
  {
    assert a == (a / n) * n && b == (b / n) * n;
  }

  lemma DivideBySelf(n: real)
    requires n != 0.0
    ensures n / n == 1.0 && (-n) / n == -1.0
  {}

  lemma RatioBound(num: real, den: real)
    requires den > 0.0 && -den <= num <= den
    ensures -1.0 <= num / den <= 1.0
  {
    DivideKeepsOrder(num, den, den);
    DivideKeepsOrder(-den, num, den);
    DivideBySelf(den);
  }
}
