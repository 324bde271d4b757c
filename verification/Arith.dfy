/** Facts about products and quotients that the solver does not find unaided. */
module Arith {

  lemma MulMono(a: int, b: int, c: int)
    requires a <= b && c >= 0
    ensures a * c <= b * c && c * a <= c * b
  {
    assert (b - a) * c >= 0;
    assert (b - a) * c == b * c - a * c;
  }

  lemma DivFloor(a: int, d: int)
    requires d > 0
    ensures a / d * d <= a < a / d * d + d
  {
  }

  /** a / d is the largest q with q * d <= a. */
  lemma DivAtLeast(a: int, d: int, q: int)
    requires d > 0 && q * d <= a
    ensures q <= a / d
  {
    assert (a / d + 1) * d == a / d * d + d;
    if a / d < q {
      MulMono(a / d + 1, q, d);
    }
  }

  lemma DivMono(a: int, b: int, d: int)
    requires d > 0 && a <= b
    ensures a / d <= b / d
  {
    DivFloor(a, d);
    DivAtLeast(b, d, a / d);
  }

  lemma QuotientUnique(n: int, d: int, q: int, r: int)
    requires d > 0 && n == q * d + r && 0 <= r < d
    ensures n / d == q && n % d == r
  {
    DivAtLeast(n, d, q);
    var q', r' := n / d, n % d;
    assert n == q' * d + r';
    assert (q' - q) * d == r - r' by {
      assert (q' - q) * d == q' * d - q * d;
    }
    if q < q' {
      MulMono(1, q' - q, d);
    }
  }

  lemma SmallMultiple(d: int, g: int)
    requires -g < d * g < g
    ensures d == 0
  {
    if d >= 1 {
      MulMono(1, d, g);
    } else if d <= -1 {
      MulMono(d, -1, g);
    }
  }

  lemma MultipleMod(q: int, d: int)
    requires d > 0
    ensures (q * d) % d == 0 && (q * d) / d == q
  {
    QuotientUnique(q * d, d, q, 0);
  }

  /** The kernel's roundup(). */
  function RoundUp(x: nat, y: nat): (r: int)
    requires y > 0
  {
    (x + (y - 1)) / y * y
  }

  lemma RoundUpBounds(x: nat, y: nat)
    requires y > 0
    ensures x <= RoundUp(x, y) < x + y
    ensures RoundUp(x, y) % y == 0
  {
    DivFloor(x + (y - 1), y);
    MultipleMod((x + (y - 1)) / y, y);
  }
}
