// Rounding of exact quantities to whole units (src/adaptive_quant/core/money.py).
//
// Every Decimal quantisation of the source counts quanta: cents, price ticks or
// lot steps. Here the exact value is a real number measured in the target unit
// and the result is the integer number of units.
module Rounding {

  // Banker's rounding (ROUND_HALF_EVEN). The contract pins the result down: it is
  // the only integer within half a unit that is even on a tie (RoundingIsUnique).
  function RoundHalfEven(x: real): (r: int)
    ensures -0.5 <= x - r as real <= 0.5
    ensures x - r as real == 0.5 || r as real - x == 0.5 ==> r % 2 == 0
  {
    var below := x.Floor;
    var fraction := x - below as real;
    if fraction < 0.5 then below
    else if fraction > 0.5 then below + 1
    else if below % 2 == 0 then below
    else below + 1
  }

  lemma RoundingIsUnique(x: real, r: int)
    requires -0.5 <= x - r as real <= 0.5
    requires x - r as real == 0.5 || r as real - x == 0.5 ==> r % 2 == 0
    ensures r == RoundHalfEven(x)
  {
  }

  // The whole number nearest to `x`, the even one of two.
  predicate Nearest(r: int, x: real) {
    && -0.5 <= x - r as real <= 0.5
    && (x - r as real == 0.5 || r as real - x == 0.5 ==> r % 2 == 0)
  }

  lemma RoundingIsMonotone(x: real, y: real)
    requires x <= y
    ensures RoundHalfEven(x) <= RoundHalfEven(y)
  {
    var r, s := RoundHalfEven(x), RoundHalfEven(y);
    if s < r {
      assert (r - s) as real == r as real - s as real >= 1.0;
      RoundingIsUnique(x, s);
    }
  }

  // Whole units are left alone, so rounding never leaves an interval with whole ends.
  lemma RoundingKeepsWholeBounds(x: real, lo: int, hi: int)
    requires lo as real <= x <= hi as real
    ensures lo <= RoundHalfEven(x) <= hi
    ensures x == lo as real ==> RoundHalfEven(x) == lo
  {
    RoundingIsUnique(lo as real, lo);
    RoundingIsUnique(hi as real, hi);
    RoundingIsMonotone(lo as real, x);
    RoundingIsMonotone(x, hi as real);
  }

  // Rounding towards zero (ROUND_DOWN).
  function RoundDown(x: real): (r: int)
    ensures 0.0 <= x ==> r as real <= x < r as real + 1.0 && 0 <= r
    ensures x <= 0.0 ==> r as real - 1.0 < x <= r as real && r <= 0
  {
    if x >= 0.0 then x.Floor else -((-x).Floor)
  }

  // The whole-unit slice of `amount` for `part` out of `whole`.
  function ProRata(amount: int, part: int, whole: int): int
    requires whole > 0
  {
    RoundHalfEven((amount * part) as real / whole as real)
  }

  // `x` is the exact part amount * part / whole, to the nearest unit and the even one of
  // two.
  predicate NearestPart(x: int, amount: int, part: int, whole: int) {
    && -whole <= 2 * (x * whole - amount * part) <= whole
    && (2 * (x * whole - amount * part) == whole || 2 * (x * whole - amount * part) == -whole ==> x % 2 == 0)
  }

  lemma ProRataIsNearest(amount: int, part: int, whole: int)
    requires whole > 0
    ensures NearestPart(ProRata(amount, part, whole), amount, part, whole)
  {
    hide RoundHalfEven;
    var r := ProRata(amount, part, whole);
    ScaledError(amount * part, whole, r);
    if 2 * (r * whole - amount * part) == whole || 2 * (r * whole - amount * part) == -whole {
      TieIsHalf(amount * part, whole, r);
    }
  }

  lemma TieIsHalf(n: int, d: int, r: int)
    requires d > 0 && (2 * (r * d - n) == d || 2 * (r * d - n) == -d)
    ensures n as real / d as real - r as real == if 2 * (r * d - n) == d then -0.5 else 0.5
  {
    WholeProduct(r, d);
    RealTie(n as real, d as real, r as real);
  }

  lemma RealTie(n: real, d: real, r: real)
    requires d > 0.0 && (2.0 * (r * d - n) == d || 2.0 * (r * d - n) == -d)
    ensures n / d - r == if 2.0 * (r * d - n) == d then -0.5 else 0.5
  {
    var x := n / d;
    assert x * d == n;
    if 2.0 * (r * d - n) == d {
      assert (x - r + 0.5) * d == 0.0;
    } else {
      assert (x - r - 0.5) * d == 0.0;
    }
  }

  // A slice is within half a unit of its exact share.
  lemma ProRataError(amount: int, part: int, whole: int)
    requires whole > 0
    ensures -whole <= 2 * (ProRata(amount, part, whole) * whole - amount * part) <= whole
  {
    ScaledError(amount * part, whole, ProRata(amount, part, whole));
  }

  lemma ScaledError(n: int, d: int, r: int)
    requires d > 0
    requires -0.5 <= n as real / d as real - r as real <= 0.5
    ensures -d <= 2 * (r * d - n) <= d
  {
    RealScaledError(n as real, d as real, r as real);
    WholeProduct(r, d);
  }

  lemma RealScaledError(n: real, d: real, r: real)
    requires d > 0.0 && -0.5 <= n / d - r <= 0.5
    ensures -d <= 2.0 * (r * d - n) <= d
  {
    var x := n / d;
    assert x * d == n;
    var e := x - r;
    ScaleBounds(e, d);
    assert e * d == n - r * d;
  }

  lemma WholeProduct(a: int, b: int)
    ensures (a * b) as real == a as real * b as real
  {
  }

  lemma ScaleBounds(e: real, d: real)
    requires d > 0.0 && -0.5 <= e <= 0.5
    ensures -d <= 2.0 * (e * d) <= d
  {
  }

  lemma ProRataBetween(amount: int, part: int, whole: int)
    requires 0 <= amount && 0 <= part <= whole && whole > 0
    ensures 0 <= ProRata(amount, part, whole) <= amount
    ensures part == whole ==> ProRata(amount, part, whole) == amount
  {
    WholeProduct(amount, part);
    QuotientBounds(amount as real, part as real, whole as real);
    RoundingKeepsWholeBounds((amount * part) as real / whole as real, 0, amount);
    if part == whole {
      RoundingIsUnique(amount as real, amount);
    }
  }

  lemma QuotientBounds(a: real, p: real, w: real)
    requires 0.0 <= a && 0.0 <= p <= w && w > 0.0
    ensures 0.0 <= a * p / w <= a
    ensures p == w ==> a * p / w == a
  {
    var x := a * p / w;
    assert x * w == a * p <= a * w;
  }
}
