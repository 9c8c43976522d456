/** Decimal rounding, ties to even, on exact numbers. */
module Rounding {
  import opened Arithmetic

  function Nearest(x: real): (n: int)
    ensures x - 0.5 <= n as real <= x + 0.5
  {
    var f := x.Floor;
    var d := x - f as real;
    if d < 0.5 || (d == 0.5 && f % 2 == 0) then f else f + 1
  }

  /** Round to the nearest multiple of 1/scale. */
  function Round(x: real, scale: real): real
    requires scale > 0.0
  {
    Nearest(x * scale) as real / scale
  }

  lemma NearestMonotone(x: real, y: real)
    requires x <= y
    ensures Nearest(x) <= Nearest(y)
  {
  }

  lemma NearestUnique(x: real, n: int)
    requires n as real - 0.5 < x < n as real + 0.5
    ensures Nearest(x) == n
  {
  }

  /** Half-way values go to the even neighbour. */
  lemma TiesToEven(n: int)
    ensures Nearest(n as real + 0.5) == if n % 2 == 0 then n else n + 1
  {
  }

  /** Where rounding ends up when its argument comes down to x: to the nearest, ties going up. */
  function NearestFromAbove(x: real): int { (x + 0.5).Floor }

  lemma NearestAbove(x: real, y: real)
    requires x < y
    ensures NearestFromAbove(x) <= Nearest(y)
  {
  }

  lemma NearestJustAbove(x: real) returns (y: real)
    ensures x < y && Nearest(y) == NearestFromAbove(x)
  {
    var n := NearestFromAbove(x);
    y := (x + n as real + 0.5) / 2.0;
    NearestUnique(y, n);
  }

  /** A multiple of 1/scale is its own rounding. */
  lemma RoundExact(x: real, scale: real, n: int)
    requires scale > 0.0 && x * scale == n as real
    ensures Round(x, scale) == x
  {
    hide Nearest;
    NearestUnique(x * scale, n);
    Cancel(x, scale);
  }

  /** Rounding moves a value by at most half a unit. */
  lemma RoundNear(x: real, scale: real)
    requires scale > 0.0
    ensures x - 0.5 / scale <= Round(x, scale) <= x + 0.5 / scale
  {
    hide Nearest;
    QuotientMonotone(x * scale - 0.5, Nearest(x * scale) as real, scale);
    QuotientMonotone(Nearest(x * scale) as real, x * scale + 0.5, scale);
    Cancel(x, scale);
    QuotientAdd(x * scale, 0.5, scale);
    QuotientAdd(x * scale, -0.5, scale);
    NegateQuotient(0.5, scale);
  }

  /** Rounding never reorders two values. */
  lemma RoundMonotone(x: real, y: real, scale: real)
    requires x <= y && scale > 0.0
    ensures Round(x, scale) <= Round(y, scale)
  {
    assert Nearest(x * scale) <= Nearest(y * scale) by {
      ProductMonotone(x, y, scale);
      NearestMonotone(x * scale, y * scale);
    }
    hide Nearest;
    QuotientMonotone(Nearest(x * scale) as real, Nearest(y * scale) as real, scale);
  }
}
