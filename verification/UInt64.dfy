/**
  Unsigned 64-bit arithmetic as the controller uses it, with its wrap-around written out, and the
  rounding formula that re-arms periodic work items.
 */
module UInt64 {

  const MODULUS: int := 0x1_0000_0000_0000_0000

  type u64 = x: int | 0 <= x < 0x1_0000_0000_0000_0000

  const MAX: u64 := 0xFFFF_FFFF_FFFF_FFFF

  /** Addition modulo 2^64. */
  function Add(a: int, b: int): u64
  {
    (a + b) % MODULUS
  }

  /**
    `(current + slack + period) / period * period` in 64-bit arithmetic.  The controller uses slack 1
    for the cycle, instruction and macro-instruction counters and slack 0 for nanoseconds.
   */
  function AlignAfter(current: u64, slack: nat, period: u64): (r: u64)
    requires period > 0
    ensures r % period == 0 && r <= Add(current + slack, period)
  {
    var sum := Add(current + slack, period);
    QuotientBounds(sum, period);
    sum / period * period
  }

  /** No wrap happens when the formula above is evaluated. */
  predicate Fits(current: u64, slack: nat, period: u64)
  {
    current + slack + period < MODULUS
  }

  /** A quotient and a remainder in range are the quotient and the remainder. */
  lemma DivModUnique(x: int, d: int, q: int, r: int)
    requires 0 < d && x == q * d + r && 0 <= r < d
    ensures x / d == q && x % d == r
  {
    var q', r' := x / d, x % d;
    assert x == d * q' + r';
    assert (q' - q) * d == r - r' && (q - q') * d == r' - r;
    if q' > q {
      ScaleAtLeast(q' - q, d);
    } else if q' < q {
      ScaleAtLeast(q - q', d);
    }
  }

  lemma ScaleAtLeast(k: int, d: int)
    requires 1 <= k && 0 < d
    ensures d <= k * d
  {
  }

  lemma QuotientBounds(x: int, d: int)
    requires 0 <= x && 0 < d
    ensures 0 <= x / d * d <= x < x / d * d + d
    ensures (x / d * d) % d == 0
  {
    assert x == d * (x / d) + x % d;
    DivModUnique(x / d * d, d, x / d, 0);
  }

  /** Two different multiples of `d` are at least `d` apart. */
  lemma MultiplesApart(x: int, y: int, d: int)
    requires 0 < d && x % d == 0 && y % d == 0 && x < y
    ensures x + d <= y
  {
    var i, j := x / d, y / d;
    assert x == d * i && y == d * j;
    assert (j - i) * d == y - x && (i - j) * d == x - y;
    if i < j {
      ScaleAtLeast(j - i, d);
    } else if j < i {
      ScaleAtLeast(i - j, d);
    }
  }

  /**
    Without wrap-around the formula yields the least multiple of the period that is strictly above
    `current + slack`.
   */
  lemma AlignIsLeastMultiple(current: u64, slack: nat, period: u64)
    requires period > 0 && Fits(current, slack, period)
    ensures var r := AlignAfter(current, slack, period);
            r % period == 0 && current + slack < r <= current + slack + period
    ensures forall m :: m % period == 0 && current + slack < m ==> AlignAfter(current, slack, period) <= m
  {
    var r := AlignAfter(current, slack, period);
    QuotientBounds(current + slack + period, period);
    forall m | m % period == 0 && current + slack < m
      ensures r <= m
    {
      if m < r {
        MultiplesApart(m, r, period);
      }
    }
  }

  /** The re-armed time lies in the future exactly when the addition does not wrap. */
  lemma AlignIsFutureIffFits(current: u64, slack: nat, period: u64)
    requires period > 0 && slack <= 1
    ensures AlignAfter(current, slack, period) > current <==> Fits(current, slack, period)
  {
    var sum := current + slack + period;
    if Fits(current, slack, period) {
      AlignIsLeastMultiple(current, slack, period);
    } else {
      assert sum - MODULUS <= current;
      assert sum % MODULUS == sum - MODULUS;
    }
  }

  /** It is the present itself in two cases only, both with the largest period. */
  lemma AlignIsPresentIff(current: u64, slack: nat, period: u64)
    requires period > 0 && slack <= 1
    ensures AlignAfter(current, slack, period) == current
       <==> slack == 1 && period == MAX && (current == 0 || current == MAX)
  {
    AlignIsFutureIffFits(current, slack, period);
    if !Fits(current, slack, period) {
      var sum := current + slack + period - MODULUS;
      assert Add(current + slack, period) == sum by { DivModUnique(current + slack + period, MODULUS, 1, sum); }
      if slack + period == MODULUS {
        DivModUnique(current, MAX, if current == MAX then 1 else 0, if current == MAX then 0 else current);
      }
    }
  }
}
