/** Refresh-rate arithmetic (src/DisplayConfig.cpp). */
module RefreshRates {
  import opened Basics
  import opened Sorting

  const NANOS := 1_000_000_000

  /** RefreshRateToVsyncPeriodNanos. */
  function Period(rate: nat): nat {
    if rate == 0 then 0 else (NANOS + rate / 2) / rate
  }

  /** The period is the nanosecond count nearest to 1 / rate, the longer one of two as near. */
  lemma PeriodIsNearest(rate: nat)
    requires rate > 0
    ensures 2 * NANOS - rate < 2 * (Period(rate) * rate) <= 2 * NANOS + rate
    ensures forall q: int :: 2 * NANOS - rate < 2 * (q * rate) <= 2 * NANOS + rate ==> q == Period(rate)
  {
    var p := Period(rate);
    assert NANOS + rate / 2 == p * rate + (NANOS + rate / 2) % rate;
    forall q: int | 2 * NANOS - rate < 2 * (q * rate) <= 2 * NANOS + rate ensures q == p {
      OneMultiple(p, q, rate, 2 * NANOS - rate);
    }
  }

  lemma OneMultiple(p: int, q: int, rate: nat, low: int)
    requires rate > 0 && low < 2 * (p * rate) <= low + 2 * rate && low < 2 * (q * rate) <= low + 2 * rate
    ensures p == q
  {
    if p < q { LessGap(p, q, rate); }
    if q < p { LessGap(q, p, rate); }
  }

  lemma LessGap(p: int, q: int, rate: nat)
    requires p < q
    ensures q * rate >= p * rate + rate
  {
    assert q * rate == p * rate + (q - p) * rate;
    assert (q - p) * rate == rate + (q - p - 1) * rate;
  }

  /** The largest rate up to which distinct rates have distinct periods. */
  const LAST_DISTINCT_RATE := 31796

  lemma PeriodAtLeast(q: int, rate: nat)
    requires rate > 0 && q * rate <= NANOS + rate / 2
    ensures q <= Period(rate)
  {
    QuotientBound(q, rate, NANOS + rate / 2);
  }

  /** Below the square root of the constant, one more hertz is a shorter period. */
  lemma PeriodDropsLow(rate: nat)
    requires 0 < rate && rate * (rate + 1) <= NANOS
    ensures Period(rate) > Period(rate + 1)
  {
    var n, q := rate + 1, Period(rate + 1);
    PeriodIsNearest(n);
    assert q * n == q * rate + q;
    if q <= rate {
      PeriodAtLeast(rate + 1, rate);
    } else {
      assert (q + 1) * rate == q * rate + rate;
      PeriodAtLeast(q + 1, rate);
    }
  }

  /** Above it, up to the last distinct rate, rate and period add up to a constant. */
  lemma PeriodHigh(rate: nat)
    requires 31623 <= rate <= LAST_DISTINCT_RATE
    ensures Period(rate) == 63246 - rate
  {
    var k := rate - 31623;
    var q := 31623 - k;
    assert q * rate == 1_000_014_129 - k * k by { SquareDifference(31623, k); }
    assert 0 <= k * k <= 29929 by { SquareBound(k, 173); }
    assert (q + 1) * rate == q * rate + rate;
    QuotientIs(q, NANOS + rate / 2, rate);
  }

  lemma SquareDifference(a: int, k: int)
    ensures (a - k) * (a + k) == a * a - k * k
  {}

  lemma SquareBound(k: nat, m: nat)
    requires k <= m
    ensures k * k <= m * m
  {
    assert (m - k) * (m + k) == m * m - k * k;
  }

  lemma PeriodDrops(rate: nat)
    requires 0 < rate < LAST_DISTINCT_RATE
    ensures Period(rate) > Period(rate + 1)
  {
    if rate <= 31622 {
      SquareBound(rate, 31622);
      assert rate * (rate + 1) == rate * rate + rate;
      PeriodDropsLow(rate);
    } else {
      PeriodHigh(rate);
      PeriodHigh(rate + 1);
    }
  }

  lemma {:induction false} PeriodsDrop(low: nat, high: nat)
    requires 0 < low < high <= LAST_DISTINCT_RATE
    ensures Period(low) > Period(high)
    decreases high
  {
    PeriodDrops(high - 1);
    if low < high - 1 { PeriodsDrop(low, high - 1); }
  }

  /** A faster rate never has a longer period, however fast. */
  lemma PeriodNeverRises(low: nat, high: nat)
    requires 0 < low <= high
    ensures Period(low) >= Period(high)
  {
    var q, d := Period(high), high - low;
    if q > 0 {
      assert NANOS + high / 2 == q * high + (NANOS + high / 2) % high;
      assert q * low == q * high - q * d by { Distribute(q, low, d); }
      assert q * d >= d by { Distribute(d, 1, q - 1); }
      assert high / 2 - d <= low / 2;
      PeriodAtLeast(q, low);
    }
  }

  lemma Distribute(q: nat, a: nat, b: nat)
    ensures q * (a + b) == q * a + q * b && q * b >= 0
  {}

  /** Faster rates have strictly shorter periods exactly up to 31796 Hz. */
  lemma StrictExactlyUpTo(limit: nat)
    ensures (forall low, high :: 0 < low < high <= limit ==> Period(low) > Period(high))
            <==> limit <= LAST_DISTINCT_RATE
  {
    if limit <= LAST_DISTINCT_RATE {
      forall low, high | 0 < low < high <= limit ensures Period(low) > Period(high) {
        PeriodsDrop(low, high);
      }
    } else {
      assert Period(31796) == Period(31797) == 31450;
    }
  }

  /** What LimitRefreshRates returns, up to order: the supported rates under the cap, and the cap. */
  ghost predicate Limited(supported: seq<nat>, cap: nat, rates: seq<nat>) {
    && (cap == 0 ==> rates == [])
    && StrictBy(rates, Identity())
    && (cap > 0 ==> forall r: nat :: r in rates <==> (r in supported && 0 < r <= cap) || r == cap)
  }

  method LimitRefreshRates(supported: seq<nat>, cap: nat) returns (rates: seq<nat>)
    ensures Limited(supported, cap, rates)
  {
    rates := [];
    if cap == 0 { return; }
    for i := 0 to |supported|
      invariant forall r: nat :: r in rates <==> r in supported[..i] && 0 < r <= cap
    {
      assert supported[..i + 1] == supported[..i] + [supported[i]];
      if 0 < supported[i] <= cap {
        rates := rates + [supported[i]];
      }
    }
    assert supported[..|supported|] == supported;
    rates := rates + [cap];
    var sorted := SortBy(rates, Identity());
    SameElems(rates, sorted);
    var unique := Unique(sorted, Identity());
    return unique;
  }

  /** The cap itself is always advertised, last, and nothing exceeds it. */
  lemma CapIsLast(supported: seq<nat>, cap: nat, rates: seq<nat>)
    requires Limited(supported, cap, rates) && cap > 0
    ensures rates != [] && rates[|rates| - 1] == cap
    ensures forall r :: r in rates ==> 0 < r <= cap
  {
    assert cap in rates;
    var k :| 0 <= k < |rates| && rates[k] == cap;
    if k < |rates| - 1 { assert rates[|rates| - 1] in rates; }
  }

  /** The specification leaves one result only. */
  lemma LimitedUnique(supported: seq<nat>, cap: nat, a: seq<nat>, b: seq<nat>)
    requires Limited(supported, cap, a) && Limited(supported, cap, b)
    ensures a == b
  {
    if cap > 0 {
      StrictUnique(a, b, Identity());
    }
  }
}
