/**
 * Drift-free integration of a fractional rate into whole relative-motion
 * steps: each tick adds the target rate to a carried remainder, emits the
 * integer part truncated toward zero and keeps the `fmod(_, 1)` leftover.
 */
module Integrate {

  /** `int(x)` on a float: truncation toward zero. */
  function Trunc(x: real): (n: int)
    ensures x >= 0.0 ==> 0 <= n && n as real <= x < n as real + 1.0
    ensures x < 0.0 ==> n <= 0 && n as real - 1.0 < x <= n as real
  {
    if x >= 0.0 then x.Floor else -((-x).Floor)
  }

  /**
   * `math.fmod(x, 1)`: the leftover keeps the sign of `x`, is smaller than 1
   * in magnitude, and `x` minus it is a whole number.
   */
  function FMod1(x: real): (r: real)
    ensures -1.0 < r < 1.0
    ensures x >= 0.0 ==> r >= 0.0
    ensures x <= 0.0 ==> r <= 0.0
    ensures (x - r).Floor as real == x - r
  {
    x - Trunc(x) as real
  }

  /** One loop tick at target `rate` with carried remainder `r`: (emitted, new remainder). */
  function Step(rate: real, r: real): (res: (int, real))
    ensures res.0 as real + res.1 == rate + r
    ensures -1.0 < res.1 < 1.0
    ensures rate + r >= 0.0 ==> res.1 >= 0.0 && res.0 >= 0
    ensures rate + r <= 0.0 ==> res.1 <= 0.0 && res.0 <= 0
  {
    (Trunc(rate + r), FMod1(rate + r))
  }

  function Sum(s: seq<int>): int
  {
    if |s| == 0 then 0 else Sum(s[..|s| - 1]) + s[|s| - 1]
  }

  function SumR(s: seq<real>): real
  {
    if |s| == 0 then 0.0 else SumR(s[..|s| - 1]) + s[|s| - 1]
  }

  /**
   * The ticks of one loop run, one target rate per tick, starting from
   * remainder `r0`: the values emitted and the remainder left.
   * Whatever the rates, what was emitted plus what is carried equals what was
   * asked for, so truncation never loses motion.
   */
  function Accumulate(rates: seq<real>, r0: real): (res: (seq<int>, real))
    ensures |res.0| == |rates|
    ensures Sum(res.0) as real + res.1 == SumR(rates) + r0
    ensures |rates| > 0 ==> -1.0 < res.1 < 1.0
    ensures |rates| == 0 ==> res.1 == r0
    ensures r0 == 0.0 ==> -1.0 < SumR(rates) - Sum(res.0) as real < 1.0
    decreases |rates|
  {
    if |rates| == 0 then ([], r0)
    else
      var prev := Accumulate(rates[..|rates| - 1], r0);
      var tick := Step(rates[|rates| - 1], prev.1);
      assert (prev.0 + [tick.0])[..|prev.0|] == prev.0;
      (prev.0 + [tick.0], tick.1)
  }

  lemma {:induction false} AccumulateSnoc(rates: seq<real>, x: real, r0: real)
    ensures Accumulate(rates + [x], r0).0 == Accumulate(rates, r0).0 + [Step(x, Accumulate(rates, r0).1).0]
    ensures Accumulate(rates + [x], r0).1 == Step(x, Accumulate(rates, r0).1).1
  {
    assert (rates + [x])[..|rates|] == rates;
  }

  /** The same rate for `n` ticks. */
  function Repeat(x: real, n: nat): (s: seq<real>)
    ensures |s| == n && forall k :: 0 <= k < n ==> s[k] == x
  {
    seq(n, _ => x)
  }

  /** Every rate multiplied by a channel weight. */
  function Scaled(rates: seq<real>, w: real): (s: seq<real>)
    ensures |s| == |rates| && forall k :: 0 <= k < |rates| ==> s[k] == rates[k] * w
  {
    seq(|rates|, k requires 0 <= k < |rates| => rates[k] * w)
  }

  /** The rate of one wheel channel: the target rate times the channel's weight. */
  function Weighted(rate: real, weight: real): real
  {
    rate * weight
  }

  lemma ScaledSnoc(rates: seq<real>, x: real, w: real)
    ensures Scaled(rates + [x], w) == Scaled(rates, w) + [Weighted(x, w)]
  {
    var lhs, rhs := Scaled(rates + [x], w), Scaled(rates, w) + [x * w];
    forall k | 0 <= k < |lhs|
      ensures lhs[k] == rhs[k]
    {
      if k < |rates| {
        assert (rates + [x])[k] == rates[k];
      } else {
        assert (rates + [x])[k] == x;
      }
    }
  }

  lemma {:induction false} SumRepeat(x: real, n: nat)
    ensures SumR(Repeat(x, n)) == n as real * x
  {
    if n > 0 {
      assert Repeat(x, n)[..n - 1] == Repeat(x, n - 1);
      SumRepeat(x, n - 1);
    }
  }

  lemma {:induction false} SumScaled(rates: seq<real>, w: real)
    ensures SumR(Scaled(rates, w)) == w * SumR(rates)
  {
    if |rates| > 0 {
      var n := |rates|;
      var init := rates[..n - 1];
      assert Scaled(rates, w)[..n - 1] == Scaled(init, w) by {
        forall k | 0 <= k < n - 1
          ensures Scaled(rates, w)[..n - 1][k] == Scaled(init, w)[k]
        {
          assert init[k] == rates[k];
        }
      }
      SumScaled(init, w);
      assert SumR(Scaled(rates, w)) == w * SumR(init) + rates[n - 1] * w;
    }
  }

  /** With non-negative rates from a non-negative remainder, the remainder stays non-negative. */
  lemma {:induction false} RemainderNonNegative(rates: seq<real>, r0: real)
    requires r0 >= 0.0
    requires forall k :: 0 <= k < |rates| ==> rates[k] >= 0.0
    ensures Accumulate(rates, r0).1 >= 0.0
  {
    if |rates| > 0 {
      RemainderNonNegative(rates[..|rates| - 1], r0);
    }
  }

  /** With non-positive rates from a non-positive remainder, the remainder stays non-positive. */
  lemma {:induction false} RemainderNonPositive(rates: seq<real>, r0: real)
    requires r0 <= 0.0
    requires forall k :: 0 <= k < |rates| ==> rates[k] <= 0.0
    ensures Accumulate(rates, r0).1 <= 0.0
  {
    if |rates| > 0 {
      RemainderNonPositive(rates[..|rates| - 1], r0);
    }
  }

  /**
   * A constant rate held for `n` ticks from a fresh loop emits in total
   * exactly `n * rate` truncated toward zero, so the total never strays a
   * whole step from what was asked for, for either sign of the rate.
   */
  lemma ConstantRateTotal(rate: real, n: nat)
    ensures Sum(Accumulate(Repeat(rate, n), 0.0).0) == Trunc(n as real * rate)
    ensures -1.0 < n as real * rate - Sum(Accumulate(Repeat(rate, n), 0.0).0) as real < 1.0
  {
    var res := Accumulate(Repeat(rate, n), 0.0);
    SumRepeat(rate, n);
    TotalSign(rate, n);
    if rate >= 0.0 {
      RemainderNonNegative(Repeat(rate, n), 0.0);
    } else {
      RemainderNonPositive(Repeat(rate, n), 0.0);
    }
    TruncOfBalance(n as real * rate, Sum(res.0), res.1);
  }

  /** The sign of `n * rate`. */
  lemma TotalSign(rate: real, n: nat)
    ensures rate >= 0.0 ==> n as real * rate >= 0.0
    ensures rate < 0.0 && n > 0 ==> n as real * rate < 0.0
    ensures n == 0 ==> n as real * rate == 0.0
  {
    if n > 0 {
      var k := n as real;
      assert k * rate - rate == (k - 1.0) * rate;
    }
  }

  /**
   * A whole number plus a remainder smaller than one, on the same side of
   * zero as their sum, is the sum truncated toward zero.
   */
  lemma TruncOfBalance(total: real, m: int, r: real)
    requires m as real + r == total
    requires -1.0 < r < 1.0
    requires total >= 0.0 ==> r >= 0.0
    requires total < 0.0 ==> r <= 0.0
    ensures m == Trunc(total)
    ensures -1.0 < total - m as real < 1.0
  {
    TruncUnique(total, m);
  }

  /** An integer within one step of `x` on the side of zero is `Trunc(x)`. */
  lemma TruncUnique(x: real, m: int)
    requires x >= 0.0 ==> m as real <= x < m as real + 1.0
    requires x < 0.0 ==> m as real - 1.0 < x <= m as real
    ensures m == Trunc(x)
  {
    var t := Trunc(x);
    assert (m - t) as real < 1.0 && (t - m) as real < 1.0;
  }

  /**
   * Two channels fed the same rates with weights `w0` and `w1 = 120 * w0`
   * (the low- and high-resolution wheel): whatever the rates, the second
   * channel's emitted-plus-carried motion is exactly 120 times the first's,
   * so their emitted totals keep the 1:120 ratio up to less than 121 units
   * of the second channel.
   */
  lemma WheelRatio(rates: seq<real>, w0: real, w1: real)
    requires w1 == 120.0 * w0
    ensures var lo := Accumulate(Scaled(rates, w0), 0.0);
            var hi := Accumulate(Scaled(rates, w1), 0.0);
            Sum(hi.0) as real + hi.1 == 120.0 * (Sum(lo.0) as real + lo.1)
    ensures var lo := Accumulate(Scaled(rates, w0), 0.0);
            var hi := Accumulate(Scaled(rates, w1), 0.0);
            -121.0 < Sum(hi.0) as real - 120.0 * Sum(lo.0) as real < 121.0
  {
    var lo := Accumulate(Scaled(rates, w0), 0.0);
    var hi := Accumulate(Scaled(rates, w1), 0.0);
    assert Sum(lo.0) as real + lo.1 == SumR(Scaled(rates, w0));
    assert Sum(hi.0) as real + hi.1 == SumR(Scaled(rates, w1));
    SumScaledRatio(rates, w0, w1);
  }

  lemma {:induction false} SumScaledRatio(rates: seq<real>, w0: real, w1: real)
    requires w1 == 120.0 * w0
    ensures SumR(Scaled(rates, w1)) == 120.0 * SumR(Scaled(rates, w0))
  {
    SumScaled(rates, w0);
    SumScaled(rates, w1);
    var total := SumR(rates);
    assert w1 * total == 120.0 * (w0 * total);
  }

  /**
   * A constant deflection on a channel of weight `w` is a constant rate of
   * `rate * w`, so `ConstantRateTotal` gives that channel's total.
   */
  lemma ConstantWheelChannel(rate: real, w: real, n: nat)
    ensures Scaled(Repeat(rate, n), w) == Repeat(rate * w, n)
  {
    var scaled := Scaled(Repeat(rate, n), w);
    forall k | 0 <= k < n
      ensures scaled[k] == Repeat(rate * w, n)[k]
    {
    }
  }
}
