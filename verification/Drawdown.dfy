/** Drawdown of an equity curve, in one pass. */
module Drawdown {
  import opened Kernel

  datatype EquityPoint = EquityPoint(time: int, equity: real)

  datatype DrawdownPoint = DrawdownPoint(time: int, drawdown: real)

  datatype Metrics = Metrics(maximum: real, current: real, curve: seq<DrawdownPoint>)

  /** How far `low` lies below `high`, as a fraction of `high`. */
  function Loss(high: real, low: real): real
    requires high > 0.0
  {
    (high - low) / high
  }

  /** The highest equity up to point `k`. */
  function Peak(points: seq<EquityPoint>, k: nat): (peak: real)
    requires k < |points|
    ensures forall i | 0 <= i <= k :: points[i].equity <= peak
    ensures exists i | 0 <= i <= k :: points[i].equity == peak
  {
    if k == 0 then
      assert points[0].equity == points[0].equity;
      points[0].equity
    else
      var before := Peak(points, k - 1);
      assert points[k].equity == points[k].equity;
      if points[k].equity > before then points[k].equity else before
  }

  function DrawdownAt(points: seq<EquityPoint>, k: nat): real
    requires k < |points|
  {
    var peak := Peak(points, k);
    if peak > 0.0 && points[k].equity < peak then Loss(peak, points[k].equity) else 0.0
  }

  /** `m` is the greatest of the first `n` drawdowns, or zero. */
  ghost predicate IsMaximum(points: seq<EquityPoint>, n: nat, m: real)
    requires n <= |points|
  {
    && m >= 0.0
    && (forall k | 0 <= k < n :: DrawdownAt(points, k) <= m)
    && (m == 0.0 || exists k | 0 <= k < n :: DrawdownAt(points, k) == m)
  }

  /** The drawdowns of the first points. */
  ghost predicate Measures(points: seq<EquityPoint>, curve: seq<DrawdownPoint>) {
    && |curve| <= |points|
    && forall k | 0 <= k < |curve| :: curve[k] == DrawdownPoint(points[k].time, DrawdownAt(points, k))
  }

  lemma MaximumOfNone(points: seq<EquityPoint>)
    ensures IsMaximum(points, 0, 0.0)
  {
  }

  lemma MaximumGrows(points: seq<EquityPoint>, n: nat, m: real)
    requires n < |points| && IsMaximum(points, n, m)
    ensures IsMaximum(points, n + 1, Max(m, DrawdownAt(points, n)))
  {
    var peak, equity := Peak(points, n), points[n].equity;
    if peak > 0.0 && equity < peak {
      LossPositive(peak, equity);
    }
    hide Peak, Loss;
    assert DrawdownAt(points, n) >= 0.0;
  }

  function Curve(points: seq<EquityPoint>): (r: seq<DrawdownPoint>)
    ensures |r| == |points|
  {
    seq(|points|, k requires 0 <= k < |points| => DrawdownPoint(points[k].time, DrawdownAt(points, k)))
  }

  /** The greatest of the first `n` drawdowns, or zero. */
  function MaximumOf(points: seq<EquityPoint>, n: nat): real
    requires n <= |points|
  {
    if n == 0 then 0.0 else Max(MaximumOf(points, n - 1), DrawdownAt(points, n - 1))
  }

  function MetricsOf(points: seq<EquityPoint>): Metrics {
    Metrics(MaximumOf(points, |points|), if points == [] then 0.0 else DrawdownAt(points, |points| - 1), Curve(points))
  }

  lemma {:induction false} MaximumOfIs(points: seq<EquityPoint>, n: nat)
    requires n <= |points|
    ensures IsMaximum(points, n, MaximumOf(points, n))
  {
    hide IsMaximum, DrawdownAt;
    if n == 0 {
      MaximumOfNone(points);
    } else {
      MaximumOfIs(points, n - 1);
      MaximumGrows(points, n - 1, MaximumOf(points, n - 1));
    }
  }

  /** The drawdown of a point, times the greatest equity so far, is what the point lies below it; it is nothing when the
      equity was never above zero. */
  lemma DrawdownIs(points: seq<EquityPoint>, k: nat) returns (top: nat)
    requires k < |points|
    ensures top <= k && forall i | 0 <= i <= k :: points[i].equity <= points[top].equity
    ensures points[top].equity > 0.0 ==>
      DrawdownAt(points, k) * points[top].equity == points[top].equity - points[k].equity
    ensures points[top].equity <= 0.0 ==> DrawdownAt(points, k) == 0.0
  {
    hide Peak, Loss;
    var peak := Peak(points, k);
    top :| 0 <= top <= k && points[top].equity == peak;
    assert forall i | 0 <= i <= k :: points[i].equity <= peak;
    if points[top].equity > 0.0 {
      LossIs(points[top].equity, points[k].equity);
    }
  }

  lemma LossIs(high: real, low: real)
    requires high > 0.0
    ensures Loss(high, low) * high == high - low
  {
  }

  /** The curve gives every point its drawdown, the current drawdown is the last, and the maximum is the greatest. */
  lemma MetricsAre(points: seq<EquityPoint>)
    ensures var r := MetricsOf(points);
      && Measures(points, r.curve) && |r.curve| == |points|
      && r.current == (if points == [] then 0.0 else r.curve[|points| - 1].drawdown)
      && IsMaximum(points, |points|, r.maximum)
  {
    hide IsMaximum, DrawdownAt;
    MaximumOfIs(points, |points|);
  }

  lemma PeakIs(points: seq<EquityPoint>, k: nat, before: real)
    requires k < |points| && before == if k == 0 then points[0].equity else Peak(points, k - 1)
    ensures Peak(points, k) == if points[k].equity > before then points[k].equity else before
  {
  }

  lemma CurveMore(points: seq<EquityPoint>, k: nat)
    requires k < |points|
    ensures Curve(points)[..k + 1] == Curve(points)[..k] + [DrawdownPoint(points[k].time, DrawdownAt(points, k))]
  {
    hide DrawdownAt;
  }

  method Measure(points: seq<EquityPoint>) returns (r: Metrics)
    ensures r == MetricsOf(points)
  {
    if points == [] {
      return Metrics(0.0, 0.0, []);
    }
    hide Loss, Peak, Curve;
    var peak := points[0].equity;
    var maximum, current := 0.0, 0.0;
    var curve: seq<DrawdownPoint> := [];
    for k := 0 to |points|
      invariant peak == if k == 0 then points[0].equity else Peak(points, k - 1)
      invariant curve == Curve(points)[..k]
      invariant k > 0 ==> current == DrawdownAt(points, k - 1)
      invariant maximum == MaximumOf(points, k)
    {
      var equity := points[k].equity;
      PeakIs(points, k, peak);
      if equity > peak {
        peak := equity;
      }
      current := if peak > 0.0 && equity < peak then Loss(peak, equity) else 0.0;
      assert current == DrawdownAt(points, k);
      maximum := Max(maximum, current);
      CurveMore(points, k);
      curve := curve + [DrawdownPoint(points[k].time, current)];
    }
    return Metrics(maximum, current, curve);
  }

  lemma LossPositive(high: real, low: real)
    requires high > 0.0 && low < high
    ensures Loss(high, low) > 0.0
  {
  }

  lemma FactorNotNegative(x: real, y: real, product: real)
    requires y > 0.0 && product >= 0.0 && x * y == product
    ensures x >= 0.0
  {
  }

  /** What is left of a point, as a fraction of it. */
  function Left(high: real, low: real): real
    requires high > 0.0
  {
    1.0 - Loss(high, low)
  }

  lemma LeftTimes(high: real, low: real)
    requires high > 0.0
    ensures Left(high, low) * high == low
  {
    assert (high - low) / high * high == high - low;
  }

  /** Falling from a higher point to a non-negative one loses the larger fraction. */
  lemma LossMonotone(a: real, b: real, low: real)
    requires 0.0 < a <= b && low >= 0.0
    ensures Loss(a, low) <= Loss(b, low) <= 1.0
  {
    LeftTimes(a, low);
    LeftTimes(b, low);
    var small, large := Left(b, low), Left(a, low);
    FactorNotNegative(small, b, low);
    var gap := small * (b - a);
    FactorNotNegative(large - small, a, gap);
  }

  ghost predicate NonNegative(points: seq<EquityPoint>) {
    forall k | 0 <= k < |points| :: points[k].equity >= 0.0
  }

  /** `d` is the greatest loss of point `k` against an earlier point above zero, or zero where there is none. */
  ghost predicate IsWorstLoss(points: seq<EquityPoint>, k: nat, d: real)
    requires k < |points|
  {
    && d >= 0.0
    && (forall i | 0 <= i <= k && points[i].equity > 0.0 :: Loss(points[i].equity, points[k].equity) <= d)
    && (d > 0.0 ==> exists i | 0 <= i <= k :: points[i].equity > 0.0 && Loss(points[i].equity, points[k].equity) == d)
  }

  lemma DrawdownAttained(points: seq<EquityPoint>, k: nat)
    requires k < |points|
    ensures DrawdownAt(points, k) >= 0.0
    ensures DrawdownAt(points, k) > 0.0 ==>
      exists i | 0 <= i <= k ::
        points[i].equity > 0.0 && Loss(points[i].equity, points[k].equity) == DrawdownAt(points, k)
  {
    var peak, low := Peak(points, k), points[k].equity;
    var top :| 0 <= top <= k && points[top].equity == peak;
    if peak > 0.0 && low < peak {
      LossPositive(peak, low);
    }
  }

  /** A point that is not below zero never loses more than everything, and loses most against its peak. */
  lemma DrawdownBounds(points: seq<EquityPoint>, k: nat)
    requires k < |points| && points[k].equity >= 0.0
    ensures DrawdownAt(points, k) <= 1.0 && IsWorstLoss(points, k, DrawdownAt(points, k))
  {
    DrawdownAttained(points, k);
    var peak, low := Peak(points, k), points[k].equity;
    if peak > 0.0 {
      LossMonotone(peak, peak, low);
    }
    forall i | 0 <= i <= k && points[i].equity > 0.0 ensures Loss(points[i].equity, low) <= DrawdownAt(points, k) {
      LossMonotone(points[i].equity, peak, low);
    }
  }

  /** Falling below zero loses the larger fraction from the lower point. */
  lemma LossReversed(a: real, b: real, low: real)
    requires 0.0 < a < b && low < 0.0
    ensures Loss(a, low) > Loss(b, low) > 0.0
  {
    LeftTimes(a, low);
    LeftTimes(b, low);
    var high, lower := -Left(a, low), -Left(b, low);
    assert high * a == -low && lower * b == -low;
    FactorPositive(lower, b, -low);
    var gap := lower * (b - a);
    FactorPositive(high - lower, a, gap);
  }

  /** No earlier point above zero lies below the peak of point `k`. */
  predicate OnlyPeak(points: seq<EquityPoint>, k: nat)
    requires k < |points|
  {
    forall i | 0 <= i <= k && points[i].equity > 0.0 :: points[i].equity == Peak(points, k)
  }

  /** Measuring against the peak finds the greatest loss of a point exactly when the point is not below zero, or every
      earlier point above zero is as high as the peak. */
  lemma DrawdownExact(points: seq<EquityPoint>, k: nat)
    requires k < |points|
    ensures IsWorstLoss(points, k, DrawdownAt(points, k)) <==> points[k].equity >= 0.0 || OnlyPeak(points, k)
  {
    DrawdownAttained(points, k);
    if points[k].equity >= 0.0 {
      DrawdownBounds(points, k);
    } else if !OnlyPeak(points, k) {
      var i :| 0 <= i <= k && points[i].equity > 0.0 && points[i].equity != Peak(points, k);
      LossReversed(points[i].equity, Peak(points, k), points[k].equity);
    }
  }

  /** `m` is the greatest loss between any point above zero and itself or a later one, or zero where there is none. */
  ghost predicate IsGreatestLoss(points: seq<EquityPoint>, m: real) {
    && (forall i, k | 0 <= i <= k < |points| && points[i].equity > 0.0 :: Loss(points[i].equity, points[k].equity) <= m)
    && (m == 0.0 || exists i, k | 0 <= i <= k < |points| && points[i].equity > 0.0 ::
      Loss(points[i].equity, points[k].equity) == m)
  }

  lemma Regroup(x: real, a: real, b: real, low: real)
    requires x * a == low
    ensures low * b == x * (a * b)
  {
  }

  lemma ProductOrder(x: real, y: real, z: real)
    requires z > 0.0
    ensures x <= y <==> x * z <= y * z
  {
    var gap := y - x;
    assert gap * z == y * z - x * z;
  }

  /** The fall from `a` to `low` is no deeper than that from `b` to `low'`, compared without dividing. */
  predicate NoDeeper(a: real, low: real, b: real, low': real) {
    low * b >= low' * a
  }

  lemma LossOrder(a: real, low: real, b: real, low': real)
    requires a > 0.0 && b > 0.0
    ensures Loss(a, low) <= Loss(b, low') <==> NoDeeper(a, low, b, low')
  {
    var x, y, ab := Left(a, low), Left(b, low'), a * b;
    LeftTimes(a, low);
    LeftTimes(b, low');
    Regroup(x, a, b, low);
    Regroup(y, b, a, low');
    ProductOrder(y, x, ab);
  }

  /** The fall from `i` to `k` is no deeper than that of some point from its own peak. */
  ghost predicate Covered(points: seq<EquityPoint>, i: nat, k: nat)
    requires i <= k < |points|
  {
    exists j | 0 <= j < |points| ::
      Peak(points, j) > 0.0 && NoDeeper(points[i].equity, points[k].equity, Peak(points, j), points[j].equity)
  }

  /** Every fall from above zero to below zero is covered by a fall from a peak. */
  ghost predicate FallsCovered(points: seq<EquityPoint>) {
    forall i, k | 0 <= i <= k < |points| && points[i].equity > 0.0 && points[k].equity < 0.0 :: Covered(points, i, k)
  }

  lemma DrawdownFrom(points: seq<EquityPoint>, j: nat)
    requires j < |points|
    ensures Peak(points, j) > 0.0 ==> Loss(Peak(points, j), points[j].equity) <= DrawdownAt(points, j)
    ensures DrawdownAt(points, j) > 0.0 ==>
      Peak(points, j) > 0.0 && DrawdownAt(points, j) == Loss(Peak(points, j), points[j].equity)
  {
    var peak, low := Peak(points, j), points[j].equity;
    hide Loss, Peak;
    if peak > 0.0 && low >= peak {
      LossNotPositive(peak, low);
    }
  }

  lemma AtMostMaximum(points: seq<EquityPoint>, j: nat, m: real)
    requires IsMaximum(points, |points|, m) && j < |points|
    ensures DrawdownAt(points, j) <= m
  {
    hide DrawdownAt;
  }

  lemma CoveredLoss(points: seq<EquityPoint>, i: nat, k: nat, m: real)
    requires IsMaximum(points, |points|, m) && i <= k < |points| && points[i].equity > 0.0 && Covered(points, i, k)
    ensures Loss(points[i].equity, points[k].equity) <= m
  {
    var j :| 0 <= j < |points|
             && Peak(points, j) > 0.0 && NoDeeper(points[i].equity, points[k].equity, Peak(points, j),
               points[j].equity);
    hide *;
    DrawdownFrom(points, j);
    AtMostMaximum(points, j, m);
    LossOrder(points[i].equity, points[k].equity, Peak(points, j), points[j].equity);
  }

  lemma CoverOf(points: seq<EquityPoint>, i: nat, k: nat, m: real)
    requires IsMaximum(points, |points|, m) && i <= k < |points| && points[i].equity > 0.0 && points[k].equity < 0.0
    requires Loss(points[i].equity, points[k].equity) <= m
    ensures Covered(points, i, k)
  {
    LossPositive(points[i].equity, points[k].equity);
    hide Loss, NoDeeper, DrawdownAt;
    var j :| 0 <= j < |points| && DrawdownAt(points, j) == m;
    DrawdownFrom(points, j);
    LossOrder(points[i].equity, points[k].equity, Peak(points, j), points[j].equity);
  }

  lemma LossNotPositive(high: real, low: real)
    requires high > 0.0 && low >= high
    ensures Loss(high, low) <= 0.0
  {
    LeftTimes(high, low);
    FactorNotNegative(Left(high, low) - 1.0, high, low - high);
  }

  /** The one-pass maximum is the greatest loss over all pairs of points exactly when every fall below zero is
      covered. */
  lemma MaximumExact(points: seq<EquityPoint>, m: real)
    requires IsMaximum(points, |points|, m)
    ensures IsGreatestLoss(points, m) <==> FallsCovered(points)
  {
    hide Loss, Covered, DrawdownAt;
    forall i, k | 0 <= i <= k < |points| && points[i].equity > 0.0 && points[k].equity < 0.0
      ensures Covered(points, i, k) <==> Loss(points[i].equity, points[k].equity) <= m
    {
      if Covered(points, i, k) {
        CoveredLoss(points, i, k, m);
      }
      if Loss(points[i].equity, points[k].equity) <= m {
        CoverOf(points, i, k, m);
      }
    }
    forall i, k | 0 <= i <= k < |points| && points[i].equity > 0.0 && points[k].equity >= 0.0
      ensures Loss(points[i].equity, points[k].equity) <= m
    {
      DrawdownBounds(points, k);
    }
    if m > 0.0 {
      MaximumAttained(points, m);
    }
  }

  lemma MaximumAttained(points: seq<EquityPoint>, m: real)
    requires IsMaximum(points, |points|, m) && m > 0.0
    ensures exists i, k | 0 <= i <= k < |points| && points[i].equity > 0.0 ::
      Loss(points[i].equity, points[k].equity) == m
  {
    hide Loss;
    var k :| 0 <= k < |points| && DrawdownAt(points, k) == m;
    DrawdownAttained(points, k);
  }

  /** On a curve that never goes below zero the one-pass maximum is the greatest loss over all pairs of points. */
  lemma MaximumIsGreatestLoss(points: seq<EquityPoint>, m: real)
    requires NonNegative(points) && IsMaximum(points, |points|, m)
    ensures IsGreatestLoss(points, m) && 0.0 <= m <= 1.0
  {
    hide Loss, Covered;
    MaximumExact(points, m);
    if m > 0.0 {
      var k :| 0 <= k < |points| && DrawdownAt(points, k) == m;
      DrawdownBounds(points, k);
    }
  }

  /** Below zero this fails: the pass measures 1 -> 2 -> -2 as a loss of 2 against the peak, while 1 -> -2 loses 3. */
  lemma NegativeEquityDiffers()
    ensures var points := [EquityPoint(0, 1.0), EquityPoint(1, 2.0), EquityPoint(2, -2.0)];
      IsMaximum(points, 3, 2.0) && !IsGreatestLoss(points, 2.0)
  {
    var points := [EquityPoint(0, 1.0), EquityPoint(1, 2.0), EquityPoint(2, -2.0)];
    assert Peak(points, 0) == 1.0;
    assert Peak(points, 1) == 2.0;
    assert Peak(points, 2) == 2.0;
    assert DrawdownAt(points, 2) == 2.0;
    assert Loss(points[0].equity, points[2].equity) == 3.0;
  }
}
