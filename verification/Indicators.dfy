/** The fixed-point moving averages. */
module Indicators {
  import opened Kernel

  const SCALE: int := 100_000_000

  /** A value in units of 10^-8, cut off towards zero. */
  function Scaled(value: real): (r: int)
    ensures value >= 0.0 ==> 0 <= r && r as real <= value * 100_000_000.0 < r as real + 1.0
    ensures value < 0.0 ==> r <= 0 && r as real - 1.0 < value * 100_000_000.0 <= r as real
  {
    Trunc(value * 100_000_000.0)
  }

  function Id(x: real): real { x }

  // ---- simple moving average -------------------------------------------------------------

  function Average(sum: real, period: nat): int
    requires period > 0
  {
    Scaled(sum / (period as real))
  }

  /** The average of the `period` values up to `k`, once there are that many. */
  function SmaAt(values: seq<real>, period: nat, k: nat): Option<int>
    requires period > 0 && k < |values|
  {
    if k + 1 < period then None else Some(Average(Sum(Id, values[k + 1 - period..k + 1]), period))
  }

  /** The last `period` of the first `n` values, or all of them. */
  function Window(values: seq<real>, period: nat, n: nat): seq<real>
    requires n <= |values|
  {
    if n < period then values[..n] else values[n - period..n]
  }

  lemma SliceGrows(values: seq<real>, n: nat)
    requires n < |values|
    ensures Sum(Id, values[..n + 1]) == Sum(Id, values[..n]) + values[n]
  {
    assert values[..n] + [values[n]] == values[..n + 1];
    SumAppend(Id, values[..n], values[n]);
  }

  lemma SliceSlides(values: seq<real>, start: nat, n: nat)
    requires start <= n < |values|
    ensures Sum(Id, values[start + 1..n + 1]) == Sum(Id, values[start..n]) + values[n] - values[start]
  {
    hide Sum;
    var slice, next := values[start..n], values[start + 1..n + 1];
    assert slice + [values[n]] == [values[start]] + next;
    SumAppend(Id, slice, values[n]);
    SumConcat(Id, [values[start]], next);
    SumShort(Id, values[start], 0.0);
  }

  lemma WindowSlides(values: seq<real>, period: nat, n: nat)
    requires period > 0 && n < |values|
    ensures Sum(Id, Window(values, period, n + 1)) ==
      Sum(Id, Window(values, period, n)) + values[n] - (if n >= period then values[n - period] else 0.0)
  {
    hide Sum;
    if n < period {
      SliceGrows(values, n);
    } else {
      SliceSlides(values, n - period, n);
    }
  }

  lemma NoWindow(values: seq<real>, period: nat)
    requires period > 0
    ensures Sum(Id, Window(values, period, 0)) == 0.0
  {
  }

  lemma SmaOfWindow(values: seq<real>, period: nat, k: nat)
    requires period > 0 && k < |values|
    ensures SmaAt(values, period, k) ==
      if k + 1 < period then None else Some(Average(Sum(Id, Window(values, period, k + 1)), period))
  {
    hide Average, Sum;
  }

  method SimpleMovingAverage(values: seq<real>, period: nat) returns (output: seq<Option<int>>)
    requires period > 0
    ensures |output| == |values| && forall k | 0 <= k < |values| :: output[k] == SmaAt(values, period, k)
  {
    hide Average, Sum, Window, SmaAt;
    NoWindow(values, period);
    var sum := 0.0;
    output := [];
    for k := 0 to |values|
      invariant |output| == k && forall j | 0 <= j < k :: output[j] == SmaAt(values, period, j)
      invariant sum == Sum(Id, Window(values, period, k))
    {
      WindowSlides(values, period, k);
      SmaOfWindow(values, period, k);
      sum := sum + values[k];
      if k >= period {
        sum := sum - values[k - period];
      }
      if k + 1 < period {
        output := output + [None];
      } else {
        output := output + [Some(Average(sum, period))];
      }
    }
  }

  // ---- exponential moving average --------------------------------------------------------

  const MAX_MANTISSA: int := 0xFFFF_FFFF_FFFF_FFFF_FFFF_FFFF
  const I128_MAX: int := 0x7FFF_FFFF_FFFF_FFFF_FFFF_FFFF_FFFF_FFFF

  /** The 96-bit mantissa of a decimal. */
  predicate Fits(x: int) {
    -MAX_MANTISSA <= x <= MAX_MANTISSA
  }

  predicate InI128(x: int) {
    -I128_MAX - 1 <= x <= I128_MAX
  }

  function Alpha(period: nat): (alpha: int)
    requires period > 0
    ensures 0 <= alpha <= SCALE
  {
    Quotient(2 * SCALE, period + 1)
  }

  function Mix(value: int, current: int, alpha: int): int {
    Quotient(value * alpha + current * (SCALE - alpha), SCALE)
  }

  function EmaAt(values: seq<real>, period: nat, k: nat): int
    requires period > 0 && k < |values|
  {
    if k == 0 then Scaled(values[0]) else Mix(Scaled(values[k]), EmaAt(values, period, k - 1), Alpha(period))
  }

  lemma WeightedBetween(x: int, y: int, alpha: int, low: int, high: int)
    requires low <= x <= high && low <= y <= high && 0 <= alpha <= SCALE
    ensures low * SCALE <= x * alpha + y * (SCALE - alpha) <= high * SCALE
  {
    var rest := SCALE - alpha;
    Scales(low, x, alpha);
    Scales(x, high, alpha);
    Scales(low, y, rest);
    Scales(y, high, rest);
  }

  lemma Scales(x: int, y: int, factor: int)
    requires x <= y && factor >= 0
    ensures x * factor <= y * factor
  {
  }

  lemma QuotientBetween(a: int, low: int, high: int)
    requires low * SCALE <= a <= high * SCALE
    ensures low <= Quotient(a, SCALE) <= high
  {
  }

  /** One step stays between the value and the current average. */
  lemma MixBetween(value: int, current: int, alpha: int, low: int, high: int)
    requires low <= value <= high && low <= current <= high && 0 <= alpha <= SCALE
    ensures low <= Mix(value, current, alpha) <= high
  {
    WeightedBetween(value, current, alpha, low, high);
    QuotientBetween(value * alpha + current * (SCALE - alpha), low, high);
  }

  lemma {:induction false} EmaBetween(values: seq<real>, period: nat, k: nat, low: int, high: int)
    requires period > 0 && k < |values| && forall j | 0 <= j <= k :: low <= Scaled(values[j]) <= high
    ensures low <= EmaAt(values, period, k) <= high
    decreases k
  {
    if k == 0 {
    } else {
      EmaBetween(values, period, k - 1, low, high);
      MixBetween(Scaled(values[k]), EmaAt(values, period, k - 1), Alpha(period), low, high);
    }
  }

  lemma {:induction false} LeastAndGreatest(values: seq<real>, k: nat) returns (least: nat, greatest: nat)
    requires k < |values|
    ensures least <= k && greatest <= k
    ensures forall j | 0 <= j <= k :: Scaled(values[least]) <= Scaled(values[j]) <= Scaled(values[greatest])
  {
    if k == 0 {
      least, greatest := 0, 0;
    } else {
      least, greatest := LeastAndGreatest(values, k - 1);
      least := if Scaled(values[k]) < Scaled(values[least]) then k else least;
      greatest := if Scaled(values[k]) > Scaled(values[greatest]) then k else greatest;
    }
  }

  /** The average lies between the least and the greatest close seen so far, whatever the period and the signs. */
  lemma EmaBetweenCloses(values: seq<real>, period: nat, k: nat)
    requires period > 0 && k < |values|
    ensures exists i, j | 0 <= i <= k && 0 <= j <= k ::
      Scaled(values[i]) <= EmaAt(values, period, k) <= Scaled(values[j])
  {
    var least, greatest := LeastAndGreatest(values, k);
    EmaBetween(values, period, k, Scaled(values[least]), Scaled(values[greatest]));
  }

  /** One step of the exact average: a value weighs 2 / (period + 1). */
  ghost function ExactMix(value: int, exact: real, period: nat): real {
    var weight := 2.0 / (period as real + 1.0);
    weight * value as real + (1.0 - weight) * exact
  }

  /** The exact moving average of the truncated closes. */
  ghost function ExactEma(values: seq<real>, period: nat, k: nat): real
    requires period > 0 && k < |values|
  {
    if k == 0 then Scaled(values[0]) as real
    else ExactMix(Scaled(values[k]), ExactEma(values, period, k - 1), period)
  }

  /** What is cut off in one step, times the period and one: of the weight, and of the quotient. */
  lemma MixCut(value: int, current: int, period: nat) returns (weight: int, quotient: int)
    requires period > 0
    ensures 0 <= weight <= period && -SCALE < quotient < SCALE
    ensures var mixed := Mix(value, current, Alpha(period));
      (period + 1) * (SCALE * mixed)
      == SCALE * (2 * value + (period - 1) * current) - weight * (value - current) + (period + 1) * quotient
  {
    var alpha, mixed := Alpha(period), Mix(value, current, Alpha(period));
    weight := 2 * SCALE - alpha * (period + 1);
    var exact := value * alpha + current * (SCALE - alpha);
    quotient := SCALE * mixed - exact;
    assert (period + 1) * exact == SCALE * (2 * value + (period - 1) * current) - weight * (value - current) by {
      assert (period + 1) * (value * alpha) == value * (alpha * (period + 1));
      assert (period + 1) * (current * (SCALE - alpha)) == current * (SCALE * (period + 1) - alpha * (period + 1));
      assert value * (2 * SCALE - weight) == SCALE * 2 * value - weight * value;
      assert current * (SCALE * (period + 1) - 2 * SCALE + weight)
        == SCALE * ((period - 1) * current) + weight * current;
    }
    assert (period + 1) * (exact + quotient) == (period + 1) * exact + (period + 1) * quotient;
  }

  lemma Moved(weight: int, factor: int, change: int, spread: int)
    requires 0 <= weight <= factor && -spread <= change <= spread
    ensures -(factor * spread) <= weight * change <= factor * spread
  {
    Scales(-spread, change, weight);
    Scales(change, spread, weight);
    Scales(weight, factor, spread);
  }

  lemma Scaling(factor: int, unit: int, mixed: int, spread: int)
    ensures factor * (unit * mixed) == unit * (factor * mixed)
    ensures factor * (unit + spread) == factor * unit + factor * spread
  {
  }

  lemma MixNear(value: int, current: int, period: nat, low: int, high: int)
    requires period > 0 && low <= value <= high && low <= current <= high
    ensures var gap := (period + 1) * Mix(value, current, Alpha(period)) - 2 * value - (period - 1) * current;
      -((period + 1) * (SCALE + (high - low))) <= SCALE * gap <= (period + 1) * (SCALE + (high - low))
  {
    hide Mix, Alpha;
    var weight, quotient := MixCut(value, current, period);
    Moved(weight, period + 1, value - current, high - low);
    Moved(period + 1, period + 1, quotient, SCALE);
    Scaling(period + 1, SCALE, Mix(value, current, Alpha(period)), high - low);
  }

  lemma ExactStep(value: real, current: real, period: real)
    requires period > 0.0
    ensures var weight := 2.0 / (period + 1.0);
      (period + 1.0) * (weight * value + (1.0 - weight) * current) == 2.0 * value + (period - 1.0) * current
  {
    var weight := 2.0 / (period + 1.0);
    assert weight * (period + 1.0) == 2.0;
    assert (period + 1.0) * (weight * value) == 2.0 * value;
    assert (period + 1.0) * ((1.0 - weight) * current) == (period + 1.0) * current - 2.0 * current;
  }

  lemma WorthLess(x: real, weight: real)
    ensures Worth(x, weight - 2.0) == Worth(x, weight) - 2.0 * x
  {
  }

  /** An error of at most `bound`, weighed by `weight - 2`, and a cut of at most twice the bound leave an error of at
      most the bound after division by `weight`. */
  lemma ErrorKept(error: real, before: real, cut: real, weight: real, bound: real)
    requires weight >= 2.0 && Worth(error, weight) == cut + Worth(before, weight - 2.0)
    requires -2.0 * bound <= cut <= 2.0 * bound && -bound <= before <= bound
    ensures -bound <= error <= bound
  {
    hide Worth;
    WorthGrows(before, bound, weight - 2.0);
    WorthGrows(-bound, before, weight - 2.0);
    WorthLess(bound, weight);
    WorthLess(-bound, weight);
    if error > bound {
      WorthRises(bound, error, weight);
    } else if error < -bound {
      WorthRises(error, -bound, weight);
    }
  }

  /** How far the fixed-point average is from the exact one. */
  ghost function Error(average: int, exact: real): real {
    2.0 * SCALE as real * (average as real - exact)
  }

  lemma ErrorStep(value: int, current: int, exact: real, period: nat)
    requires period > 0
    ensures var mixed, next := Mix(value, current, Alpha(period)), ExactMix(value, exact, period);
      var gap := (period + 1) * mixed - 2 * value - (period - 1) * current;
      Worth(Error(mixed, next), (period + 1) as real)
        == 2.0 * (SCALE * gap) as real + Worth(Error(current, exact), (period + 1) as real - 2.0)
  {
    hide Mix, Alpha;
    var mixed, next, p := Mix(value, current, Alpha(period)), ExactMix(value, exact, period), period as real;
    ExactStep(value as real, exact, p);
    assert ((period + 1) * mixed) as real == (p + 1.0) * mixed as real;
    assert ((period - 1) * current) as real == (p - 1.0) * current as real;
    assert Worth(Error(mixed, next), p + 1.0) == 2.0 * SCALE as real * ((p + 1.0) * mixed as real - (p + 1.0) * next);
    assert Worth(Error(current, exact), p - 1.0)
      == 2.0 * SCALE as real * ((p - 1.0) * current as real - (p - 1.0) * exact);
  }

  /** The error is at most half the period and one, for each unit and for each 10^8 units between the bounds. */
  ghost predicate Near(average: int, exact: real, period: nat, low: int, high: int) {
    var bound := ((period + 1) * (SCALE + (high - low))) as real;
    -bound <= Error(average, exact) <= bound
  }

  /** One step keeps the bound. */
  lemma StepNear(value: int, current: int, exact: real, period: nat, low: int, high: int)
    requires period > 0 && low <= value <= high && low <= current <= high && Near(current, exact, period, low, high)
    ensures Near(Mix(value, current, Alpha(period)), ExactMix(value, exact, period), period, low, high)
  {
    var mixed, next := Mix(value, current, Alpha(period)), ExactMix(value, exact, period);
    var gap := (period + 1) * mixed - 2 * value - (period - 1) * current;
    var bound := (period + 1) * (SCALE + (high - low));
    MixNear(value, current, period, low, high);
    assert -bound <= SCALE * gap <= bound;
    ErrorStep(value, current, exact, period);
    hide Error, Worth, Mix, Alpha, ExactMix;
    ErrorKept(Error(mixed, next), Error(current, exact), 2.0 * (SCALE * gap) as real, (period + 1) as real,
      bound as real);
  }

  lemma StartNear(value: int, period: nat, low: int, high: int)
    requires low <= value <= high
    ensures Near(value, value as real, period, low, high)
  {
    Scales(0, SCALE + (high - low), period + 1);
  }

  lemma EmaUnfold(values: seq<real>, period: nat, k: nat)
    requires period > 0 && k < |values|
    ensures k == 0 ==> EmaAt(values, period, k) == Scaled(values[0])
    ensures k == 0 ==> ExactEma(values, period, k) == Scaled(values[0]) as real
    ensures k > 0 ==> EmaAt(values, period, k) == Mix(Scaled(values[k]), EmaAt(values, period, k - 1), Alpha(period))
    ensures k > 0 ==>
      ExactEma(values, period, k) == ExactMix(Scaled(values[k]), ExactEma(values, period, k - 1), period)
  {
    hide Mix, Alpha, Scaled;
  }

  lemma {:induction false} EmaNear(values: seq<real>, period: nat, k: nat, low: int, high: int)
    requires period > 0 && k < |values| && forall j | 0 <= j <= k :: low <= Scaled(values[j]) <= high
    ensures Near(EmaAt(values, period, k), ExactEma(values, period, k), period, low, high)
    decreases k
  {
    hide *;
    EmaUnfold(values, period, k);
    if k == 0 {
      StartNear(Scaled(values[0]), period, low, high);
    } else {
      EmaNear(values, period, k - 1, low, high);
      EmaBetween(values, period, k - 1, low, high);
      StepNear(Scaled(values[k]), EmaAt(values, period, k - 1), ExactEma(values, period, k - 1), period, low, high);
    }
  }

  /** The average is within (period + 1) / 2 units of the exact one, and as much again for every 10^8 units between the
      closes: what the steps cut off does not add up. */
  lemma EmaNearExact(values: seq<real>, period: nat, k: nat, low: int, high: int)
    requires period > 0 && k < |values| && forall j | 0 <= j <= k :: low <= Scaled(values[j]) <= high
    ensures 2.0 * SCALE as real * Abs(EmaAt(values, period, k) as real - ExactEma(values, period, k))
      <= ((period + 1) * (SCALE + (high - low))) as real
  {
    EmaNear(values, period, k, low, high);
    hide EmaAt, ExactEma, Scaled;
  }

  /** With 96-bit operands no product and no sum leaves 128 bits, and the result fits 96 bits again. */
  lemma MixFits(value: int, current: int, alpha: int)
    requires Fits(value) && Fits(current) && 0 <= alpha <= SCALE
    ensures InI128(value * alpha) && InI128(current * (SCALE - alpha))
    ensures InI128(value * alpha + current * (SCALE - alpha))
    ensures Fits(Mix(value, current, alpha))
  {
    MixBetween(value, current, alpha, -MAX_MANTISSA, MAX_MANTISSA);
    WeightedBetween(value, current, alpha, -MAX_MANTISSA, MAX_MANTISSA);
    WeightedBetween(value, 0, alpha, -MAX_MANTISSA, MAX_MANTISSA);
    WeightedBetween(0, current, alpha, -MAX_MANTISSA, MAX_MANTISSA);
  }

  /** Every close, in units of 10^-8, fits a decimal; a single one is never converted. */
  predicate Averageable(closes: seq<real>) {
    |closes| > 1 ==> forall j | 0 <= j < |closes| :: Fits(Scaled(closes[j]))
  }

  /** The running average. It fails exactly when there is something to average and some close, in units of 10^-8,
      does not fit a decimal; otherwise every intermediate result fits its type. */
  method ExponentialMovingAverage(values: seq<real>, period: nat) returns (r: Result<seq<int>>)
    requires period > 0
    ensures r.Err? <==> !Averageable(values)
    ensures r.Err? ==> r.error == Overflow
    ensures r.Ok? ==> |r.value| == |values| && forall k | 0 <= k < |values| :: r.value[k] == EmaAt(values, period, k)
  {
    if values == [] {
      return Ok([]);
    }
    var alpha := Alpha(period);
    var current := Scaled(values[0]);
    var output := [current];
    for k := 1 to |values|
      invariant |output| == k && forall j | 0 <= j < k :: output[j] == EmaAt(values, period, j)
      invariant current == output[k - 1]
      invariant k > 1 ==> Fits(current) && forall j | 0 <= j < k :: Fits(Scaled(values[j]))
    {
      var value := Scaled(values[k]);
      if !Fits(value) || !Fits(current) {
        assert !Fits(Scaled(values[k])) || !Fits(Scaled(values[0]));
        return Err(Overflow);
      }
      MixFits(value, current, alpha);
      current := Mix(value, current, alpha);
      output := output + [current];
    }
    return Ok(output);
  }

  // ---- all periods -----------------------------------------------------------------------

  datatype Kind = SmaKind | EmaKind

  datatype Indicator = Indicator(kind: Kind, period: nat, values: seq<Option<int>>)

  function Smas(closes: seq<real>, period: nat): seq<Option<int>>
    requires period > 0
  {
    seq(|closes|, k requires 0 <= k < |closes| => SmaAt(closes, period, k))
  }

  function Emas(closes: seq<real>, period: nat): seq<Option<int>>
    requires period > 0
  {
    seq(|closes|, k requires 0 <= k < |closes| => Some(EmaAt(closes, period, k)))
  }

  /** Both averages for every period, in the order of the periods. */
  function IndicatorsOf(closes: seq<real>, periods: seq<nat>): Result<seq<Indicator>>
    decreases |periods|
  {
    if periods == [] then Ok([])
    else if periods[0] == 0 then Err(BadPeriod)
    else if !Averageable(closes) then Err(Overflow)
    else
      var rest :- IndicatorsOf(closes, periods[1..]);
      Ok([Indicator(SmaKind, periods[0], Smas(closes, periods[0])),
        Indicator(EmaKind, periods[0], Emas(closes, periods[0]))] + rest)
  }

  /** The indicators exist exactly when every period is positive and the closes fit (which is not asked when there is no
      period); else the first thing that was wrong is named. They are the two averages of every period in turn. */
  lemma {:induction false} IndicatorsExist(closes: seq<real>, periods: seq<nat>)
    ensures var r := IndicatorsOf(closes, periods);
      && (r.Ok? <==> (periods == [] || Averageable(closes)) && forall i | 0 <= i < |periods| :: periods[i] > 0)
      && (r.Err? ==> r.error == if periods[0] == 0 || Averageable(closes) then BadPeriod else Overflow)
      && (r.Ok? ==> |r.value| == 2 * |periods| && forall i | 0 <= i < |periods| :: PairAt(r.value, closes, periods, i))
    decreases |periods|
  {
    hide Smas, Emas, Averageable;
    if periods == [] {
    } else {
      var rest := periods[1..];
      IndicatorsExist(closes, rest);
      assert periods == [periods[0]] + rest;
      if IndicatorsOf(closes, periods).Ok? {
        forall i | 0 <= i < |periods| ensures PairAt(IndicatorsOf(closes, periods).value, closes, periods, i) {
          if i > 0 {
            assert PairAt(IndicatorsOf(closes, rest).value, closes, rest, i - 1);
          }
        }
      }
    }
  }

  predicate PairAt(all: seq<Indicator>, closes: seq<real>, periods: seq<nat>, i: nat)
    requires i < |periods| && |all| == 2 * |periods|
  {
    && periods[i] > 0
    && all[2 * i] == Indicator(SmaKind, periods[i], Smas(closes, periods[i]))
    && all[2 * i + 1] == Indicator(EmaKind, periods[i], Emas(closes, periods[i]))
  }

  /** What is found when `output` has been found and `rest` is still to come. */
  function Then(output: seq<Indicator>, rest: Result<seq<Indicator>>): Result<seq<Indicator>> {
    if rest.Ok? then Ok(output + rest.value) else rest
  }

  lemma NoneThen(rest: Result<seq<Indicator>>)
    ensures Then([], rest) == rest
  {
    assert rest.Ok? ==> [] + rest.value == rest.value;
  }

  lemma ThenMore(output: seq<Indicator>, closes: seq<real>, periods: seq<nat>, simple: seq<Option<int>>,
        exponential: seq<Option<int>>)
    requires periods != [] && periods[0] > 0 && Averageable(closes)
    requires simple == Smas(closes, periods[0]) && exponential == Emas(closes, periods[0])
    ensures var pair := [Indicator(SmaKind, periods[0], simple), Indicator(EmaKind, periods[0], exponential)];
      Then(output, IndicatorsOf(closes, periods)) == Then(output + pair, IndicatorsOf(closes, periods[1..]))
  {
    hide Smas, Emas, Averageable;
    var pair := [Indicator(SmaKind, periods[0], simple), Indicator(EmaKind, periods[0], exponential)];
    var rest := IndicatorsOf(closes, periods[1..]);
    assert rest.Ok? ==> output + (pair + rest.value) == output + pair + rest.value;
  }

  method CalculateIndicators(closes: seq<real>, periods: seq<nat>) returns (r: Result<seq<Indicator>>)
    ensures r == IndicatorsOf(closes, periods)
  {
    hide SmaAt, EmaAt, Averageable;
    var output: seq<Indicator> := [];
    NoneThen(IndicatorsOf(closes, periods));
    assert periods[0..] == periods;
    for n := 0 to |periods|
      invariant IndicatorsOf(closes, periods) == Then(output, IndicatorsOf(closes, periods[n..]))
    {
      if periods[n] == 0 {
        return Err(BadPeriod);
      }
      var simple := SimpleMovingAverage(closes, periods[n]);
      var exponential := ExponentialMovingAverage(closes, periods[n]);
      if exponential.Err? {
        return Err(exponential.error);
      }
      var values := seq(|closes|, k requires 0 <= k < |closes| => Some(exponential.value[k]));
      assert simple == Smas(closes, periods[n]) && values == Emas(closes, periods[n]);
      ThenMore(output, closes, periods[n..], simple, values);
      assert periods[n..][1..] == periods[n + 1..];
      output := output + [Indicator(SmaKind, periods[n], simple), Indicator(EmaKind, periods[n], values)];
    }
    assert output + [] == output;
    return Ok(output);
  }
}
