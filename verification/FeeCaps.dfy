/** When the caps of a notional rule with a fixed amount hide the number of fills, said of the numbers of the rule. */
module FeeCaps {
  import opened Kernel
  import opened Fees
  import opened FeeSplits

  /** The notional from which the rate cap is above the amount; zero where there is no rate cap. */
  function ReachedFrom(rule: FeeRule, amount: real): real {
    if rule.maxRate > 0.0 then amount / rule.maxRate else 0.0
  }

  /** The raw fee of one fill of that notional. */
  function RawAt(rule: FeeRule, amount: real): real {
    FixedRaw(rule, ReachedFrom(rule, amount), 1)
  }

  /** What the fixed maximum is rounded to, less one unit. */
  function UnitBelow(rule: FeeRule): real
    requires rule.rounding != OtherRounding
  {
    RoundFee(rule.maxAmount, rule.rounding).value - RoundingUnit(rule.rounding)
  }

  /** A fill whose cap is above the level may owe no more than the level. */
  predicate MayStayBelow(rule: FeeRule, level: real) {
    rule.minAmount <= level && if rule.rate == 0.0 then rule.fixedAmount <= level else RawAt(rule, level) < level
  }

  /** Every single fill reaches its cap, as far as the rounding shows. */
  predicate AlwaysCapped(rule: FeeRule)
    requires FixedNotional(rule)
  {
    if rule.maxAmount < 0.0 then false
    else if rule.maxAmount == 0.0 then 0.0 < rule.maxRate <= rule.rate
    else if rule.rounding == NoRounding then
      rule.minAmount >= rule.maxAmount || RawAt(rule, rule.maxAmount) >= rule.maxAmount
    else !MayStayBelow(rule, UnitBelow(rule))
  }

  lemma Rounded(amount: real, rounding: Rounding)
    requires RoundingUnit(rounding) > 0.0
    ensures RoundFee(amount, rounding) == CeilToIncrement(amount, RoundingUnit(rounding))
    ensures var r, unit := RoundFee(amount, rounding), RoundingUnit(rounding);
      r.Ok? && r.value - unit < amount <= r.value && IsMultiple(r.value, unit) && IsMultiple(r.value - unit, unit)
  {
    var unit := RoundingUnit(rounding);
    var r := CeilToIncrement(amount, unit).value;
    var k: int :| r == Units(k, unit);
    UnitsOrder(0.0, unit, k);
    assert r - unit == Units(k - 1, unit);
  }

  /** Two amounts are rounded alike exactly when the smaller is above the last multiple below the larger. */
  lemma RoundedAlike(small: real, large: real, rounding: Rounding)
    requires RoundingUnit(rounding) > 0.0 && small <= large
    ensures RoundFee(small, rounding) == RoundFee(large, rounding)
      <==> small > RoundFee(large, rounding).value - RoundingUnit(rounding)
  {
    var unit := RoundingUnit(rounding);
    Rounded(small, rounding);
    Rounded(large, rounding);
    CeilMonotone(small, large, unit);
    hide CeilToIncrement, IsMultiple;
    var a, b := RoundFee(small, rounding).value, RoundFee(large, rounding).value;
    if a < b {
      MultiplesApart(a, b, unit);
    }
  }

  lemma Units01(rounding: Rounding)
    requires rounding != OtherRounding
    ensures rounding == NoRounding <==> RoundingUnit(rounding) == 0.0
    ensures RoundingUnit(rounding) >= 0.0
  {
  }

  /** A single fill reaches its cap when it owes as much, or as much as the rounding shows. */
  lemma ReachedMeans(rule: FeeRule, notional: real, raw: real, cap: real)
    requires FixedNotional(rule) && raw == FixedRaw(rule, notional, 1) > 0.0 && cap == CapAmount(rule, notional) > 0.0
    ensures CapReached(rule, notional) <==>
      if rule.rounding == NoRounding then Max(raw, rule.minAmount) >= cap
      else Max(raw, rule.minAmount) > RoundFee(cap, rule.rounding).value - RoundingUnit(rule.rounding)
  {
    var floored := Max(raw, rule.minAmount);
    var capped := if floored > cap then cap else floored;
    assert Target(rule, raw, notional) == RoundFee(capped, rule.rounding);
    Units01(rule.rounding);
    hide FixedRaw, CapAmount, Target;
    if rule.rounding != NoRounding {
      Rounded(cap, rule.rounding);
      RoundedAlike(capped, cap, rule.rounding);
    }
    hide RoundFee;
  }

  lemma CapIs(rule: FeeRule, notional: real)
    requires rule.maxAmount > 0.0 && notional > 0.0
    ensures 0.0 < CapAmount(rule, notional) <= rule.maxAmount
    ensures CapAmount(rule, notional)
      == if rule.maxRate > 0.0 then Min(Worth(notional, rule.maxRate), rule.maxAmount) else rule.maxAmount
  {
    if rule.maxRate > 0.0 {
      ProductPositive(notional, rule.maxRate);
    }
  }

  lemma ReachedFromIs(rule: FeeRule, amount: real)
    requires amount >= 0.0
    ensures ReachedFrom(rule, amount) >= 0.0
    ensures rule.maxRate > 0.0 ==> Worth(ReachedFrom(rule, amount), rule.maxRate) == amount
    ensures rule.maxRate <= 0.0 ==> ReachedFrom(rule, amount) == 0.0
  {
  }

  /** The raw fee of one fill. */
  lemma OneFill(rule: FeeRule, notional: real)
    requires FixedNotional(rule) && notional >= 0.0
    ensures FixedRaw(rule, notional, 1) == Worth(notional, rule.rate) + rule.fixedAmount
    ensures rule.fixedAmount > 0.0 && rule.rate >= 0.0 && Worth(notional, rule.rate) >= 0.0
    ensures rule.rate == 0.0 || notional == 0.0 ==> Worth(notional, rule.rate) == 0.0
    ensures rule.rate > 0.0 && notional > 0.0 ==> Worth(notional, rule.rate) > 0.0
  {
    ProductGrows(0.0, notional, rule.rate);
  }

  // ---- a fixed maximum without rounding --------------------------------------------------

  /** Where the rate cap applies the raw fee is at least the lesser of its values at both ends. */
  lemma AlongRate(n: real, end: real, rate: real, maxRate: real, fixed: real)
    requires 0.0 < n <= end && fixed > 0.0 && Worth(end, rate) + fixed >= Worth(end, maxRate)
    ensures Worth(n, rate) + fixed >= Worth(n, maxRate)
  {
    var gap := maxRate - rate;
    Distributes(rate, maxRate, n);
    Distributes(rate, maxRate, end);
    if gap <= 0.0 {
      ProductGrows(0.0, -gap, n);
    } else {
      ProductGrows(n, end, gap);
    }
  }

  lemma ExactReached(rule: FeeRule, n: real, end: real)
    requires FixedNotional(rule) && rule.maxAmount > 0.0 && n > 0.0 && end == ReachedFrom(rule, rule.maxAmount)
    requires FixedRaw(rule, end, 1) >= rule.maxAmount
    ensures FixedRaw(rule, n, 1) >= CapAmount(rule, n)
  {
    hide *;
    CapIs(rule, n);
    ReachedFromIs(rule, rule.maxAmount);
    OneFill(rule, n);
    OneFill(rule, end);
    if n >= end {
      WorthGrows(end, n, rule.rate);
    } else {
      AlongRate(n, end, rule.rate, rule.maxRate, rule.fixedAmount);
    }
  }

  lemma ExactMissed(rule: FeeRule, end: real) returns (n: real)
    requires FixedNotional(rule) && rule.maxAmount > 0.0 && end == ReachedFrom(rule, rule.maxAmount)
    requires FixedRaw(rule, end, 1) < rule.maxAmount
    ensures n > 0.0 && CapAmount(rule, n) == rule.maxAmount && FixedRaw(rule, n, 1) < rule.maxAmount
  {
    hide *;
    ReachedFromIs(rule, rule.maxAmount);
    OneFill(rule, end);
    if rule.maxRate > 0.0 {
      n := end;
      WorthFactor(end, rule.maxRate, rule.maxAmount);
    } else if rule.rate == 0.0 {
      n := 1.0;
    } else {
      n := HalfWay(rule.fixedAmount, rule.rate, rule.maxAmount);
    }
    OneFill(rule, n);
    CapIs(rule, n);
  }

  lemma WorthFactor(x: real, factor: real, product: real)
    requires factor > 0.0 && product > 0.0 && Worth(x, factor) == product
    ensures x > 0.0
  {
    FactorPositive(x, factor, product);
  }

  lemma HalfWay(fixed: real, rate: real, maximum: real) returns (n: real)
    requires rate > 0.0 && fixed < maximum
    ensures n > 0.0 && Worth(n, rate) + fixed < maximum
  {
    var half := (maximum - fixed) / 2.0;
    n := half / rate;
    assert n * rate == half;
    FactorPositive(n, rate, half);
  }

  lemma ExactCaps(rule: FeeRule)
    requires FixedNotional(rule) && rule.maxAmount > 0.0 && rule.rounding == NoRounding
    ensures (forall notional: real | notional > 0.0 :: CapReached(rule, notional)) <==> AlwaysCapped(rule)
  {
    hide CapReached, FixedRaw, CapAmount, ReachedFrom;
    if AlwaysCapped(rule) {
      forall n: real | n > 0.0 ensures CapReached(rule, n) {
        CapIs(rule, n);
        FixedRawOrder(rule, n, n, 1, 1);
        ReachedMeans(rule, n, FixedRaw(rule, n, 1), CapAmount(rule, n));
        if RawAt(rule, rule.maxAmount) >= rule.maxAmount {
          ExactReached(rule, n, ReachedFrom(rule, rule.maxAmount));
        }
      }
    } else {
      var n := ExactMissed(rule, ReachedFrom(rule, rule.maxAmount));
      FixedRawOrder(rule, n, n, 1, 1);
      ReachedMeans(rule, n, FixedRaw(rule, n, 1), CapAmount(rule, n));
    }
  }

  // ---- a fixed maximum with rounding -----------------------------------------------------

  /** A notional whose rate cap is above a level that its raw fee keeps to is beyond the one where they meet. */
  lemma LevelGap(n: real, x: real, rate: real, maxRate: real, fixed: real, level: real)
    requires maxRate > 0.0 && rate > 0.0 && fixed > 0.0 && level >= 0.0
    requires Worth(x, maxRate) == level && Worth(n, rate) + fixed <= level < Worth(n, maxRate)
    ensures maxRate > rate && Worth(x, maxRate - rate) > fixed
  {
    if n <= x {
      ProductGrows(n, x, maxRate);
    }
    ProductGrows(x, n, rate);
    Distributes(rate, maxRate, x);
    if x < 0.0 {
      ProductGrows(x, 0.0, maxRate);
    }
    if maxRate <= rate {
      ProductGrows(maxRate, rate, x);
    }
  }

  /** Levels further up are as easily stayed below. */
  lemma LevelsUp(level: real, n: real, high: real, x: real, y: real, rate: real, maxRate: real, fixed: real)
    requires maxRate > 0.0 && rate > 0.0 && fixed > 0.0 && 0.0 <= level <= high
    requires Worth(x, maxRate) == level && Worth(y, maxRate) == high
    requires Worth(n, rate) + fixed <= level < Worth(n, maxRate)
    ensures Worth(y, rate) + fixed < high
  {
    LevelGap(n, x, rate, maxRate, fixed, level);
    if y < x {
      ProductGrows(y, x, maxRate);
    }
    ProductGrows(x, y, maxRate - rate);
    Distributes(rate, maxRate, y);
  }

  lemma MayStayBelowIs(rule: FeeRule, level: real)
    ensures MayStayBelow(rule, level) <==>
      rule.minAmount <= level
      && if rule.rate == 0.0 then rule.fixedAmount <= level else FixedRaw(rule, ReachedFrom(rule, level), 1) < level
  {
    hide FixedRaw, ReachedFrom;
  }

  lemma StaysBelow(rule: FeeRule, n: real, level: real, high: real)
    requires FixedNotional(rule) && rule.maxAmount > 0.0 && n > 0.0
    requires level < CapAmount(rule, n) && 0.0 <= level <= high
    requires rule.minAmount <= level && FixedRaw(rule, n, 1) <= level
    ensures MayStayBelow(rule, high)
  {
    hide *;
    CapIs(rule, n);
    ReachedFromIs(rule, level);
    ReachedFromIs(rule, high);
    MayStayBelowIs(rule, high);
    var x, y := ReachedFrom(rule, level), ReachedFrom(rule, high);
    OneFill(rule, n);
    OneFill(rule, y);
    if rule.rate > 0.0 && rule.maxRate > 0.0 {
      LevelsUp(level, n, high, x, y, rule.rate, rule.maxRate, rule.fixedAmount);
    }
  }

  /** A fill whose raw fee is the level, or that has no rate, and whose cap is above the level. */
  lemma BelowAt(rule: FeeRule, level: real) returns (n: real)
    requires FixedNotional(rule) && rule.maxAmount > level >= 0.0 && MayStayBelow(rule, level)
    ensures n > 0.0 && FixedRaw(rule, n, 1) <= level < CapAmount(rule, n) && rule.minAmount <= level
  {
    hide *;
    ReachedFromIs(rule, level);
    MayStayBelowIs(rule, level);
    var x := ReachedFrom(rule, level);
    OneFill(rule, x);
    if rule.rate == 0.0 {
      n := x + 1.0;
    } else {
      n := RaisedTo(x, rule.rate, rule.fixedAmount, level);
    }
    OneFill(rule, n);
    CapIs(rule, n);
    if rule.maxRate > 0.0 {
      WorthRises(x, n, rule.maxRate);
    }
  }

  lemma RaisedTo(x: real, rate: real, fixed: real, level: real) returns (n: real)
    requires rate > 0.0 && Worth(x, rate) + fixed < level
    ensures n > x && Worth(n, rate) + fixed == level
  {
    var more := level - (x * rate + fixed);
    var step := more / rate;
    assert step * rate == more;
    FactorPositive(step, rate, more);
    n := x + step;
    Distributes(x, n, rate);
  }

  lemma UnitBelowIs(rule: FeeRule, cap: real)
    requires rule.rounding != NoRounding && rule.rounding != OtherRounding && 0.0 < cap <= rule.maxAmount
    ensures RoundFee(cap, rule.rounding).Ok?
    ensures 0.0 <= RoundFee(cap, rule.rounding).value - RoundingUnit(rule.rounding) <= UnitBelow(rule) < rule.maxAmount
    ensures RoundFee(cap, rule.rounding).value - RoundingUnit(rule.rounding) < cap
    ensures UnitBelow(rule) < cap ==> RoundFee(cap, rule.rounding) == RoundFee(rule.maxAmount, rule.rounding)
  {
    var unit := RoundingUnit(rule.rounding);
    Units01(rule.rounding);
    Rounded(cap, rule.rounding);
    Rounded(rule.maxAmount, rule.rounding);
    CeilMonotone(cap, rule.maxAmount, unit);
    RoundedAlike(cap, rule.maxAmount, rule.rounding);
    hide CeilToIncrement;
    assert IsMultiple(0.0, unit) by { assert 0.0 == Units(0, unit); }
    MultiplesApart(0.0, RoundFee(cap, rule.rounding).value, unit);
  }

  lemma RoundedCaps(rule: FeeRule)
    requires FixedNotional(rule) && rule.maxAmount > 0.0 && rule.rounding != NoRounding
    ensures (forall notional: real | notional > 0.0 :: CapReached(rule, notional)) <==> AlwaysCapped(rule)
  {
    hide CapReached, FixedRaw, CapAmount, MayStayBelow, RoundFee, RoundingUnit;
    if MayStayBelow(rule, UnitBelow(rule)) {
      UnitBelowIs(rule, rule.maxAmount);
      var n := BelowAt(rule, UnitBelow(rule));
      NotReached(rule, n);
    } else {
      forall n: real | n > 0.0 ensures CapReached(rule, n) {
        CapIs(rule, n);
        FixedRawOrder(rule, n, n, 1, 1);
        var cap := CapAmount(rule, n);
        ReachedMeans(rule, n, FixedRaw(rule, n, 1), cap);
        UnitBelowIs(rule, cap);
        if !CapReached(rule, n) {
          StaysBelow(rule, n, RoundFee(cap, rule.rounding).value - RoundingUnit(rule.rounding), UnitBelow(rule));
        }
      }
    }
  }

  lemma NotReached(rule: FeeRule, n: real)
    requires FixedNotional(rule) && rule.maxAmount > 0.0 && rule.rounding != NoRounding && n > 0.0
    requires FixedRaw(rule, n, 1) <= UnitBelow(rule) < CapAmount(rule, n) && rule.minAmount <= UnitBelow(rule)
    ensures !CapReached(rule, n)
  {
    CapIs(rule, n);
    FixedRawOrder(rule, n, n, 1, 1);
    hide CapReached, FixedRaw, CapAmount, RoundFee, RoundingUnit;
    ReachedMeans(rule, n, FixedRaw(rule, n, 1), CapAmount(rule, n));
    UnitBelowIs(rule, CapAmount(rule, n));
  }

  lemma NegativeMaximum(rule: FeeRule, notional: real)
    requires rule.maxAmount < 0.0 && notional > 0.0
    ensures !CapReached(rule, notional)
  {
    if rule.maxRate > 0.0 {
      ProductPositive(notional, rule.maxRate);
    }
    hide Target, RoundFee, FixedRaw;
  }

  /** The split of an order does not matter to a notional rule with a fixed amount exactly when the numbers of the rule
      say that already a single fill reaches a cap. */
  lemma FixedSplitClosed(rule: FeeRule)
    requires FixedNotional(rule)
    ensures SplitInvariant(rule) <==> AlwaysCapped(rule)
  {
    FixedSplitInvariance(rule);
    hide SplitInvariant, FixedNotional, CapReached, MayStayBelow, RawAt;
    if rule.maxAmount < 0.0 {
      NegativeMaximum(rule, 1.0);
    } else if rule.maxAmount == 0.0 {
      FixedRateCap(rule);
    } else if rule.rounding == NoRounding {
      ExactCaps(rule);
    } else {
      RoundedCaps(rule);
    }
  }
}
