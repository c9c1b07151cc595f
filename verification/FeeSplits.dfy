/** Under which fee rules it matters how an order is split into fills. */
module FeeSplits {
  import opened Kernel
  import opened Fees
  import opened FeeLines

  /** The accumulator of one rule after the fills of one order. */
  function AccrueAll(rule: FeeRule, trades: seq<Trade>): Result<Accumulator>
    decreases |trades|
  {
    if trades == [] then Ok(EMPTY_ACCUMULATOR)
    else
      var acc :- AccrueAll(rule, trades[..|trades| - 1]);
      Accrue(rule, acc, trades[|trades| - 1].notional, trades[|trades| - 1].quantity)
  }

  ghost predicate SameFee(rule: FeeRule, ts: seq<Trade>, us: seq<Trade>) {
    var a, b := AccrueAll(rule, ts), AccrueAll(rule, us);
    a.Ok? == b.Ok? && (a.Ok? ==> a.value.charged == b.value.charged)
  }

  /** Any two splits of the same aggregate are charged the same. */
  ghost predicate SplitInvariant(rule: FeeRule) {
    forall ts, us :: SameAggregate(ts, us) ==> SameFee(rule, ts, us)
  }

  /** A supported rule without minimum, cap or rounding, and without negative charges. */
  predicate Plain(rule: FeeRule) {
    && rule.basis != OtherBasis && rule.rounding == NoRounding
    && rule.minAmount <= 0.0 && rule.maxAmount <= 0.0 && rule.maxRate <= 0.0
    && rule.rate >= 0.0 && rule.fixedAmount >= 0.0
  }

  lemma PlainTarget(rule: FeeRule, raw: real, notional: real)
    requires Plain(rule)
    ensures Target(rule, raw, notional) == Ok(raw)
  {
  }

  lemma PlainAccrue(rule: FeeRule, acc: Accumulator, notional: real, quantity: real, raw: real, used: Accumulator)
    requires Plain(rule) && raw >= 0.0
    requires RawFee(rule, acc, notional, quantity).Ok?
    requires RawFee(rule, acc, notional, quantity).value.0 == raw
    requires RawFee(rule, acc, notional, quantity).value.1 == used
    requires used.raw == used.charged >= 0.0
    ensures var after := Accrue(rule, acc, notional, quantity);
      && after.Ok? && after.value.orderUsed == used.orderUsed
      && after.value.charged == after.value.raw == used.raw + raw
  {
    PlainTarget(rule, used.raw + raw, used.notional + notional);
  }

  lemma LinearRaw(rule: FeeRule, acc: Accumulator, notional: real, quantity: real)
    requires Plain(rule) && notional > 0.0 && quantity > 0.0
    requires rule.basis == PerUnit || (rule.basis == PerNotional && rule.fixedAmount == 0.0)
    ensures var r := RawFee(rule, acc, notional, quantity);
      r.Ok? && r.value.0 == AggregateRaw(rule, quantity, notional) && r.value.1 == acc
    ensures AggregateRaw(rule, quantity, notional) >= 0.0
  {
  }

  /** What a plain rule without a fixed notional amount charges for an aggregate. */
  function PlainFee(rule: FeeRule, quantity: real, notional: real): real {
    if rule.basis == PerOrder then rule.fixedAmount else AggregateRaw(rule, quantity, notional)
  }

  lemma {:induction false} PlainAccrues(rule: FeeRule, trades: seq<Trade>, quantity: real, notional: real)
    requires Plain(rule) && !(rule.basis == PerNotional && rule.fixedAmount > 0.0)
    requires trades != [] && forall trade <- trades :: Billable(trade)
    requires quantity == Sum(Quantity, trades) && notional == Sum(Notional, trades)
    ensures quantity > 0.0 && notional > 0.0
    ensures var r := AccrueAll(rule, trades);
      && r.Ok? && (rule.basis == PerOrder ==> r.value.orderUsed)
      && r.value.raw == r.value.charged == PlainFee(rule, quantity, notional) >= 0.0
    decreases |trades|
  {
    var rest, last := trades[..|trades| - 1], trades[|trades| - 1];
    assert Billable(last);
    var q, n := last.quantity, last.notional;
    if rest == [] {
      if rule.basis == PerOrder {
        PlainAccrue(rule, EMPTY_ACCUMULATOR, n, q, rule.fixedAmount, EMPTY_ACCUMULATOR.(orderUsed := true));
      } else {
        LinearRaw(rule, EMPTY_ACCUMULATOR, n, q);
        PlainAccrue(rule, EMPTY_ACCUMULATOR, n, q, AggregateRaw(rule, q, n), EMPTY_ACCUMULATOR);
      }
    } else {
      PlainAccrues(rule, rest, Sum(Quantity, rest), Sum(Notional, rest));
      var acc := AccrueAll(rule, rest).value;
      if rule.basis != PerOrder {
        AggregateRawAdds(rule, Sum(Quantity, rest), Sum(Notional, rest), q, n);
        LinearRaw(rule, acc, n, q);
        PlainAccrue(rule, acc, n, q, AggregateRaw(rule, q, n), acc);
      }
    }
  }

  lemma AccrueShort(rule: FeeRule, a: Trade, b: Trade)
    ensures AccrueAll(rule, [a]) == Accrue(rule, EMPTY_ACCUMULATOR, a.notional, a.quantity)
    ensures AccrueAll(rule, [a]).Ok? ==>
      AccrueAll(rule, [a, b]) == Accrue(rule, AccrueAll(rule, [a]).value, b.notional, b.quantity)
  {
    assert [a][..0] == [] && [a, b][..1] == [a];
  }

  lemma PlainNotionalTwice(rule: FeeRule, trade: Trade, raw: real)
    requires Plain(rule) && rule.basis == PerNotional
    requires raw == trade.notional * rule.rate + rule.fixedAmount && raw >= 0.0
    ensures var once, twice := AccrueAll(rule, [trade]), AccrueAll(rule, [trade, trade]);
      once.Ok? && once.value.charged == raw && twice.Ok? && twice.value.charged == raw + raw
  {
    AccrueShort(rule, trade, trade);
    PlainAccrue(rule, EMPTY_ACCUMULATOR, trade.notional, trade.quantity, raw, EMPTY_ACCUMULATOR);
    var acc := AccrueAll(rule, [trade]).value;
    PlainAccrue(rule, acc, trade.notional, trade.quantity, raw, acc);
  }

  lemma Doubled(half: Trade, whole: Trade)
    requires Billable(half) && whole == Trade(half.notional + half.notional, half.quantity + half.quantity)
    ensures SameAggregate([whole], [half, half])
  {
    SumShort(Quantity, whole, whole);
    SumShort(Notional, whole, whole);
    SumShort(Quantity, half, half);
    SumShort(Notional, half, half);
  }

  /** Two fills of half the notional pay the fixed amount twice, one fill of the whole pays it once. */
  lemma FixedNotionalSplits(rule: FeeRule, half: Trade, whole: Trade, part: real)
    requires Plain(rule) && rule.basis == PerNotional && rule.fixedAmount > 0.0
    requires Billable(half) && whole == Trade(half.notional + half.notional, half.quantity + half.quantity)
    requires part == half.notional * rule.rate
    ensures SameAggregate([whole], [half, half]) && !SameFee(rule, [whole], [half, half])
  {
    Doubled(half, whole);
    assert part >= 0.0;
    PlainNotionalTwice(rule, half, part + rule.fixedAmount);
    PlainNotionalTwice(rule, whole, part + part + rule.fixedAmount);
  }

  /** A plain rule is split invariant exactly when it is not a notional rule with a fixed amount. */
  lemma PlainSplitInvariance(rule: FeeRule)
    requires Plain(rule)
    ensures SplitInvariant(rule) <==> !(rule.basis == PerNotional && rule.fixedAmount > 0.0)
  {
    if rule.basis == PerNotional && rule.fixedAmount > 0.0 {
      FixedNotionalSplits(rule, Trade(1.0, 1.0), Trade(2.0, 2.0), rule.rate);
    } else {
      forall ts, us | SameAggregate(ts, us) ensures SameFee(rule, ts, us) {
        PlainAccrues(rule, ts, Sum(Quantity, ts), Sum(Notional, ts));
        PlainAccrues(rule, us, Sum(Quantity, us), Sum(Notional, us));
      }
    }
  }

  // A once-per-order fee is raised when the first fill comes in, and its rate cap is that of this fill alone.

  /** A once-per-order rule that charges something and can round it. */
  predicate ChargesOnce(rule: FeeRule) {
    rule.basis == PerOrder && rule.fixedAmount > 0.0 && rule.rounding != OtherRounding
  }

  /** A rate cap is looked at only beside a fixed maximum that is not negative. */
  predicate HasRateCap(rule: FeeRule) {
    rule.maxRate > 0.0 && rule.maxAmount >= 0.0
  }

  /** The fixed amount within its minimum and its fixed maximum. */
  function OrderLimit(rule: FeeRule): real {
    var floored := if rule.minAmount > 0.0 && rule.fixedAmount < rule.minAmount then rule.minAmount
      else rule.fixedAmount;
    if rule.maxAmount > 0.0 && floored > rule.maxAmount then rule.maxAmount else floored
  }

  /** What an order with a first fill of this notional owes before rounding. */
  function OrderOwed(rule: FeeRule, notional: real): real {
    if HasRateCap(rule) then Min(OrderLimit(rule), notional * rule.maxRate) else OrderLimit(rule)
  }

  lemma OrderTarget(rule: FeeRule, notional: real)
    requires ChargesOnce(rule) && notional > 0.0
    ensures OrderOwed(rule, notional) > 0.0
    ensures Target(rule, rule.fixedAmount, notional) == RoundFee(OrderOwed(rule, notional), rule.rounding)
    ensures RoundFee(OrderOwed(rule, notional), rule.rounding).Ok?
    ensures RoundFee(OrderOwed(rule, notional), rule.rounding).value >= OrderOwed(rule, notional)
  {
    var share := notional * rule.maxRate;
    assert rule.maxRate > 0.0 ==> share > 0.0;
  }

  lemma {:induction false} OrderAccrues(rule: FeeRule, trades: seq<Trade>)
    requires ChargesOnce(rule) && trades != [] && forall trade <- trades :: Billable(trade)
    ensures var r := AccrueAll(rule, trades);
      r.Ok? && r.value.orderUsed && Ok(r.value.charged) == RoundFee(OrderOwed(rule, trades[0].notional), rule.rounding)
    decreases |trades|
  {
    hide OrderOwed, RoundFee, Target;
    var rest, last := trades[..|trades| - 1], trades[|trades| - 1];
    if rest == [] {
      assert Billable(last);
      OrderTarget(rule, last.notional);
    } else {
      OrderAccrues(rule, rest);
    }
  }

  /** A positive amount of at most one unit is rounded up to that unit. */
  lemma RoundsToUnit(amount: real, rounding: Rounding)
    requires 0.0 < amount <= RoundingUnit(rounding)
    ensures RoundFee(amount, rounding) == Ok(RoundingUnit(rounding))
  {
    var unit := RoundingUnit(rounding);
    var rounded := CeilToIncrement(amount, unit).value;
    var k :| rounded == Units(k, unit);
    UnitsOrder(amount, unit, k);
    assert k == 1;
  }

  lemma OrderRateCapSplits(rule: FeeRule, first: real, whole: real)
    requires ChargesOnce(rule) && 0.0 < first < whole
    requires RoundFee(OrderOwed(rule, first), rule.rounding) != RoundFee(OrderOwed(rule, whole), rule.rounding)
    ensures !SplitInvariant(rule)
  {
    var all, part, rest := Trade(whole, 2.0), Trade(first, 1.0), Trade(whole - first, 1.0);
    SumShort(Quantity, all, all);
    SumShort(Notional, all, all);
    SumShort(Quantity, part, rest);
    SumShort(Notional, part, rest);
    hide RoundFee, OrderOwed, ChargesOnce, AccrueAll;
    OrderAccrues(rule, [all]);
    OrderAccrues(rule, [part, rest]);
    assert SameAggregate([all], [part, rest]);
    assert !SameFee(rule, [all], [part, rest]);
  }

  lemma RateCapAt(rule: FeeRule, notional: real, share: real)
    requires HasRateCap(rule) && notional == share / rule.maxRate && 0.0 < share <= OrderLimit(rule)
    ensures notional > 0.0 && notional * rule.maxRate == share && OrderOwed(rule, notional) == share
  {
    assert notional * rule.maxRate == share;
  }

  lemma SharesOrder(a: real, b: real, rate: real, low: real, high: real)
    requires rate > 0.0 && a * rate == low && b * rate == high && low < high
    ensures a < b
  {
    var gap := b - a;
    assert gap * rate == high - low;
  }

  lemma RateCapMatters(rule: FeeRule, low: real)
    requires ChargesOnce(rule) && HasRateCap(rule) && RoundingUnit(rule.rounding) < OrderLimit(rule)
    requires low == if rule.rounding == NoRounding then OrderLimit(rule) / 2.0 else RoundingUnit(rule.rounding)
    ensures !SplitInvariant(rule)
  {
    var limit := OrderLimit(rule);
    var first, whole := low / rule.maxRate, limit / rule.maxRate;
    RateCapAt(rule, first, low);
    RateCapAt(rule, whole, limit);
    SharesOrder(first, whole, rule.maxRate, low, limit);
    OrderTarget(rule, whole);
    if rule.rounding != NoRounding {
      RoundsToUnit(low, rule.rounding);
    }
    hide CeilToIncrement, OrderOwed, OrderLimit, SplitInvariant;
    OrderRateCapSplits(rule, first, whole);
  }

  lemma OneUnitOwed(rule: FeeRule, notional: real)
    requires ChargesOnce(rule) && notional > 0.0 && HasRateCap(rule) && OrderLimit(rule) <= RoundingUnit(rule.rounding)
    ensures RoundFee(OrderOwed(rule, notional), rule.rounding) == Ok(RoundingUnit(rule.rounding))
  {
    OrderTarget(rule, notional);
    RoundsToUnit(OrderOwed(rule, notional), rule.rounding);
  }

  lemma FirstFillImmaterial(rule: FeeRule, ts: seq<Trade>, us: seq<Trade>)
    requires ChargesOnce(rule) && (!HasRateCap(rule) || OrderLimit(rule) <= RoundingUnit(rule.rounding))
    requires SameAggregate(ts, us)
    ensures SameFee(rule, ts, us)
  {
    hide RoundFee, OrderLimit, AccrueAll, ChargesOnce, HasRateCap, RoundingUnit;
    assert Billable(ts[0]) && Billable(us[0]);
    OrderAccrues(rule, ts);
    OrderAccrues(rule, us);
    if HasRateCap(rule) {
      OneUnitOwed(rule, ts[0].notional);
      OneUnitOwed(rule, us[0].notional);
    }
  }

  /** The split of an order does not matter to a once-per-order rule exactly when the rule has no rate cap, or never
      charges more than one unit of its rounding. */
  lemma OrderSplitInvariance(rule: FeeRule)
    requires ChargesOnce(rule)
    ensures SplitInvariant(rule) <==> !HasRateCap(rule) || OrderLimit(rule) <= RoundingUnit(rule.rounding)
  {
    hide ChargesOnce, HasRateCap, OrderLimit, RoundingUnit, SameFee, SameAggregate;
    if HasRateCap(rule) && OrderLimit(rule) > RoundingUnit(rule.rounding) {
      RateCapMatters(rule, if rule.rounding == NoRounding then OrderLimit(rule) / 2.0 else RoundingUnit(rule.rounding));
    } else {
      forall ts, us | SameAggregate(ts, us) ensures SameFee(rule, ts, us) {
        FirstFillImmaterial(rule, ts, us);
      }
    }
  }

  // A notional rule with a fixed amount charges that amount again with every fill, up to its caps.

  predicate FixedNotional(rule: FeeRule) {
    rule.basis == PerNotional && rule.fixedAmount > 0.0 && rule.rate >= 0.0 && rule.rounding != OtherRounding
  }

  /** The raw fee of `fills` fills of this notional in all. */
  function FixedRaw(rule: FeeRule, notional: real, fills: nat): real {
    notional * rule.rate + fills as real * rule.fixedAmount
  }

  lemma FixedRawAdds(rule: FeeRule, notional: real, fills: nat, n: real)
    ensures FixedRaw(rule, notional, fills) + (n * rule.rate + rule.fixedAmount)
      == FixedRaw(rule, notional + n, fills + 1)
  {
    assert (fills + 1) as real * rule.fixedAmount == fills as real * rule.fixedAmount + rule.fixedAmount;
  }

  lemma FixedRawIs(rule: FeeRule, notional: real, fills: nat)
    ensures FixedRaw(rule, notional, fills) == Worth(notional, rule.rate) + Worth(fills as real, rule.fixedAmount)
  {
  }

  lemma FixedMeans(rule: FeeRule)
    requires FixedNotional(rule)
    ensures rule.fixedAmount > 0.0 && rule.rate >= 0.0
  {
  }

  lemma NothingWorth(factor: real)
    ensures Worth(0.0, factor) == 0.0
  {
  }

  lemma FixedRawOrder(rule: FeeRule, notional: real, n: real, fills: nat, more: nat)
    requires FixedNotional(rule) && 0.0 <= notional <= n && fills <= more
    ensures FixedRaw(rule, notional, fills) <= FixedRaw(rule, n, more)
    ensures fills > 0 ==> FixedRaw(rule, notional, fills) > 0.0
  {
    hide *;
    FixedMeans(rule);
    FixedRawIs(rule, notional, fills);
    FixedRawIs(rule, n, more);
    WorthGrows(notional, n, rule.rate);
    WorthGrows(fills as real, more as real, rule.fixedAmount);
    WorthGrows(0.0, notional, rule.rate);
    NothingWorth(rule.rate);
    NothingWorth(rule.fixedAmount);
    if fills > 0 {
      WorthRises(0.0, fills as real, rule.fixedAmount);
    }
  }

  lemma FixedAccrue(rule: FeeRule, acc: Accumulator, raw: real, n: real, q: real)
    requires FixedNotional(rule) && n > 0.0 && acc.raw >= 0.0 && raw == n * rule.rate + rule.fixedAmount
    requires Target(rule, acc.raw + raw, acc.notional + n).Ok?
    ensures raw > 0.0
    ensures var target := Target(rule, acc.raw + raw, acc.notional + n).value;
      Accrue(rule, acc, n, q)
      == Ok(acc.(raw := acc.raw + raw, notional := acc.notional + n, charged := if target > acc.charged then target
        else acc.charged))
  {
    ProductGrows(0.0, n, rule.rate);
    FixedRawFee(rule, acc, raw, n, q);
    hide Target, RawFee;
  }

  lemma FixedRawFee(rule: FeeRule, acc: Accumulator, raw: real, n: real, q: real)
    requires rule.basis == PerNotional && raw == n * rule.rate + rule.fixedAmount
    ensures var r := RawFee(rule, acc, n, q); r.Ok? && r.value.0 == raw && r.value.1 == acc
  {
  }

  lemma FixedTarget(rule: FeeRule, raw: real, notional: real, raw': real, notional': real)
    requires FixedNotional(rule) && 0.0 < raw <= raw' && 0.0 < notional <= notional'
    ensures Target(rule, raw, notional).Ok? && Target(rule, raw', notional').Ok?
    ensures 0.0 < Target(rule, raw, notional).value <= Target(rule, raw', notional').value
  {
    TargetMonotone(rule, raw, notional, raw', notional');
  }

  /** The accumulator of an order charged for this notional in this many fills. */
  predicate FixedOwes(rule: FeeRule, acc: Accumulator, notional: real, fills: nat) {
    if fills == 0 then acc == EMPTY_ACCUMULATOR && notional == 0.0
    else
      && notional > 0.0 && acc.raw == FixedRaw(rule, notional, fills) && acc.notional == notional
      && Ok(acc.charged) == Target(rule, acc.raw, notional)
  }

  lemma FixedStep(rule: FeeRule, acc: Accumulator, notional: real, fills: nat, n: real, q: real)
    requires FixedNotional(rule) && FixedOwes(rule, acc, notional, fills) && n > 0.0
    ensures var r := Accrue(rule, acc, n, q); r.Ok? && FixedOwes(rule, r.value, notional + n, fills + 1)
  {
    hide Target, FixedRaw, FixedNotional, Accrue;
    var raw, whole := n * rule.rate + rule.fixedAmount, FixedRaw(rule, notional + n, fills + 1);
    FixedRawAdds(rule, notional, fills, n);
    FixedRawOrder(rule, n, notional + n, 1, fills + 1);
    FixedTarget(rule, whole, notional + n, whole, notional + n);
    if fills > 0 {
      FixedRawOrder(rule, notional, notional + n, fills, fills + 1);
      FixedTarget(rule, acc.raw, notional, whole, notional + n);
    } else {
      NoRaw(rule);
    }
    FixedAccrue(rule, acc, raw, n, q);
  }

  lemma NoRaw(rule: FeeRule)
    ensures FixedRaw(rule, 0.0, 0) == 0.0
  {
  }

  /** After its fills an order has been charged for their number and their notional. */
  lemma {:induction false} FixedAccrues(rule: FeeRule, trades: seq<Trade>, notional: real)
    requires FixedNotional(rule) && (forall trade <- trades :: Billable(trade)) && notional == Sum(Notional, trades)
    ensures AccrueAll(rule, trades).Ok? && FixedOwes(rule, AccrueAll(rule, trades).value, notional, |trades|)
    decreases |trades|
  {
    hide FixedOwes, FixedNotional, Accrue;
    if trades == [] {
      NothingOwed(rule);
    } else {
      var rest, last := trades[..|trades| - 1], trades[|trades| - 1];
      assert Billable(last);
      FixedAccrues(rule, rest, Sum(Notional, rest));
      FixedStep(rule, AccrueAll(rule, rest).value, Sum(Notional, rest), |rest|, last.notional, last.quantity);
    }
  }

  lemma NothingOwed(rule: FeeRule)
    ensures FixedOwes(rule, EMPTY_ACCUMULATOR, 0.0, 0)
  {
  }

  /** Already the first fill of an order of this notional reaches a cap, as far as its rounding shows. */
  predicate CapReached(rule: FeeRule, notional: real) {
    CapAmount(rule, notional) > 0.0
    && Target(rule, FixedRaw(rule, notional, 1), notional) == RoundFee(CapAmount(rule, notional), rule.rounding)
  }

  lemma TargetUnderCap(rule: FeeRule, raw: real, notional: real)
    requires FixedNotional(rule) && raw > 0.0 && notional > 0.0
    ensures Target(rule, raw, notional).Ok?
    ensures CapAmount(rule, notional) > 0.0 ==>
      && Target(rule, raw, notional).value <= RoundFee(CapAmount(rule, notional), rule.rounding).value
      && (raw >= CapAmount(rule, notional) ==>
        Target(rule, raw, notional) == RoundFee(CapAmount(rule, notional), rule.rounding))
    ensures CapAmount(rule, notional) <= 0.0 ==> Target(rule, raw, notional).value >= raw
  {
    var cap := CapAmount(rule, notional);
    hide CapAmount;
    var floored := if rule.minAmount > 0.0 && raw < rule.minAmount then rule.minAmount else raw;
    if cap > 0.0 {
      RoundFeeMonotone(if floored > cap then cap else floored, cap, rule.rounding);
    }
  }

  /** Where the first fill reaches the cap the number of fills does not matter. */
  lemma CapHolds(rule: FeeRule, notional: real, fills: nat)
    requires FixedNotional(rule) && notional > 0.0 && fills > 0 && CapReached(rule, notional)
    ensures Target(rule, FixedRaw(rule, notional, fills), notional)
      == Target(rule, FixedRaw(rule, notional, 1), notional)
  {
    FixedRawOrder(rule, notional, notional, 1, fills);
    FixedTarget(rule, FixedRaw(rule, notional, 1), notional, FixedRaw(rule, notional, fills), notional);
    TargetUnderCap(rule, FixedRaw(rule, notional, fills), notional);
    hide Target, FixedRaw, CapAmount, RoundFee, FixedNotional;
  }

  function Repeat(trade: Trade, times: nat): seq<Trade> {
    if times == 0 then [] else Repeat(trade, times - 1) + [trade]
  }

  lemma OneMore(times: nat, x: real)
    ensures (times + 1) as real * x == times as real * x + x
  {
  }

  lemma {:induction false} RepeatSums(f: Trade -> real, trade: Trade, times: nat)
    ensures Sum(f, Repeat(trade, times)) == times as real * f(trade)
    decreases times
  {
    hide *;
    RepeatEnds(f, trade, times);
    if times == 0 {
    } else {
      RepeatSums(f, trade, times - 1);
      OneMore(times - 1, f(trade));
    }
  }

  lemma RepeatEnds(f: Trade -> real, trade: Trade, times: nat)
    ensures Sum(f, Repeat(trade, times)) == if times == 0 then 0.0 else Sum(f, Repeat(trade, times - 1)) + f(trade)
  {
    if times > 0 {
      SumAppend(f, Repeat(trade, times - 1), trade);
    }
  }

  lemma {:induction false} RepeatAll(trade: Trade, times: nat)
    ensures |Repeat(trade, times)| == times && forall other <- Repeat(trade, times) :: other == trade
    decreases times
  {
    if times == 0 {
    } else {
      RepeatAll(trade, times - 1);
    }
  }

  /** One fill of the whole against `times` equal ones. */
  lemma EqualParts(whole: Trade, part: Trade, times: nat)
    requires times > 0 && Billable(part) && whole.notional == times as real * part.notional
    requires whole.quantity == times as real * part.quantity
    ensures SameAggregate([whole], Repeat(part, times)) && |Repeat(part, times)| == times
  {
    hide Sum, Repeat;
    RepeatAll(part, times);
    RepeatSums(Quantity, part, times);
    RepeatSums(Notional, part, times);
    SumShort(Quantity, whole, whole);
    SumShort(Notional, whole, whole);
    ProductGrows(1.0, times as real, part.notional);
    ProductGrows(1.0, times as real, part.quantity);
  }

  /** Enough fills charge more than this, or reach the cap. */
  lemma EnoughFills(rule: FeeRule, notional: real, amount: real) returns (fills: nat)
    requires FixedNotional(rule) && notional > 0.0
    ensures fills > 0 && FixedRaw(rule, notional, fills) > amount
  {
    var least := Ceil(Abs(amount) / rule.fixedAmount);
    fills := (if least > 0 then least else 0) + 1;
    var times := fills as real;
    assert times > Abs(amount) / rule.fixedAmount;
    var over := times - Abs(amount) / rule.fixedAmount;
    assert over * rule.fixedAmount > 0.0;
    assert Abs(amount) / rule.fixedAmount * rule.fixedAmount == Abs(amount);
    assert times * rule.fixedAmount > Abs(amount);
    ProductGrows(0.0, notional, rule.rate);
  }

  lemma CapMissed(rule: FeeRule, notional: real) returns (fills: nat)
    requires FixedNotional(rule) && notional > 0.0 && !CapReached(rule, notional)
    ensures fills > 0
    ensures Target(rule, FixedRaw(rule, notional, fills), notional)
      != Target(rule, FixedRaw(rule, notional, 1), notional)
  {
    FixedRawOrder(rule, notional, notional, 1, 1);
    TargetUnderCap(rule, FixedRaw(rule, notional, 1), notional);
    var first, cap := Target(rule, FixedRaw(rule, notional, 1), notional).value, CapAmount(rule, notional);
    fills := EnoughFills(rule, notional, Max(first, cap));
    FixedRawOrder(rule, notional, notional, fills, fills);
    TargetUnderCap(rule, FixedRaw(rule, notional, fills), notional);
    hide Target, FixedRaw, CapAmount, RoundFee, FixedNotional;
  }

  lemma FixedSplits(rule: FeeRule, notional: real)
    requires FixedNotional(rule) && notional > 0.0 && !CapReached(rule, notional)
    ensures !SplitInvariant(rule)
  {
    var fills := CapMissed(rule, notional);
    var times := fills as real;
    var part := notional / times;
    assert times * part == notional;
    FactorPositive(part, times, notional);
    var whole, one := Trade(notional, times), Trade(part, 1.0);
    EqualParts(whole, one, fills);
    SumShort(Notional, whole, whole);
    hide FixedNotional, Target, FixedRaw, CapReached, AccrueAll, Repeat, Sum;
    assert [whole][0] == whole;
    FixedAccrues(rule, [whole], notional);
    SameNotional([whole], Repeat(one, fills));
    FixedAccrues(rule, Repeat(one, fills), notional);
    assert !SameFee(rule, [whole], Repeat(one, fills));
  }

  lemma SameNotional(ts: seq<Trade>, us: seq<Trade>)
    requires SameAggregate(ts, us)
    ensures Sum(Notional, ts) == Sum(Notional, us) && (forall trade <- ts :: Billable(trade)) && forall trade <- us ::
      Billable(trade)
    ensures ts != [] && us != []
  {
  }

  /** The split of an order does not matter to a notional rule with a fixed amount exactly when, whatever the notional,
      already a single fill reaches a cap. */
  lemma FixedSplitInvariance(rule: FeeRule)
    requires FixedNotional(rule)
    ensures SplitInvariant(rule) <==> forall notional: real | notional > 0.0 :: CapReached(rule, notional)
  {
    hide FixedNotional, CapReached, SameAggregate, SameFee;
    if notional: real :| notional > 0.0 && !CapReached(rule, notional) {
      FixedSplits(rule, notional);
    } else {
      forall ts, us | SameAggregate(ts, us) ensures SameFee(rule, ts, us) {
        CappedFee(rule, ts, us);
      }
    }
  }

  lemma CappedFee(rule: FeeRule, ts: seq<Trade>, us: seq<Trade>)
    requires FixedNotional(rule) && (forall notional: real | notional > 0.0 :: CapReached(rule, notional))
    requires SameAggregate(ts, us)
    ensures SameFee(rule, ts, us)
  {
    SameNotional(ts, us);
    hide FixedNotional, CapReached, Target, FixedRaw, AccrueAll, Sum;
    var notional := Sum(Notional, ts);
    FixedAccrues(rule, ts, notional);
    FixedAccrues(rule, us, notional);
    CapHolds(rule, notional, |ts|);
    CapHolds(rule, notional, |us|);
  }

  lemma RoundNear(amount: real, rounding: Rounding)
    requires rounding != OtherRounding
    ensures RoundFee(amount, rounding).Ok? && amount <= RoundFee(amount, rounding).value < amount + 1.0
  {
  }

  lemma BelowCap(rule: FeeRule, notional: real, least: real)
    requires FixedNotional(rule) && notional > 0.0 && FixedRaw(rule, notional, 1) <= least && rule.minAmount <= least
    requires least + 1.0 < CapAmount(rule, notional)
    ensures !CapReached(rule, notional)
  {
    var raw, cap := FixedRaw(rule, notional, 1), CapAmount(rule, notional);
    var floored := if rule.minAmount > 0.0 && raw < rule.minAmount then rule.minAmount else raw;
    hide FixedRaw, CapAmount;
    RoundNear(floored, rule.rounding);
    RoundNear(cap, rule.rounding);
    assert Target(rule, raw, notional) == RoundFee(floored, rule.rounding);
  }

  lemma FarNotional(rule: FeeRule, gap: real, room: real) returns (notional: real)
    requires FixedNotional(rule) && gap == rule.maxRate - rule.rate > 0.0 && room >= 0.0
    ensures notional > 0.0 && notional * rule.maxRate == FixedRaw(rule, notional, 1) + room
  {
    notional := (rule.fixedAmount + room) / gap;
    assert notional * gap == rule.fixedAmount + room;
    FactorPositive(notional, gap, rule.fixedAmount + room);
    assert notional * rule.maxRate == notional * rule.rate + notional * gap;
  }

  /** Under a rate cap alone that means a rate at least as high as the cap; without a cap it is never so. */
  lemma FixedRateCap(rule: FeeRule)
    requires FixedNotional(rule) && rule.maxAmount == 0.0
    ensures SplitInvariant(rule) <==> 0.0 < rule.maxRate <= rule.rate
  {
    FixedSplitInvariance(rule);
    hide SplitInvariant, FixedNotional;
    if rule.maxRate <= 0.0 {
      NoCap(rule, 1.0);
    } else if rule.maxRate <= rule.rate {
      forall notional: real | notional > 0.0 ensures CapReached(rule, notional) {
        RateReached(rule, notional);
      }
    } else {
      var room := Max(rule.minAmount, 0.0) + 2.0;
      var far := FarNotional(rule, rule.maxRate - rule.rate, room);
      FixedRawOrder(rule, far, far, 1, 1);
      FarBelow(rule, far, FixedRaw(rule, far, 1), room);
    }
  }

  lemma NoCap(rule: FeeRule, notional: real)
    requires rule.maxAmount == 0.0 && rule.maxRate <= 0.0
    ensures !CapReached(rule, notional)
  {
    hide Target, RoundFee, FixedRaw;
  }

  lemma FarBelow(rule: FeeRule, notional: real, raw: real, room: real)
    requires FixedNotional(rule) && notional > 0.0 && rule.maxAmount == 0.0 && rule.maxRate > 0.0
    requires raw == FixedRaw(rule, notional, 1) > 0.0
    requires room == Max(rule.minAmount, 0.0) + 2.0 && notional * rule.maxRate == raw + room
    ensures !CapReached(rule, notional)
  {
    assert CapAmount(rule, notional) == raw + room;
    hide FixedRaw, CapAmount, CapReached;
    BelowCap(rule, notional, if raw >= rule.minAmount then raw else rule.minAmount);
  }

  lemma RateOverCap(rule: FeeRule, notional: real)
    requires FixedNotional(rule) && notional > 0.0 && 0.0 < rule.maxRate <= rule.rate
    ensures 0.0 < notional * rule.maxRate <= FixedRaw(rule, notional, 1)
  {
    ProductPositive(notional, rule.maxRate);
    Share2(notional, rule.maxRate, rule.rate);
  }

  lemma Share2(x: real, y: real, z: real)
    requires x > 0.0 && y <= z
    ensures x * y <= x * z
  {
    var gap := z - y;
    assert x * gap == x * z - x * y;
  }

  lemma RateReached(rule: FeeRule, notional: real)
    requires FixedNotional(rule) && notional > 0.0 && rule.maxAmount == 0.0 && 0.0 < rule.maxRate <= rule.rate
    ensures CapReached(rule, notional)
  {
    RateOverCap(rule, notional);
    assert CapAmount(rule, notional) == notional * rule.maxRate;
    hide Target, RoundFee, FixedRaw, FixedNotional, CapAmount;
    TargetUnderCap(rule, FixedRaw(rule, notional, 1), notional);
  }

  // Rules that share a line under different limits: the split of an order does matter.

  lemma ApplyBoth(start: Charge, a: FeeRule, b: FeeRule, orderId: nat, side: Side, n: real, q: real)
    ensures var first := ApplyRule(start, a, orderId, side, n, q);
      ApplyRules(start, [a, b], orderId, side, n, q)
      == if first.Ok? then ApplyRule(first.value, b, orderId, side, n, q) else first
  {
    hide ApplyRule;
    assert [a, b][1..] == [b] && [b][1..] == [];
    var first := ApplyRule(start, a, orderId, side, n, q);
    if first.Ok? {
      assert ApplyRules(first.value, [b], orderId, side, n, q) == ApplyRule(first.value, b, orderId, side, n, q);
    }
  }

  /** The accumulator of an order after one trade under two rules of one line. */
  lemma TwoRules(fees: FeeState, a: FeeRule, b: FeeRule, orderId: nat, side: Side, trade: Trade, first: Accumulator,
        second: Accumulator)
    requires KeyOf(a, orderId) == KeyOf(b, orderId) && SideMatches(a.side, side) && SideMatches(b.side, side)
    requires a.groupKind == b.groupKind == Broker && Billable(trade)
    requires Accrue(a, AccumulatorAt(fees, KeyOf(a, orderId)), trade.notional, trade.quantity) == Ok(first)
    requires Accrue(b, first, trade.notional, trade.quantity) == Ok(second)
    ensures var r := ApplyTrade(fees, [a, b], orderId, side, trade.notional, trade.quantity);
      r.Ok? && AccumulatorAt(r.value.fees, KeyOf(a, orderId)) == second
  {
    var start := Charge(fees, NO_FEES);
    var q, n := trade.quantity, trade.notional;
    hide ApplyRule, Accrue, KeyOf, ApplyRules;
    LineRule(start, a, orderId, side, n, q);
    RuleOk(start, a, orderId, side, n, q);
    var next := ApplyRule(start, a, orderId, side, n, q).value;
    LineRule(next, b, orderId, side, n, q);
    RuleOk(next, b, orderId, side, n, q);
    ApplyBoth(start, a, b, orderId, side, n, q);
  }

  lemma RuleOk(charge: Charge, rule: FeeRule, orderId: nat, side: Side, n: real, q: real)
    requires SideMatches(rule.side, side) && rule.groupKind == Broker
    requires Accrue(rule, AccumulatorAt(charge.fees, KeyOf(rule, orderId)), n, q).Ok?
    ensures ApplyRule(charge, rule, orderId, side, n, q).Ok?
  {
    hide Accrue;
  }

  /** A rule of the whole notional, perhaps with a fixed maximum. */
  lemma WholeNotional(rule: FeeRule, acc: Accumulator, n: real, q: real, raw: real, charged: real)
    requires rule.basis == PerNotional && rule.rate == 1.0 && rule.fixedAmount == 0.0 && rule.rounding == NoRounding
    requires rule.minAmount == 0.0 && rule.maxRate == 0.0 && n > 0.0 && raw == acc.raw + n
    requires charged == Max(acc.charged, if rule.maxAmount > 0.0 then Min(raw, rule.maxAmount) else raw)
    ensures Accrue(rule, acc, n, q) == Ok(acc.(raw := raw, notional := acc.notional + n, charged := charged))
  {
  }

  /** `b` is `a` capped at 1; both take the whole notional. */
  predicate CappedTwin(a: FeeRule, b: FeeRule) {
    a == FeeRule("id", "broker", Broker, BothSides, PerNotional, 1.0, 0.0, 0.0, 0.0, 0.0, NoRounding)
      && b == a.(maxAmount := 1.0)
  }

  /** Under both the charge rises to what the first rule sees: the second is held at 1. */
  lemma TwinTrade(fees: FeeState, a: FeeRule, b: FeeRule, orderId: nat, side: Side, trade: Trade, acc: Accumulator)
    requires CappedTwin(a, b) && AccumulatorAt(fees, KeyOf(a, orderId)) == acc && Billable(trade)
    requires trade.notional >= 1.0 && 0.0 <= acc.charged <= acc.raw
    ensures var r := ApplyTrade(fees, [a, b], orderId, side, trade.notional, trade.quantity);
      && r.Ok?
      && AccumulatorAt(r.value.fees, KeyOf(a, orderId))
         == acc.(raw := acc.raw + 2.0 * trade.notional, notional := acc.notional + 2.0 * trade.notional,
           charged := acc.raw + trade.notional)
  {
    var n, q := trade.notional, trade.quantity;
    assert KeyOf(b, orderId) == KeyOf(a, orderId);
    var first := acc.(raw := acc.raw + n, notional := acc.notional + n, charged := acc.raw + n);
    var second := first.(raw := first.raw + n, notional := first.notional + n);
    WholeNotional(a, acc, n, q, first.raw, first.charged);
    WholeNotional(b, first, n, q, second.raw, second.charged);
    hide ApplyTrade, Accrue, KeyOf, AccumulatorAt;
    TwoRules(fees, a, b, orderId, side, trade, first, second);
  }

  /** Two rules at the full notional on one line, the second capped at 1: filled in two halves an order is charged half
      as much again as filled at once. */
  lemma SharedLimitsSplit(a: FeeRule, b: FeeRule, orderId: nat, side: Side, whole: Trade, half: Trade)
    requires CappedTwin(a, b) && Billable(half) && half.notional >= 1.0
    requires whole == Trade(2.0 * half.notional, 2.0 * half.quantity)
    ensures var once := ApplyTrades(EMPTY_FEES, [a, b], orderId, side, [whole]);
      once.Ok? && AccumulatorAt(once.value, KeyOf(a, orderId)).charged == 2.0 * half.notional
    ensures var twice := ApplyTrades(EMPTY_FEES, [a, b], orderId, side, [half, half]);
      twice.Ok? && AccumulatorAt(twice.value, KeyOf(a, orderId)).charged == 3.0 * half.notional
  {
    var n, key := half.notional, KeyOf(a, orderId);
    NoFeesYet(key);
    assert Billable(whole);
    hide *;
    TwinTrade(EMPTY_FEES, a, b, orderId, side, whole, EMPTY_ACCUMULATOR);
    OneTrade(EMPTY_FEES, [a, b], orderId, side, whole, half);
    TwinTrade(EMPTY_FEES, a, b, orderId, side, half, EMPTY_ACCUMULATOR);
    var before := ApplyTrade(EMPTY_FEES, [a, b], orderId, side, half.notional, half.quantity).value.fees;
    TwinTrade(before, a, b, orderId, side, half, AccumulatorAt(before, key));
    OneTrade(EMPTY_FEES, [a, b], orderId, side, half, half);
  }

  lemma NoFeesYet(key: AccumulatorKey)
    ensures AccumulatorAt(EMPTY_FEES, key) == EMPTY_ACCUMULATOR
  {
  }

  lemma OneTrade(fees: FeeState, rules: seq<FeeRule>, orderId: nat, side: Side, a: Trade, b: Trade)
    ensures var first := ApplyTrade(fees, rules, orderId, side, a.notional, a.quantity);
      && ApplyTrades(fees, rules, orderId, side, [a]) == (if first.Ok? then Ok(first.value.fees) else Err(first.error))
      && (first.Ok? ==>
            var second := ApplyTrade(first.value.fees, rules, orderId, side, b.notional, b.quantity);
            ApplyTrades(fees, rules, orderId, side, [a, b]) == if second.Ok? then Ok(second.value.fees)
              else Err(second.error))
  {
    hide ApplyTrade;
    assert [a][..0] == [] && [a, b][..1] == [a];
    assert ApplyTrades(fees, rules, orderId, side, []) == Ok(fees);
  }

  // In the other order the last rule owes the most, and the split does not matter.

  lemma WholeOwed(rule: FeeRule, raw: real, notional: real)
    requires rule.rounding == NoRounding && rule.minAmount == 0.0 && rule.maxRate == 0.0
    ensures Target(rule, raw, notional) == Ok(if 0.0 < rule.maxAmount < raw then rule.maxAmount else raw)
    ensures Owed(rule, raw, notional) == if 0.0 < rule.maxAmount < raw then rule.maxAmount else raw
  {
  }

  lemma CappedFirstLine(a: FeeRule, b: FeeRule, side: Side, whole: Trade)
    requires CappedTwin(a, b)
    ensures Charges(a, LineOf(a), side) && Charges(b, LineOf(a), side)
    ensures LinearLine([b, a], LineOf(a), side) && LastRule([b, a], LineOf(a), side) == Some(a)
    ensures LineRaw([b, a], LineOf(a), side, whole.quantity, whole.notional) == 2.0 * whole.notional
  {
    assert [b, a][1..] == [a] && [a][1..] == [];
    assert LastRule([a], LineOf(a), side) == Some(a);
    assert LineRaw([a], LineOf(a), side, whole.quantity, whole.notional) == whole.notional;
  }

  lemma CappedFirstRegular(a: FeeRule, b: FeeRule, side: Side, whole: Trade)
    requires CappedTwin(a, b)
    ensures Regular([b, a], a, side) && LineFee([b, a], a, side, whole) == Ok(2.0 * whole.notional)
  {
    CappedFirstLine(a, b, side, whole);
    WholeOwed(a, 2.0 * whole.notional, LineNotional([b, a], LineOf(a), side, whole.notional));
    hide Owed, Target, LineRaw, LineNotional, LinearLine, LastRule, Charges;
    forall other <- [b, a] ensures Dominates(a, other) {
      forall raw: real, notional: real | raw > 0.0 && notional > 0.0
        ensures Owed(other, raw, notional) <= Owed(a, raw, notional)
      {
        WholeOwed(a, raw, notional);
        WholeOwed(b, raw, notional);
      }
    }
  }

  lemma {:induction false} TradesAccepted(fees: FeeState, rules: seq<FeeRule>, orderId: nat, side: Side,
        trades: seq<Trade>)
    requires forall rule <- rules :: Supported(rule)
    ensures ApplyTrades(fees, rules, orderId, side, trades).Ok?
    decreases |trades|
  {
    hide ApplyTrade, Supported;
    if trades == [] {
    } else {
      var rest, last := trades[..|trades| - 1], trades[|trades| - 1];
      TradesAccepted(fees, rules, orderId, side, rest);
      TradeAccepted(ApplyTrades(fees, rules, orderId, side, rest).value, rules, orderId, side, last.notional,
        last.quantity);
    }
  }

  /** The same two rules, the capped one first, charge every split of an order twice its notional. */
  lemma CappedFirst(a: FeeRule, b: FeeRule, orderId: nat, side: Side, trades: seq<Trade>)
    requires CappedTwin(a, b) && trades != [] && forall trade <- trades :: Billable(trade)
    ensures var r := ApplyTrades(EMPTY_FEES, [b, a], orderId, side, trades);
      r.Ok? && LineAmount(r.value, LineOf(a)) == 2.0 * Sum(Notional, trades)
  {
    NoFeesYet(KeyOf(a, orderId));
    assert LineAmount(EMPTY_FEES, LineOf(a)) == 0.0;
    assert forall rule <- [b, a] :: Supported(rule);
    CappedFirstRegular(a, b, side, Total(trades));
    assert Total(trades).notional == Sum(Notional, trades);
    hide *;
    TradesAccepted(EMPTY_FEES, [b, a], orderId, side, trades);
    PartialFillInvariance(EMPTY_FEES, [b, a], a, orderId, side, trades);
  }

  lemma CappedLast(a: FeeRule, b: FeeRule, line: LineKey, side: Side, whole: Trade, half: Trade)
    requires CappedTwin(a, b) && Billable(half) && Billable(whole) && half.notional >= 1.0
    requires whole == Trade(2.0 * half.notional, 2.0 * half.quantity)
    requires LineKeyOf(line, 0) == KeyOf(a, 0)
    ensures var once, twice := AccrueTrades([a, b], line, side, [whole]),
      AccrueTrades([a, b], line, side, [half, half]);
      once.Ok? && twice.Ok? && once.value.charged == 2.0 * half.notional && twice.value.charged == 3.0 * half.notional
  {
    hide *;
    NoFeesYet(KeyOf(a, 0));
    SharedLimitsSplit(a, b, 0, side, whole, half);
    ApplyTradesLine(EMPTY_FEES, [a, b], line, 0, side, [whole]);
    ApplyTradesLine(EMPTY_FEES, [a, b], line, 0, side, [half, half]);
  }

  lemma SplitsDiffer(rules: seq<FeeRule>, line: LineKey, side: Side, ts: seq<Trade>, us: seq<Trade>)
    requires SameAggregate(ts, us)
    requires var a, b := AccrueTrades(rules, line, side, ts), AccrueTrades(rules, line, side, us);
      a.Ok? && b.Ok? && a.value.charged != b.value.charged
    ensures !LineInvariant(rules, line, side)
  {
    hide AccrueTrades, SameAggregate;
    assert !SameLineFee(rules, line, side, ts, us);
  }

  lemma TwoOf(half: Trade, whole: Trade, line: LineKey, a: FeeRule)
    requires half == Trade(1.0, 1.0) && whole == Trade(2.0, 2.0) && line == LineOf(a)
    ensures Billable(half) && Billable(whole) && LineKeyOf(line, 0) == KeyOf(a, 0)
  {
  }

  /** Whether the split of an order matters depends on the order of the rules of its line. */
  lemma OrderOfRulesMatters(a: FeeRule, b: FeeRule, side: Side)
    requires CappedTwin(a, b)
    ensures LineInvariant([b, a], LineOf(a), side) && !LineInvariant([a, b], LineOf(a), side)
  {
    hide *;
    var half, whole := Trade(1.0, 1.0), Trade(2.0, 2.0);
    TwoOf(half, whole, LineOf(a), a);
    CappedFirstRegular(a, b, side, whole);
    RegularInvariant([b, a], a, side);
    Doubled(half, whole);
    CappedLast(a, b, LineOf(a), side, whole, half);
    SplitsDiffer([a, b], LineOf(a), side, [whole], [half, half]);
  }
}
