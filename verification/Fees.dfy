/** The fee engine: per-order accumulators with minimum, cap and rounding, charged by increments. */
module Fees {
  import opened Kernel

  datatype FeeGroup = Broker | Market | OtherGroup

  datatype Basis = PerUnit | PerOrder | PerNotional | OtherBasis

  datatype Rounding = NoRounding | CeilCurrencyUnit | CeilCent | OtherRounding

  datatype SideFilter = BothSides | Only(side: Side) | NoSide

  /** A rule whose side, basis, group and rounding texts have been read; `group` keeps the text, which keys the
      accumulators. */
  datatype FeeRule = FeeRule(
    id: string, group: string, groupKind: FeeGroup, side: SideFilter, basis: Basis,
    rate: real, fixedAmount: real, minAmount: real, maxAmount: real, maxRate: real,
    rounding: Rounding)

  datatype Accumulator = Accumulator(raw: real, notional: real, charged: real, orderUsed: bool)

  datatype Line = Line(amount: real, count: nat)

  datatype AppliedFees = AppliedFees(broker: real, market: real) {
    function Total(): real { broker + market }
  }

  /** `group|id|order` of the source, kept as a triple. */
  type AccumulatorKey = (string, string, nat)

  type LineKey = (string, string)

  datatype FeeState = FeeState(
    accumulators: map<AccumulatorKey, Accumulator>, breakdown: map<LineKey, Line>,
    brokerTotal: real, marketTotal: real)
  {
    function Total(): real { brokerTotal + marketTotal }
  }

  const EMPTY_FEES := FeeState(map[], map[], 0.0, 0.0)
  const NO_FEES := AppliedFees(0.0, 0.0)
  const EMPTY_ACCUMULATOR := Accumulator(0.0, 0.0, 0.0, false)

  predicate SideMatches(filter: SideFilter, side: Side) {
    filter == BothSides || filter == Only(side)
  }

  /** The raw fee of one trade, and the accumulator with its once-per-order mark set. */
  function RawFee(rule: FeeRule, acc: Accumulator, notional: real, quantity: real): (r: Result<(real, Accumulator)>)
    ensures r.Ok? ==> r.value.1 == acc.(orderUsed := r.value.1.orderUsed)
  {
    match rule.basis
    case PerUnit => Ok((quantity * rule.fixedAmount + quantity * rule.rate, acc))
    case PerOrder =>
      if acc.orderUsed then Ok((0.0, acc)) else Ok((rule.fixedAmount, acc.(orderUsed := true)))
    case PerNotional => Ok((notional * rule.rate + rule.fixedAmount, acc))
    case OtherBasis => Err(UnsupportedBasis)
  }

  function CapAmount(rule: FeeRule, notional: real): real {
    if rule.maxRate > 0.0 && (rule.maxAmount == 0.0 || notional * rule.maxRate < rule.maxAmount)
    then notional * rule.maxRate
    else rule.maxAmount
  }

  function RoundFee(amount: real, rounding: Rounding): Result<real> {
    match rounding
    case CeilCurrencyUnit => CeilToIncrement(amount, 1.0)
    case CeilCent => CeilToIncrement(amount, 0.01)
    case NoRounding => Ok(amount)
    case OtherRounding => Err(UnsupportedRounding)
  }

  /** What an order owes in all, given its raw fee and notional so far. */
  function Target(rule: FeeRule, raw: real, notional: real): Result<real> {
    var floored := if rule.minAmount > 0.0 && raw < rule.minAmount then rule.minAmount else raw;
    var cap := CapAmount(rule, notional);
    var capped := if cap > 0.0 && floored > cap then cap else floored;
    RoundFee(capped, rule.rounding)
  }

  /** The state of the loop over the rules: the fee engine and what this trade has been charged. */
  datatype Charge = Charge(fees: FeeState, applied: AppliedFees)

  function AddToGroup(group: FeeGroup, applied: AppliedFees, amount: real): Result<AppliedFees> {
    match group
    case Broker => Ok(applied.(broker := applied.broker + amount))
    case Market => Ok(applied.(market := applied.market + amount))
    case OtherGroup => Err(UnsupportedFeeGroup)
  }

  function KeyOf(rule: FeeRule, orderId: nat): AccumulatorKey {
    (rule.group, rule.id, orderId)
  }

  function AccumulatorAt(fees: FeeState, key: AccumulatorKey): Accumulator {
    if key in fees.accumulators then fees.accumulators[key] else EMPTY_ACCUMULATOR
  }

  function SetAccumulator(fees: FeeState, key: AccumulatorKey, acc: Accumulator): FeeState {
    fees.(accumulators := fees.accumulators[key := acc])
  }

  function AddLine(fees: FeeState, rule: FeeRule, amount: real): FeeState {
    var key := (rule.group, rule.id);
    var line := if key in fees.breakdown then fees.breakdown[key] else Line(0.0, 0);
    fees.(breakdown := fees.breakdown[key := Line(line.amount + amount, line.count + 1)])
  }

  /** The accumulator of one rule after one more billable trade; `charged` only ever rises. */
  function Accrue(rule: FeeRule, acc: Accumulator, notional: real, quantity: real): Result<Accumulator> {
    var (raw, used) :- RawFee(rule, acc, notional, quantity);
    if raw <= 0.0 then Ok(used)
    else
      var grown := used.(raw := used.raw + raw, notional := used.notional + notional);
      var target :- Target(rule, grown.raw, grown.notional);
      Ok(if target - grown.charged <= 0.0 then grown else grown.(charged := target))
  }

  /** One rule applied to one billable trade. */
  function ApplyRule(charge: Charge, rule: FeeRule, orderId: nat, side: Side, notional: real,
        quantity: real): Result<Charge> {
    if !SideMatches(rule.side, side) then Ok(charge)
    else
      var key := KeyOf(rule, orderId);
      var before := AccumulatorAt(charge.fees, key);
      var after :- Accrue(rule, before, notional, quantity);
      var fees := SetAccumulator(charge.fees, key, after);
      var incremental := after.charged - before.charged;
      if incremental <= 0.0 then Ok(charge.(fees := fees))
      else
        var applied :- AddToGroup(rule.groupKind, charge.applied, incremental);
        Ok(Charge(AddLine(fees, rule, incremental), applied))
  }

  function ApplyRules(charge: Charge, rules: seq<FeeRule>, orderId: nat, side: Side, notional: real,
        quantity: real): Result<Charge>
    decreases |rules|
  {
    if rules == [] then Ok(charge)
    else
      var next :- ApplyRule(charge, rules[0], orderId, side, notional, quantity);
      ApplyRules(next, rules[1..], orderId, side, notional, quantity)
  }

  function Billed(charge: Charge): Charge {
    charge.(fees := charge.fees.(
      brokerTotal := charge.fees.brokerTotal + charge.applied.broker,
      marketTotal := charge.fees.marketTotal + charge.applied.market))
  }

  /** All the rules applied to one trade of an order; a trade without value is not billable. */
  function ApplyTrade(fees: FeeState, rules: seq<FeeRule>, orderId: nat, side: Side, notional: real,
        quantity: real): Result<Charge> {
    if notional <= 0.0 || quantity <= 0.0 then Ok(Charge(fees, NO_FEES))
    else
      var charge :- ApplyRules(Charge(fees, NO_FEES), rules, orderId, side, notional, quantity);
      Ok(Billed(charge))
  }

  function Apply(fees: FeeState, rules: seq<FeeRule>, orderId: nat, side: Side, price: real,
        quantity: real): Result<Charge> {
    ApplyTrade(fees, rules, orderId, side, Worth(price, quantity), quantity)
  }

  // ---- refusals --------------------------------------------------------------------------

  /** Basis, rounding and group have been recognised. */
  predicate Supported(rule: FeeRule) {
    rule.basis != OtherBasis && rule.rounding != OtherRounding && rule.groupKind != OtherGroup
  }

  /** A rule refuses a trade of its side for an unknown basis, for an unknown rounding of a positive raw fee, or for an
      unknown group when there is something to charge; it refuses nothing else. */
  lemma RuleRefuses(charge: Charge, rule: FeeRule, orderId: nat, side: Side, notional: real, quantity: real)
    ensures var acc := AccumulatorAt(charge.fees, KeyOf(rule, orderId));
      var raw, next := RawFee(rule, acc, notional, quantity), Accrue(rule, acc, notional, quantity);
      ApplyRule(charge, rule, orderId, side, notional, quantity).Err? <==>
        && SideMatches(rule.side, side)
        && (|| rule.basis == OtherBasis
            || (raw.Ok? && raw.value.0 > 0.0 && rule.rounding == OtherRounding)
            || (next.Ok? && next.value.charged > acc.charged && rule.groupKind == OtherGroup))
  {
    hide CapAmount;
  }

  lemma RuleAccepts(charge: Charge, rule: FeeRule, orderId: nat, side: Side, notional: real, quantity: real)
    requires Supported(rule)
    ensures ApplyRule(charge, rule, orderId, side, notional, quantity).Ok?
  {
    RuleRefuses(charge, rule, orderId, side, notional, quantity);
    hide ApplyRule, Accrue, RawFee;
  }

  lemma {:induction false} RulesAccept(charge: Charge, rules: seq<FeeRule>, orderId: nat, side: Side, notional: real,
        quantity: real)
    requires forall rule <- rules :: Supported(rule)
    ensures ApplyRules(charge, rules, orderId, side, notional, quantity).Ok?
    decreases |rules|
  {
    hide ApplyRule, Supported;
    if rules == [] {
    } else {
      RuleAccepts(charge, rules[0], orderId, side, notional, quantity);
      var next := ApplyRule(charge, rules[0], orderId, side, notional, quantity);
      RulesAccept(next.value, rules[1..], orderId, side, notional, quantity);
    }
  }

  /** Supported rules refuse no trade. */
  lemma TradeAccepted(fees: FeeState, rules: seq<FeeRule>, orderId: nat, side: Side, notional: real, quantity: real)
    requires forall rule <- rules :: Supported(rule)
    ensures ApplyTrade(fees, rules, orderId, side, notional, quantity).Ok?
  {
    hide ApplyRules, Supported;
    RulesAccept(Charge(fees, NO_FEES), rules, orderId, side, notional, quantity);
  }

  // ---- conservation ----------------------------------------------------------------------

  function ChargedOf(acc: Accumulator): real { acc.charged }

  function AmountOf(line: Line): real { line.amount }

  /** Every amount charged appears once in the accumulators, once in the breakdown and once in the totals. */
  ghost predicate Balanced(fees: FeeState, pending: AppliedFees) {
    && MapSum(ChargedOf, fees.accumulators) == fees.Total() + pending.Total()
    && MapSum(AmountOf, fees.breakdown) == fees.Total() + pending.Total()
    && (forall key <- fees.accumulators :: fees.accumulators[key].charged >= 0.0)
    && pending.broker >= 0.0 && pending.market >= 0.0
  }

  lemma EmptyFeesBalanced()
    ensures Balanced(EMPTY_FEES, NO_FEES)
  {
    assert MapSum(ChargedOf, EMPTY_FEES.accumulators) == 0.0;
    assert MapSum(AmountOf, EMPTY_FEES.breakdown) == 0.0;
  }

  lemma BalancedTotals(fees: FeeState, pending: AppliedFees)
    requires Balanced(fees, pending) && pending.Total() == 0.0
    ensures fees.Total() == MapSum(AmountOf, fees.breakdown)
    ensures fees.Total() == MapSum(ChargedOf, fees.accumulators)
  {
  }

  lemma ApplyRuleBalanced(charge: Charge, rule: FeeRule, orderId: nat, side: Side, notional: real, quantity: real)
    requires Balanced(charge.fees, charge.applied)
    ensures var r := ApplyRule(charge, rule, orderId, side, notional, quantity);
      r.Ok? ==>
        && Balanced(r.value.fees, r.value.applied)
        && r.value.fees.Total() == charge.fees.Total()
        && r.value.fees.brokerTotal == charge.fees.brokerTotal
  {
    var r := ApplyRule(charge, rule, orderId, side, notional, quantity);
    if r.Ok? && SideMatches(rule.side, side) {
      var key, line := KeyOf(rule, orderId), (rule.group, rule.id);
      MapSumUpdate(ChargedOf, charge.fees.accumulators, key, r.value.fees.accumulators[key]);
      if r.value.applied != charge.applied {
        MapSumUpdate(AmountOf, charge.fees.breakdown, line, r.value.fees.breakdown[line]);
      }
    }
  }

  lemma {:induction false} ApplyRulesBalanced(charge: Charge, rules: seq<FeeRule>, orderId: nat, side: Side,
        notional: real, quantity: real)
    requires Balanced(charge.fees, charge.applied)
    ensures var r := ApplyRules(charge, rules, orderId, side, notional, quantity);
      r.Ok? ==>
        && Balanced(r.value.fees, r.value.applied)
        && r.value.fees.Total() == charge.fees.Total()
        && r.value.fees.brokerTotal == charge.fees.brokerTotal
    decreases |rules|
  {
    if rules == [] {
    } else {
      ApplyRuleBalanced(charge, rules[0], orderId, side, notional, quantity);
      var next := ApplyRule(charge, rules[0], orderId, side, notional, quantity);
      if next.Ok? {
        ApplyRulesBalanced(next.value, rules[1..], orderId, side, notional, quantity);
      }
    }
  }

  lemma BilledBalanced(fees: FeeState, charge: Charge)
    requires Balanced(charge.fees, charge.applied)
    requires charge.fees.brokerTotal == fees.brokerTotal && charge.fees.Total() == fees.Total()
    ensures Booked(fees, Billed(charge))
  {
  }

  /** The books after a trade: balanced, with totals grown by the fee, which is never negative. */
  ghost predicate Booked(before: FeeState, after: Charge) {
    && Balanced(after.fees, NO_FEES)
    && after.fees.brokerTotal == before.brokerTotal + after.applied.broker
    && after.fees.marketTotal == before.marketTotal + after.applied.market
    && after.applied.broker >= 0.0 && after.applied.market >= 0.0
  }

  lemma ApplyTradeBalanced(fees: FeeState, rules: seq<FeeRule>, orderId: nat, side: Side, notional: real,
        quantity: real)
    requires Balanced(fees, NO_FEES)
    ensures var r := ApplyTrade(fees, rules, orderId, side, notional, quantity);
      r.Ok? ==> Booked(fees, r.value)
  {
    ApplyRulesBalanced(Charge(fees, NO_FEES), rules, orderId, side, notional, quantity);
    var charge := ApplyRules(Charge(fees, NO_FEES), rules, orderId, side, notional, quantity);
    if notional > 0.0 && quantity > 0.0 && charge.Ok? {
      BilledBalanced(fees, charge.value);
    }
  }

  // ---- partial fills ---------------------------------------------------------------------

  /** Rules that charge a positive amount for each unit, or for each unit of notional, and nothing else. */
  predicate Linear(rule: FeeRule) {
    match rule.basis
    case PerUnit => rule.fixedAmount + rule.rate > 0.0
    case PerNotional => rule.fixedAmount == 0.0 && rule.rate > 0.0
    case _ => false
  }

  function AggregateRaw(rule: FeeRule, quantity: real, notional: real): real {
    if rule.basis == PerUnit then quantity * (rule.fixedAmount + rule.rate) else notional * rule.rate
  }

  /** What the order owes under the rule for its aggregate quantity and notional. */
  function AggregateFee(rule: FeeRule, quantity: real, notional: real): Result<real> {
    Target(rule, AggregateRaw(rule, quantity, notional), notional)
  }

  lemma RoundFeeMonotone(a: real, b: real, rounding: Rounding)
    requires 0.0 < a <= b
    ensures RoundFee(a, rounding).Ok? <==> RoundFee(b, rounding).Ok?
    ensures RoundFee(a, rounding).Ok? ==> 0.0 < RoundFee(a, rounding).value <= RoundFee(b, rounding).value
  {
    CeilMonotone(a, b, 1.0);
    CeilMonotone(a, b, 0.01);
  }

  lemma CapMonotone(rule: FeeRule, small: real, large: real)
    requires 0.0 < small <= large
    ensures CapAmount(rule, small) > 0.0 <==> CapAmount(rule, large) > 0.0
    ensures CapAmount(rule, small) > 0.0 ==> CapAmount(rule, small) <= CapAmount(rule, large)
  {
    if rule.maxRate > 0.0 {
      assert 0.0 < small * rule.maxRate;
      assert (large - small) * rule.maxRate >= 0.0;
    }
  }

  /** Growing an order never lowers what it owes, whatever the minimum, the caps and the rounding. */
  lemma TargetMonotone(rule: FeeRule, raw: real, notional: real, raw': real, notional': real)
    requires 0.0 < raw <= raw' && 0.0 < notional <= notional'
    ensures Target(rule, raw, notional).Ok? <==> Target(rule, raw', notional').Ok?
    ensures Target(rule, raw, notional).Ok? ==>
      0.0 < Target(rule, raw, notional).value <= Target(rule, raw', notional').value
  {
    CapMonotone(rule, notional, notional');
    var floor := (x: real) => if rule.minAmount > 0.0 && x < rule.minAmount then rule.minAmount else x;
    var cut := (x: real, cap: real) => if cap > 0.0 && x > cap then cap else x;
    var small, large := cut(floor(raw), CapAmount(rule, notional)), cut(floor(raw'), CapAmount(rule, notional'));
    RoundFeeMonotone(small, large, rule.rounding);
  }

  /** What an order owes before rounding. */
  function Unrounded(rule: FeeRule, raw: real, notional: real): real {
    var floored := if rule.minAmount > 0.0 && raw < rule.minAmount then rule.minAmount else raw;
    var cap := CapAmount(rule, notional);
    if cap > 0.0 && floored > cap then cap else floored
  }

  /** A cap that applies: a positive amount, or a positive share of the notional.
      A negative amount switches both off. */
  predicate CapsAt(rule: FeeRule, notional: real, cap: real) {
    rule.maxAmount >= 0.0 && cap > 0.0 && (cap == rule.maxAmount
      || (rule.maxRate > 0.0 && cap == notional * rule.maxRate))
  }

  /** The smallest size of a rounded fee; zero for none. */
  function RoundingUnit(rounding: Rounding): real {
    match rounding
    case CeilCurrencyUnit => 1.0
    case CeilCent => 0.01
    case _ => 0.0
  }

  /** What an order owes: its raw fee, raised to the minimum and lowered to the least of the caps that apply, rounded
      up by less than one unit. */
  lemma FeeWithinLimits(rule: FeeRule, raw: real, notional: real)
    requires raw > 0.0 && notional > 0.0 && Target(rule, raw, notional).Ok?
    ensures var owed, fee := Unrounded(rule, raw, notional), Target(rule, raw, notional).value;
      && (forall cap | CapsAt(rule, notional, cap) :: owed <= cap)
      && ((owed >= raw && owed >= rule.minAmount) || CapsAt(rule, notional, owed))
      && (owed == raw || owed == rule.minAmount || CapsAt(rule, notional, owed))
      && owed <= fee && (fee == owed || fee < owed + RoundingUnit(rule.rounding))
      && (RoundingUnit(rule.rounding) > 0.0 ==> IsMultiple(fee, RoundingUnit(rule.rounding)))
  {
    var share := notional * rule.maxRate;
    assert rule.maxRate > 0.0 ==> share > 0.0;
    assert Target(rule, raw, notional) == RoundFee(Unrounded(rule, raw, notional), rule.rounding);
  }

  lemma AggregateRawAdds(rule: FeeRule, quantity: real, notional: real, q: real, n: real)
    ensures AggregateRaw(rule, quantity + q, notional + n) == AggregateRaw(rule, quantity, notional)
      + AggregateRaw(rule, q, n)
  {
  }

  lemma AggregateRawPositive(rule: FeeRule, quantity: real, notional: real)
    requires Linear(rule) && quantity > 0.0 && notional > 0.0
    ensures AggregateRaw(rule, quantity, notional) > 0.0
  {
  }

  lemma RawOf(rule: FeeRule, acc: Accumulator, notional: real, quantity: real)
    requires Linear(rule)
    ensures RawFee(rule, acc, notional, quantity) == Ok((AggregateRaw(rule, quantity, notional), acc))
  {
  }

  function LineAmount(fees: FeeState, key: LineKey): real {
    if key in fees.breakdown then fees.breakdown[key].amount else 0.0
  }

  function LineOf(rule: FeeRule): LineKey { (rule.group, rule.id) }

  /** Rules with another group or id, and trades of another order, leave an accumulator and its line alone. */
  lemma {:induction false} ApplyRulesFrame(charge: Charge, rules: seq<FeeRule>, orderId: nat, side: Side,
        notional: real, quantity: real, key: AccumulatorKey)
    requires key.2 != orderId
    ensures var r := ApplyRules(charge, rules, orderId, side, notional, quantity);
      r.Ok? ==> AccumulatorAt(r.value.fees, key) == AccumulatorAt(charge.fees, key)
    decreases |rules|
  {
    if rules == [] {
    } else {
      var next := ApplyRule(charge, rules[0], orderId, side, notional, quantity);
      if next.Ok? {
        assert KeyOf(rules[0], orderId) != key;
        ApplyRulesFrame(next.value, rules[1..], orderId, side, notional, quantity, key);
      }
    }
  }

  /** A trade never touches the accumulators of another order. */
  lemma ApplyTradeFrame(fees: FeeState, rules: seq<FeeRule>, orderId: nat, side: Side, notional: real, quantity: real,
        key: AccumulatorKey)
    requires key.2 != orderId
    ensures var r := ApplyTrade(fees, rules, orderId, side, notional, quantity);
      r.Ok? ==> AccumulatorAt(r.value.fees, key) == AccumulatorAt(fees, key)
  {
    ApplyRulesFrame(Charge(fees, NO_FEES), rules, orderId, side, notional, quantity, key);
  }

  lemma {:induction false} ApplyRulesKeys(charge: Charge, rules: seq<FeeRule>, orderId: nat, side: Side,
        notional: real, quantity: real)
    ensures var r := ApplyRules(charge, rules, orderId, side, notional, quantity);
      r.Ok? ==> forall key <- r.value.fees.accumulators :: key in charge.fees.accumulators || key.2 == orderId
    decreases |rules|
  {
    if rules == [] {
    } else {
      var next := ApplyRule(charge, rules[0], orderId, side, notional, quantity);
      if next.Ok? {
        ApplyRulesKeys(next.value, rules[1..], orderId, side, notional, quantity);
      }
    }
  }

  lemma ApplyTradeKeys(fees: FeeState, rules: seq<FeeRule>, orderId: nat, side: Side, notional: real, quantity: real)
    ensures var r := ApplyTrade(fees, rules, orderId, side, notional, quantity);
      r.Ok? ==> forall key <- r.value.fees.accumulators :: key in fees.accumulators || key.2 == orderId
  {
    ApplyRulesKeys(Charge(fees, NO_FEES), rules, orderId, side, notional, quantity);
  }
}
