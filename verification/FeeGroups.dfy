/** Broker fees and market fees are booked apart: each total is the sum of the charges of its own rules. */
module FeeGroups {
  import opened Kernel
  import opened Fees

  /** The kind of each rule is what its group text is read as. */
  ghost predicate ReadsAs(rules: seq<FeeRule>, kind: string -> FeeGroup) {
    forall rule <- rules :: rule.groupKind == kind(rule.group)
  }

  function LinesOf(kind: string -> FeeGroup, group: FeeGroup, lines: map<LineKey, Line>): map<LineKey, Line> {
    map key | key in lines && kind(key.0) == group :: lines[key]
  }

  function AccumulatorsOf(kind: string -> FeeGroup, group: FeeGroup, accumulators: map<AccumulatorKey, Accumulator>):
    map<AccumulatorKey, Accumulator>
  {
    map key | key in accumulators && kind(key.0) == group :: accumulators[key]
  }

  /** The amounts in the breakdown under the groups of a kind. */
  ghost function AmountIn(kind: string -> FeeGroup, group: FeeGroup, fees: FeeState): real {
    MapSum(AmountOf, LinesOf(kind, group, fees.breakdown))
  }

  /** What all orders have been charged under the rules of a kind. */
  ghost function ChargedIn(kind: string -> FeeGroup, group: FeeGroup, fees: FeeState): real {
    MapSum(ChargedOf, AccumulatorsOf(kind, group, fees.accumulators))
  }

  /** The charges of each kind are in its own total, or in what this trade is about to add to it. */
  ghost predicate Split(kind: string -> FeeGroup, fees: FeeState, applied: AppliedFees) {
    && ChargedIn(kind, Broker, fees) == AmountIn(kind, Broker, fees) == fees.brokerTotal + applied.broker
    && ChargedIn(kind, Market, fees) == AmountIn(kind, Market, fees) == fees.marketTotal + applied.market
  }

  lemma NothingSplit(kind: string -> FeeGroup)
    ensures Split(kind, EMPTY_FEES, NO_FEES)
  {
    forall group: FeeGroup
      ensures LinesOf(kind, group, EMPTY_FEES.breakdown) == map[]
      ensures AccumulatorsOf(kind, group, EMPTY_FEES.accumulators) == map[]
    {
    }
  }

  lemma LineRises(kind: string -> FeeGroup, group: FeeGroup, lines: map<LineKey, Line>, key: LineKey, line: Line,
        amount: real)
    requires line.amount == amount + if key in lines then lines[key].amount else 0.0
    ensures MapSum(AmountOf, LinesOf(kind, group, lines[key := line]))
      == MapSum(AmountOf, LinesOf(kind, group, lines)) + if kind(key.0) == group then amount else 0.0
  {
    var more := lines[key := line];
    if kind(key.0) == group {
      assert LinesOf(kind, group, more) == LinesOf(kind, group, lines)[key := line];
      MapSumUpdate(AmountOf, LinesOf(kind, group, lines), key, line);
    } else {
      assert LinesOf(kind, group, more) == LinesOf(kind, group, lines);
    }
  }

  lemma AccumulatorRises(kind: string -> FeeGroup, group: FeeGroup, accumulators: map<AccumulatorKey, Accumulator>,
        key: AccumulatorKey, acc: Accumulator, amount: real)
    requires acc.charged == amount + if key in accumulators then accumulators[key].charged else 0.0
    ensures MapSum(ChargedOf, AccumulatorsOf(kind, group, accumulators[key := acc]))
      == MapSum(ChargedOf, AccumulatorsOf(kind, group, accumulators)) + if kind(key.0) == group then amount else 0.0
  {
    var more := accumulators[key := acc];
    if kind(key.0) == group {
      assert AccumulatorsOf(kind, group, more) == AccumulatorsOf(kind, group, accumulators)[key := acc];
      MapSumUpdate(ChargedOf, AccumulatorsOf(kind, group, accumulators), key, acc);
    } else {
      assert AccumulatorsOf(kind, group, more) == AccumulatorsOf(kind, group, accumulators);
    }
  }

  /** What one rule does to the fee engine: its accumulator and its line rise by as much as the amount of its kind, and
      the line counts one more charge. */
  ghost predicate Charged(charge: Charge, next: Charge, rule: FeeRule, orderId: nat, amount: real) {
    var key, line := KeyOf(rule, orderId), (rule.group, rule.id);
    && amount >= 0.0
    && next.fees.brokerTotal == charge.fees.brokerTotal && next.fees.marketTotal == charge.fees.marketTotal
    && next.applied.broker == charge.applied.broker + (if rule.groupKind == Broker then amount else 0.0)
    && next.applied.market == charge.applied.market + (if rule.groupKind == Market then amount else 0.0)
    && (exists acc ::
          && next.fees.accumulators == charge.fees.accumulators[key := acc]
          && acc.charged == amount + AccumulatorAt(charge.fees, key).charged)
    && (if amount == 0.0 then next.fees.breakdown == charge.fees.breakdown
        else exists entry: Line ::
          && next.fees.breakdown == charge.fees.breakdown[line := entry]
          && entry.count == 1 + (if line in charge.fees.breakdown then charge.fees.breakdown[line].count else 0)
          && entry.amount == amount + if line in charge.fees.breakdown then charge.fees.breakdown[line].amount else 0.0)
  }

  lemma RuleCharges(charge: Charge, rule: FeeRule, orderId: nat, side: Side, notional: real, quantity: real)
        returns (amount: real)
    requires SideMatches(rule.side, side) && ApplyRule(charge, rule, orderId, side, notional, quantity).Ok?
    ensures Charged(charge, ApplyRule(charge, rule, orderId, side, notional, quantity).value, rule, orderId, amount)
  {
    var key := KeyOf(rule, orderId);
    var before := AccumulatorAt(charge.fees, key);
    var after := Accrue(rule, before, notional, quantity).value;
    amount := after.charged - before.charged;
    AccrueRises(rule, before, notional, quantity);
    hide Accrue;
    var next := ApplyRule(charge, rule, orderId, side, notional, quantity).value;
    assert next.fees.accumulators == charge.fees.accumulators[key := after];
    if amount > 0.0 {
      var line := (rule.group, rule.id);
      assert next.fees.breakdown == charge.fees.breakdown[line := next.fees.breakdown[line]];
    }
  }

  lemma AccrueRises(rule: FeeRule, acc: Accumulator, notional: real, quantity: real)
    ensures var r := Accrue(rule, acc, notional, quantity); r.Ok? ==> r.value.charged >= acc.charged
  {
    hide Target;
  }

  lemma ChargedGroup(kind: string -> FeeGroup, group: FeeGroup, charge: Charge, next: Charge, rule: FeeRule,
        orderId: nat, amount: real)
    requires Charged(charge, next, rule, orderId, amount) && rule.groupKind == kind(rule.group)
    ensures ChargedIn(kind, group, next.fees)
      == ChargedIn(kind, group, charge.fees) + if rule.groupKind == group then amount else 0.0
    ensures AmountIn(kind, group, next.fees)
      == AmountIn(kind, group, charge.fees) + if rule.groupKind == group then amount else 0.0
  {
    var key, line := KeyOf(rule, orderId), (rule.group, rule.id);
    hide MapSum, LinesOf, AccumulatorsOf;
    var acc: Accumulator :|
      && next.fees.accumulators == charge.fees.accumulators[key := acc]
      && acc.charged == amount + AccumulatorAt(charge.fees, key).charged;
    AccumulatorRises(kind, group, charge.fees.accumulators, key, acc, amount);
    if amount != 0.0 {
      var entry: Line :|
        && next.fees.breakdown == charge.fees.breakdown[line := entry]
        && entry.amount == amount + if line in charge.fees.breakdown then charge.fees.breakdown[line].amount else 0.0;
      LineRises(kind, group, charge.fees.breakdown, line, entry, amount);
    }
  }

  lemma ApplyRuleSplit(kind: string -> FeeGroup, charge: Charge, rule: FeeRule, orderId: nat, side: Side,
        notional: real, quantity: real)
    requires Split(kind, charge.fees, charge.applied) && rule.groupKind == kind(rule.group)
    ensures var r := ApplyRule(charge, rule, orderId, side, notional, quantity);
      r.Ok? ==>
        && Split(kind, r.value.fees, r.value.applied)
        && r.value.fees.brokerTotal == charge.fees.brokerTotal && r.value.fees.marketTotal == charge.fees.marketTotal
  {
    var r := ApplyRule(charge, rule, orderId, side, notional, quantity);
    if r.Ok? && SideMatches(rule.side, side) {
      hide ApplyRule, ChargedIn, AmountIn;
      var amount := RuleCharges(charge, rule, orderId, side, notional, quantity);
      ChargedGroup(kind, Broker, charge, r.value, rule, orderId, amount);
      ChargedGroup(kind, Market, charge, r.value, rule, orderId, amount);
    }
  }

  lemma {:induction false} ApplyRulesSplit(kind: string -> FeeGroup, charge: Charge, rules: seq<FeeRule>, orderId: nat,
        side: Side, notional: real, quantity: real)
    requires Split(kind, charge.fees, charge.applied) && ReadsAs(rules, kind)
    ensures var r := ApplyRules(charge, rules, orderId, side, notional, quantity);
      r.Ok? ==>
        && Split(kind, r.value.fees, r.value.applied)
        && r.value.fees.brokerTotal == charge.fees.brokerTotal && r.value.fees.marketTotal == charge.fees.marketTotal
    decreases |rules|
  {
    hide ApplyRule, Split;
    if rules == [] {
    } else {
      ApplyRuleSplit(kind, charge, rules[0], orderId, side, notional, quantity);
      var next := ApplyRule(charge, rules[0], orderId, side, notional, quantity);
      if next.Ok? {
        ApplyRulesSplit(kind, next.value, rules[1..], orderId, side, notional, quantity);
      }
    }
  }

  /** A trade is charged to the broker what the rules of brokers charge, and to the market what those of markets do; the
      totals keep to their own lines. */
  lemma ApplyTradeSplit(kind: string -> FeeGroup, fees: FeeState, rules: seq<FeeRule>, orderId: nat, side: Side,
        notional: real, quantity: real)
    requires Split(kind, fees, NO_FEES) && ReadsAs(rules, kind)
    ensures var r := ApplyTrade(fees, rules, orderId, side, notional, quantity);
      r.Ok? ==>
        && Split(kind, r.value.fees, NO_FEES)
        && r.value.applied.broker == ChargedIn(kind, Broker, r.value.fees) - ChargedIn(kind, Broker, fees)
        && r.value.applied.market == ChargedIn(kind, Market, r.value.fees) - ChargedIn(kind, Market, fees)
  {
    hide ApplyRules, ReadsAs, ChargedIn, AmountIn;
    var start := Charge(fees, NO_FEES);
    ApplyRulesSplit(kind, start, rules, orderId, side, notional, quantity);
    var charge := ApplyRules(start, rules, orderId, side, notional, quantity);
    if notional > 0.0 && quantity > 0.0 && charge.Ok? {
      BilledSplit(kind, charge.value);
    }
  }

  lemma BilledSplit(kind: string -> FeeGroup, charge: Charge)
    ensures ChargedIn(kind, Broker, Billed(charge).fees) == ChargedIn(kind, Broker, charge.fees)
    ensures ChargedIn(kind, Market, Billed(charge).fees) == ChargedIn(kind, Market, charge.fees)
    ensures AmountIn(kind, Broker, Billed(charge).fees) == AmountIn(kind, Broker, charge.fees)
    ensures AmountIn(kind, Market, Billed(charge).fees) == AmountIn(kind, Market, charge.fees)
  {
  }

  /** However the group texts of the rules may be read. */
  ghost predicate SplitAsRead(rules: seq<FeeRule>, fees: FeeState) {
    forall kind: string -> FeeGroup | ReadsAs(rules, kind) :: Split(kind, fees, NO_FEES)
  }

  lemma NothingSplitAsRead(rules: seq<FeeRule>)
    ensures SplitAsRead(rules, EMPTY_FEES)
  {
    hide Split;
    forall kind: string -> FeeGroup | ReadsAs(rules, kind) ensures Split(kind, EMPTY_FEES, NO_FEES) {
      NothingSplit(kind);
    }
  }

  lemma TradeSplitAsRead(fees: FeeState, rules: seq<FeeRule>, orderId: nat, side: Side, notional: real, quantity: real)
    requires SplitAsRead(rules, fees)
    ensures var r := ApplyTrade(fees, rules, orderId, side, notional, quantity);
      r.Ok? ==> SplitAsRead(rules, r.value.fees)
  {
    hide Split, ApplyTrade, ReadsAs;
    var r := ApplyTrade(fees, rules, orderId, side, notional, quantity);
    if r.Ok? {
      forall kind: string -> FeeGroup | ReadsAs(rules, kind) ensures Split(kind, r.value.fees, NO_FEES) {
        ApplyTradeSplit(kind, fees, rules, orderId, side, notional, quantity);
      }
    }
  }
}
