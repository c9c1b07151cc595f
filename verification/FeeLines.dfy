/** Lines of fees: rules with the same group and id share an accumulator and a line of the breakdown. What a line of
    linear rules charges for an order depends on its aggregate and its last fill alone. */
module FeeLines {
  import opened Kernel
  import opened Fees

  /** The rule charges orders of this side on this line. */
  predicate Charges(rule: FeeRule, line: LineKey, side: Side) {
    LineOf(rule) == line && (rule.side == BothSides || rule.side == Only(side))
  }

  /** The raw fee of an aggregate under all rules of a line. */
  function LineRaw(rules: seq<FeeRule>, line: LineKey, side: Side, quantity: real, notional: real): real {
    if rules == [] then 0.0
    else
      (if Charges(rules[0], line, side) then AggregateRaw(rules[0], quantity, notional) else 0.0)
      + LineRaw(rules[1..], line, side, quantity, notional)
  }

  /** The notional of an aggregate, once for each rule of a line: what the rate cap of a shared line looks at. */
  function LineNotional(rules: seq<FeeRule>, line: LineKey, side: Side, notional: real): real {
    if rules == [] then 0.0
    else (if Charges(rules[0], line, side) then notional else 0.0) + LineNotional(rules[1..], line, side, notional)
  }

  /** One fill as the fee engine sees it: its notional is price times quantity. */
  datatype Trade = Trade(notional: real, quantity: real)

  function Notional(trade: Trade): real { trade.notional }

  function Quantity(trade: Trade): real { trade.quantity }

  predicate Billable(trade: Trade) {
    trade.quantity > 0.0 && trade.notional > 0.0
  }

  /** The trades of one order, charged one after the other. */
  function ApplyTrades(fees: FeeState, rules: seq<FeeRule>, orderId: nat, side: Side,
        trades: seq<Trade>): Result<FeeState>
    decreases |trades|
  {
    if trades == [] then Ok(fees)
    else
      var before :- ApplyTrades(fees, rules, orderId, side, trades[..|trades| - 1]);
      var last := trades[|trades| - 1];
      var charge :- ApplyTrade(before, rules, orderId, side, last.notional, last.quantity);
      Ok(charge.fees)
  }

  /** No other rule has the group and id of the rule at `i`. */
  ghost predicate Unshared(rules: seq<FeeRule>, i: nat)
    requires i < |rules|
  {
    forall j :: 0 <= j < |rules| && j != i ==> LineOf(rules[j]) != LineOf(rules[i])
  }

  lemma {:induction false} EmptyLine(rules: seq<FeeRule>, line: LineKey, side: Side, quantity: real, notional: real)
    requires forall rule <- rules :: LineOf(rule) != line
    ensures LineRaw(rules, line, side, quantity, notional) == LineNotional(rules, line, side, notional) == 0.0
  {
    if rules == [] {
    } else {
      EmptyLine(rules[1..], line, side, quantity, notional);
    }
  }

  lemma {:induction false} LoneLine(rules: seq<FeeRule>, i: nat, side: Side, quantity: real, notional: real)
    requires i < |rules| && Unshared(rules, i) && SideMatches(rules[i].side, side)
    ensures LineRaw(rules, LineOf(rules[i]), side, quantity, notional) == AggregateRaw(rules[i], quantity, notional)
    ensures LineNotional(rules, LineOf(rules[i]), side, notional) == notional
    decreases |rules|
  {
    hide AggregateRaw;
    if i == 0 {
      EmptyLine(rules[1..], LineOf(rules[0]), side, quantity, notional);
    } else {
      LoneLine(rules[1..], i - 1, side, quantity, notional);
    }
  }

  lemma {:induction false} LineAdds(rules: seq<FeeRule>, line: LineKey, side: Side, quantity: real, notional: real,
        q: real, n: real)
    ensures LineRaw(rules, line, side, quantity + q, notional + n)
      == LineRaw(rules, line, side, quantity, notional) + LineRaw(rules, line, side, q, n)
    ensures LineNotional(rules, line, side, notional + n)
      == LineNotional(rules, line, side, notional) + LineNotional(rules, line, side, n)
    decreases |rules|
  {
    hide AggregateRaw;
    if rules == [] {
    } else {
      AggregateRawAdds(rules[0], quantity, notional, q, n);
      LineAdds(rules[1..], line, side, quantity, notional, q, n);
    }
  }

  lemma {:induction false} LineOfNothing(rules: seq<FeeRule>, line: LineKey, side: Side)
    ensures LineRaw(rules, line, side, 0.0, 0.0) == LineNotional(rules, line, side, 0.0) == 0.0
  {
    if rules == [] {
    } else {
      LineOfNothing(rules[1..], line, side);
    }
  }

  lemma OtherRule(charge: Charge, rule: FeeRule, orderId: nat, side: Side, notional: real, quantity: real,
        line: LineKey)
    requires !Charges(rule, line, side)
    ensures var r := ApplyRule(charge, rule, orderId, side, notional, quantity); var key := (line.0, line.1, orderId);
      r.Ok? ==>
        && AccumulatorAt(r.value.fees, key) == AccumulatorAt(charge.fees, key)
        && LineAmount(r.value.fees, line) == LineAmount(charge.fees, line)
  {
    hide Accrue;
  }

  /** A rule of the line moves its accumulator by one trade, and the line of the breakdown by as much as the charge. */
  lemma LineRule(charge: Charge, rule: FeeRule, orderId: nat, side: Side, notional: real, quantity: real)
    requires SideMatches(rule.side, side)
    ensures var r := ApplyRule(charge, rule, orderId, side, notional, quantity); var key := KeyOf(rule, orderId);
      r.Ok? ==>
        && Accrue(rule, AccumulatorAt(charge.fees, key), notional, quantity) == Ok(AccumulatorAt(r.value.fees, key))
        && (AccumulatorAt(r.value.fees, key).charged >= AccumulatorAt(charge.fees, key).charged ==>
              LineAmount(r.value.fees, LineOf(rule)) - LineAmount(charge.fees, LineOf(rule))
              == AccumulatorAt(r.value.fees, key).charged - AccumulatorAt(charge.fees, key).charged)
  {
    hide Accrue;
  }

  lemma ChargedRises(rule: FeeRule, acc: Accumulator, notional: real, quantity: real)
    ensures var r := Accrue(rule, acc, notional, quantity); r.Ok? ==> r.value.charged >= acc.charged
  {
    hide Target;
  }

  lemma {:induction false} BillablePositive(trades: seq<Trade>)
    requires trades != [] && forall trade <- trades :: Billable(trade)
    ensures Sum(Quantity, trades) > 0.0 && Sum(Notional, trades) > 0.0
  {
    assert Billable(trades[|trades| - 1]);
    if |trades| == 1 {
    } else {
      BillablePositive(trades[..|trades| - 1]);
    }
  }

  // ---- one line --------------------------------------------------------------------------

  /** The accumulator of a line after one more billable trade: the rules of the line one after the other. */
  function AccrueLine(acc: Accumulator, rules: seq<FeeRule>, line: LineKey, side: Side,
        trade: Trade): Result<Accumulator>
    decreases |rules|
  {
    if rules == [] then Ok(acc)
    else if Charges(rules[0], line, side) then
      var next :- Accrue(rules[0], acc, trade.notional, trade.quantity);
      AccrueLine(next, rules[1..], line, side, trade)
    else AccrueLine(acc, rules[1..], line, side, trade)
  }

  /** The accumulator of a line after the fills of one order. */
  function AccrueTrades(rules: seq<FeeRule>, line: LineKey, side: Side, trades: seq<Trade>): Result<Accumulator>
    decreases |trades|
  {
    if trades == [] then Ok(EMPTY_ACCUMULATOR)
    else
      var acc :- AccrueTrades(rules, line, side, trades[..|trades| - 1]);
      AccrueLine(acc, rules, line, side, trades[|trades| - 1])
  }

  function LineKeyOf(line: LineKey, orderId: nat): AccumulatorKey { (line.0, line.1, orderId) }

  /** The accumulator of the line has moved by one trade, and the breakdown has followed its charge. */
  ghost predicate LineMoved(before: FeeState, after: FeeState, rules: seq<FeeRule>, line: LineKey, orderId: nat,
        side: Side, trade: Trade)
  {
    var a, b := AccumulatorAt(before, LineKeyOf(line, orderId)), AccumulatorAt(after, LineKeyOf(line, orderId));
    && AccrueLine(a, rules, line, side, trade) == Ok(b) && b.charged >= a.charged
    && LineAmount(after, line) - LineAmount(before, line) == b.charged - a.charged
  }

  lemma OneRuleMoved(charge: Charge, rule: FeeRule, line: LineKey, orderId: nat, side: Side, trade: Trade)
    ensures var r := ApplyRule(charge, rule, orderId, side, trade.notional, trade.quantity);
      var key := LineKeyOf(line, orderId);
      r.Ok? ==>
        var a, b := AccumulatorAt(charge.fees, key), AccumulatorAt(r.value.fees, key);
        && (if Charges(rule, line, side) then Accrue(rule, a, trade.notional, trade.quantity) == Ok(b) else b == a)
        && b.charged >= a.charged && LineAmount(r.value.fees, line) - LineAmount(charge.fees, line)
          == b.charged - a.charged
  {
    var r, key := ApplyRule(charge, rule, orderId, side, trade.notional, trade.quantity), LineKeyOf(line, orderId);
    hide ApplyRule, Accrue, AccumulatorAt, LineAmount;
    if Charges(rule, line, side) {
      LineRule(charge, rule, orderId, side, trade.notional, trade.quantity);
      ChargedRises(rule, AccumulatorAt(charge.fees, key), trade.notional, trade.quantity);
    } else {
      OtherRule(charge, rule, orderId, side, trade.notional, trade.quantity, line);
    }
  }

  /** The fee engine moves the accumulator of each line as `AccrueLine` says. */
  lemma {:induction false} ApplyRulesLine(charge: Charge, rules: seq<FeeRule>, line: LineKey, orderId: nat, side: Side,
        trade: Trade)
    ensures var r := ApplyRules(charge, rules, orderId, side, trade.notional, trade.quantity);
      r.Ok? ==> LineMoved(charge.fees, r.value.fees, rules, line, orderId, side, trade)
    decreases |rules|
  {
    hide ApplyRule, Accrue, AccumulatorAt, LineAmount, Charges, LineKeyOf;
    if rules == [] {
    } else {
      OneRuleMoved(charge, rules[0], line, orderId, side, trade);
      var next := ApplyRule(charge, rules[0], orderId, side, trade.notional, trade.quantity);
      if next.Ok? {
        ApplyRulesLine(next.value, rules[1..], line, orderId, side, trade);
      }
    }
  }

  lemma ApplyTradeLine(fees: FeeState, rules: seq<FeeRule>, line: LineKey, orderId: nat, side: Side, trade: Trade)
    requires Billable(trade)
    ensures var r := ApplyTrade(fees, rules, orderId, side, trade.notional, trade.quantity);
      r.Ok? ==> LineMoved(fees, r.value.fees, rules, line, orderId, side, trade)
  {
    hide ApplyRules, AccrueLine;
    ApplyRulesLine(Charge(fees, NO_FEES), rules, line, orderId, side, trade);
  }

  lemma {:induction false} ApplyTradesLine(fees: FeeState, rules: seq<FeeRule>, line: LineKey, orderId: nat, side: Side,
        trades: seq<Trade>)
    requires AccumulatorAt(fees, LineKeyOf(line, orderId)) == EMPTY_ACCUMULATOR && forall trade <- trades ::
      Billable(trade)
    ensures var r := ApplyTrades(fees, rules, orderId, side, trades); var key := LineKeyOf(line, orderId);
      r.Ok? ==>
        && AccrueTrades(rules, line, side, trades) == Ok(AccumulatorAt(r.value, key))
        && LineAmount(r.value, line) - LineAmount(fees, line) == AccumulatorAt(r.value, key).charged
    decreases |trades|
  {
    hide ApplyTrade, AccrueLine, AccumulatorAt, LineAmount, LineKeyOf;
    if trades == [] {
    } else {
      var rest, last := trades[..|trades| - 1], trades[|trades| - 1];
      ApplyTradesLine(fees, rules, line, orderId, side, rest);
      var before := ApplyTrades(fees, rules, orderId, side, rest);
      if before.Ok? {
        assert Billable(last);
        ApplyTradeLine(before.value, rules, line, orderId, side, last);
      }
    }
  }

  // ---- linear lines ----------------------------------------------------------------------

  /** All rules of the line are linear. */
  predicate LinearLine(rules: seq<FeeRule>, line: LineKey, side: Side) {
    forall rule <- rules :: Charges(rule, line, side) ==> Linear(rule)
  }

  /** The rules of the line can round. */
  predicate LineRounds(rules: seq<FeeRule>, line: LineKey, side: Side) {
    forall rule <- rules :: Charges(rule, line, side) ==> rule.rounding != OtherRounding
  }

  /** What a rule owes for a raw fee and a notional; nothing if it cannot round. */
  function Owed(rule: FeeRule, raw: real, notional: real): real {
    var target := Target(rule, raw, notional);
    if target.Ok? then target.value else 0.0
  }

  /** The most that any rule of the line owes during one trade. Each rule sees the raw fee and the notional from before
      the trade and what the rules up to itself have added. */
  function MostOwed(rules: seq<FeeRule>, line: LineKey, side: Side, raw: real, notional: real, trade: Trade): real
    decreases |rules|
  {
    if rules == [] then 0.0
    else if Charges(rules[0], line, side) then
      var raw', notional' := raw + AggregateRaw(rules[0], trade.quantity, trade.notional), notional + trade.notional;
      Max(Owed(rules[0], raw', notional'), MostOwed(rules[1..], line, side, raw', notional', trade))
    else MostOwed(rules[1..], line, side, raw, notional, trade)
  }

  /** What a line charges for an aggregate whose last fill was `last`. */
  function LineCharge(rules: seq<FeeRule>, line: LineKey, side: Side, whole: Trade, last: Trade): real {
    var quantity, notional := whole.quantity - last.quantity, whole.notional - last.notional;
    MostOwed(rules, line, side, LineRaw(rules, line, side, quantity, notional),
      LineNotional(rules, line, side, notional), last)
  }

  function Plus(a: Trade, b: Trade): Trade {
    Trade(a.notional + b.notional, a.quantity + b.quantity)
  }

  const NOTHING := Trade(0.0, 0.0)

  /** `last` may have been the last fill of an order filled to `whole`. */
  predicate MayEnd(whole: Trade, last: Trade) {
    Billable(last) && (whole == last || (last.quantity < whole.quantity && last.notional < whole.notional))
  }

  /** The accumulator of a line of an order filled to `whole`, by `last` at last. */
  predicate LineHolds(rules: seq<FeeRule>, line: LineKey, side: Side, acc: Accumulator, whole: Trade, last: Trade) {
    if whole == NOTHING then acc == EMPTY_ACCUMULATOR
    else
      && MayEnd(whole, last) && LineRounds(rules, line, side)
      && acc.raw == LineRaw(rules, line, side, whole.quantity, whole.notional)
      && acc.notional == LineNotional(rules, line, side, whole.notional)
      && acc.charged == LineCharge(rules, line, side, whole, last)
  }

  lemma OwedMonotone(rule: FeeRule, raw: real, notional: real, raw': real, notional': real)
    requires 0.0 < raw <= raw' && 0.0 < notional <= notional'
    ensures 0.0 <= Owed(rule, raw, notional) <= Owed(rule, raw', notional')
  {
    TargetMonotone(rule, raw, notional, raw', notional');
    hide Target;
  }

  lemma {:induction false} LineNotNegative(rules: seq<FeeRule>, line: LineKey, side: Side, trade: Trade)
    requires LinearLine(rules, line, side) && Billable(trade)
    ensures LineRaw(rules, line, side, trade.quantity, trade.notional) >= 0.0
    ensures LineNotional(rules, line, side, trade.notional) >= 0.0
    decreases |rules|
  {
    hide AggregateRaw, Linear, Charges;
    if rules == [] {
    } else {
      LineNotNegative(rules[1..], line, side, trade);
      if Charges(rules[0], line, side) {
        AggregateRawPositive(rules[0], trade.quantity, trade.notional);
      }
    }
  }

  /** A later trade owes at least as much as an earlier one did. */
  lemma {:induction false} MostOwedMonotone(rules: seq<FeeRule>, line: LineKey, side: Side, raw: real, notional: real,
        last: Trade, raw': real, notional': real, trade: Trade)
    requires LinearLine(rules, line, side) && Billable(last) && Billable(trade) && raw >= 0.0 && notional >= 0.0
    requires raw + LineRaw(rules, line, side, last.quantity, last.notional) <= raw'
    requires notional + LineNotional(rules, line, side, last.notional) <= notional'
    ensures 0.0 <= MostOwed(rules, line, side, raw, notional, last) <= MostOwed(rules, line, side, raw', notional',
      trade)
    decreases |rules|
  {
    hide AggregateRaw, Linear, Charges, Owed;
    if rules == [] {
    } else {
      var rest := rules[1..];
      if Charges(rules[0], line, side) {
        var a, b := AggregateRaw(rules[0], last.quantity, last.notional),
          AggregateRaw(rules[0], trade.quantity, trade.notional);
        AggregateRawPositive(rules[0], last.quantity, last.notional);
        AggregateRawPositive(rules[0], trade.quantity, trade.notional);
        LineNotNegative(rest, line, side, last);
        OwedMonotone(rules[0], raw + a, notional + last.notional, raw' + b, notional' + trade.notional);
        MostOwedMonotone(rest, line, side, raw + a, notional + last.notional, last, raw' + b,
          notional' + trade.notional, trade);
      } else {
        MostOwedMonotone(rest, line, side, raw, notional, last, raw', notional', trade);
      }
    }
  }

  lemma MostOwedNotNegative(rules: seq<FeeRule>, line: LineKey, side: Side, raw: real, notional: real, trade: Trade)
    requires LinearLine(rules, line, side) && Billable(trade) && raw >= 0.0 && notional >= 0.0
    ensures MostOwed(rules, line, side, raw, notional, trade) >= 0.0
  {
    hide LinearLine, MostOwed, LineRaw, LineNotional;
    LineNotNegative(rules, line, side, trade);
    MostOwedMonotone(rules, line, side, raw, notional, trade, raw
      + LineRaw(rules, line, side, trade.quantity, trade.notional),
      notional + LineNotional(rules, line, side, trade.notional), trade);
  }

  lemma AccrueLinear(rule: FeeRule, acc: Accumulator, trade: Trade, added: real)
    requires Linear(rule) && Billable(trade) && added == AggregateRaw(rule, trade.quantity, trade.notional)
    ensures added > 0.0
    ensures var r := Accrue(rule, acc, trade.notional, trade.quantity);
      var raw, notional := acc.raw + added, acc.notional + trade.notional;
      && (r.Ok? <==> Target(rule, raw, notional).Ok?)
      && (r.Ok? ==>
          && r.value.raw == raw && r.value.notional == notional
          && r.value.charged == Max(acc.charged, Owed(rule, raw, notional)))
  {
    AggregateRawPositive(rule, trade.quantity, trade.notional);
    RawOf(rule, acc, trade.notional, trade.quantity);
    hide Target, RawFee, AggregateRaw, Linear;
  }

  /** One trade on a linear line. */
  lemma {:induction false} AccrueLineIs(acc: Accumulator, rules: seq<FeeRule>, line: LineKey, side: Side, trade: Trade)
    requires LinearLine(rules, line, side) && Billable(trade) && acc.charged >= 0.0
    ensures var r := AccrueLine(acc, rules, line, side, trade);
      r.Ok? ==>
        && r.value.raw == acc.raw + LineRaw(rules, line, side, trade.quantity, trade.notional)
        && r.value.notional == acc.notional + LineNotional(rules, line, side, trade.notional)
        && r.value.charged == Max(acc.charged, MostOwed(rules, line, side, acc.raw, acc.notional, trade))
    decreases |rules|
  {
    hide AggregateRaw, Linear, Charges, Owed, Accrue;
    if rules == [] {
    } else if Charges(rules[0], line, side) {
      var added := AggregateRaw(rules[0], trade.quantity, trade.notional);
      AccrueLinear(rules[0], acc, trade, added);
      var next := Accrue(rules[0], acc, trade.notional, trade.quantity);
      if next.Ok? {
        AccrueLineIs(next.value, rules[1..], line, side, trade);
      }
    } else {
      AccrueLineIs(acc, rules[1..], line, side, trade);
    }
  }

  lemma TargetRounds(rule: FeeRule, raw: real, notional: real)
    ensures Target(rule, raw, notional).Ok? <==> rule.rounding != OtherRounding
  {
  }

  lemma {:induction false} AccrueLineErr(acc: Accumulator, rules: seq<FeeRule>, line: LineKey, side: Side, trade: Trade)
    requires LinearLine(rules, line, side) && !LineRounds(rules, line, side) && Billable(trade)
    ensures AccrueLine(acc, rules, line, side, trade).Err?
    decreases |rules|
  {
    hide AggregateRaw, Linear, Charges, Owed, Accrue, Target;
    if Charges(rules[0], line, side) {
      var added := AggregateRaw(rules[0], trade.quantity, trade.notional);
      AccrueLinear(rules[0], acc, trade, added);
      TargetRounds(rules[0], acc.raw + added, acc.notional + trade.notional);
      var next := Accrue(rules[0], acc, trade.notional, trade.quantity);
      if next.Ok? {
        AccrueLineErr(next.value, rules[1..], line, side, trade);
      }
    } else {
      AccrueLineErr(acc, rules[1..], line, side, trade);
    }
  }

  lemma LineBefore(rules: seq<FeeRule>, line: LineKey, side: Side, before: Trade, trade: Trade)
    ensures LineCharge(rules, line, side, Plus(before, trade), trade)
      == MostOwed(rules, line, side, LineRaw(rules, line, side, before.quantity, before.notional),
                  LineNotional(rules, line, side, before.notional), trade)
  {
    var whole := Plus(before, trade);
    assert whole.quantity - trade.quantity == before.quantity && whole.notional - trade.notional == before.notional;
    hide MostOwed, LineRaw, LineNotional;
  }

  /** The aggregate before the last fill. */
  function Minus(whole: Trade, last: Trade): Trade {
    Trade(whole.notional - last.notional, whole.quantity - last.quantity)
  }

  lemma MinusPlus(whole: Trade, last: Trade)
    requires MayEnd(whole, last)
    ensures Plus(Minus(whole, last), last) == whole && Billable(last)
    ensures Minus(whole, last) == NOTHING || Billable(Minus(whole, last))
  {
  }

  lemma LineSplits(rules: seq<FeeRule>, line: LineKey, side: Side, before: Trade, last: Trade)
    ensures var whole := Plus(before, last);
      && LineRaw(rules, line, side, whole.quantity, whole.notional)
         == LineRaw(rules, line, side, before.quantity, before.notional)
            + LineRaw(rules, line, side, last.quantity, last.notional)
      && LineNotional(rules, line, side, whole.notional)
         == LineNotional(rules, line, side, before.notional) + LineNotional(rules, line, side, last.notional)
  {
    LineAdds(rules, line, side, before.quantity, before.notional, last.quantity, last.notional);
  }

  lemma BeforeNotNegative(rules: seq<FeeRule>, line: LineKey, side: Side, before: Trade)
    requires LinearLine(rules, line, side) && (before == NOTHING || Billable(before))
    ensures LineRaw(rules, line, side, before.quantity, before.notional) >= 0.0
    ensures LineNotional(rules, line, side, before.notional) >= 0.0
  {
    if before == NOTHING {
      LineOfNothing(rules, line, side);
    } else {
      LineNotNegative(rules, line, side, before);
    }
  }

  /** The raw fee and the notional of a line before the last fill of an order. */
  lemma BeforeLast(rules: seq<FeeRule>, line: LineKey, side: Side, whole: Trade, last: Trade)
    requires LinearLine(rules, line, side) && MayEnd(whole, last)
    ensures Billable(last)
    ensures var before := Minus(whole, last);
      var raw, notional := LineRaw(rules, line, side, before.quantity, before.notional),
        LineNotional(rules, line, side, before.notional);
      && raw >= 0.0 && notional >= 0.0
      && LineRaw(rules, line, side, whole.quantity, whole.notional)
         == raw + LineRaw(rules, line, side, last.quantity, last.notional)
      && LineNotional(rules, line, side, whole.notional)
         == notional + LineNotional(rules, line, side, last.notional)
      && LineCharge(rules, line, side, whole, last) == MostOwed(rules, line, side, raw, notional, last)
  {
    hide *;
    var before := Minus(whole, last);
    MinusPlus(whole, last);
    LineSplits(rules, line, side, before, last);
    BeforeNotNegative(rules, line, side, before);
    LineBefore(rules, line, side, before, last);
  }

  lemma ChargeGrows(rules: seq<FeeRule>, line: LineKey, side: Side, whole: Trade, last: Trade, trade: Trade)
    requires LinearLine(rules, line, side) && MayEnd(whole, last) && Billable(trade)
    ensures 0.0 <= LineCharge(rules, line, side, whole, last) <= LineCharge(rules, line, side, Plus(whole, trade),
      trade)
  {
    hide *;
    var before := Minus(whole, last);
    LineBefore(rules, line, side, whole, trade);
    BeforeLast(rules, line, side, whole, last);
    MostOwedMonotone(rules, line, side, LineRaw(rules, line, side, before.quantity, before.notional),
      LineNotional(rules, line, side, before.notional), last,
      LineRaw(rules, line, side, whole.quantity, whole.notional), LineNotional(rules, line, side, whole.notional),
        trade);
  }

  /** One more fill takes the accumulator of a linear line from one aggregate to the next. */
  lemma LineStep(acc: Accumulator, next: Accumulator, rules: seq<FeeRule>, line: LineKey, side: Side, whole: Trade,
        last: Trade, trade: Trade)
    requires LinearLine(rules, line, side) && LineHolds(rules, line, side, acc, whole, last) && Billable(trade)
    requires AccrueLine(acc, rules, line, side, trade) == Ok(next)
    ensures LineHolds(rules, line, side, next, Plus(whole, trade), trade)
  {
    hide LineRaw, LineNotional, MostOwed, AccrueLine, LinearLine, LineCharge, LineRounds;
    if !LineRounds(rules, line, side) {
      AccrueLineErr(acc, rules, line, side, trade);
    }
    LineAdds(rules, line, side, whole.quantity, whole.notional, trade.quantity, trade.notional);
    LineBefore(rules, line, side, whole, trade);
    if whole == NOTHING {
      LineOfNothing(rules, line, side);
      MostOwedNotNegative(rules, line, side, 0.0, 0.0, trade);
    } else {
      ChargeGrows(rules, line, side, whole, last, trade);
    }
    AccrueLineIs(acc, rules, line, side, trade);
  }

  function Total(trades: seq<Trade>): Trade {
    Trade(Sum(Notional, trades), Sum(Quantity, trades))
  }

  function Last(trades: seq<Trade>): Trade {
    if trades == [] then NOTHING else trades[|trades| - 1]
  }

  lemma {:induction false} LineOfTrades(rules: seq<FeeRule>, line: LineKey, side: Side, trades: seq<Trade>)
    requires LinearLine(rules, line, side) && forall trade <- trades :: Billable(trade)
    ensures var r := AccrueTrades(rules, line, side, trades);
      r.Ok? ==> LineHolds(rules, line, side, r.value, Total(trades), Last(trades))
    decreases |trades|
  {
    hide LinearLine, LineHolds, AccrueLine;
    if trades == [] {
      NothingHeld(rules, line, side);
    } else {
      var rest, last := trades[..|trades| - 1], trades[|trades| - 1];
      assert Billable(last);
      LineOfTrades(rules, line, side, rest);
      var before := AccrueTrades(rules, line, side, rest);
      var r := AccrueTrades(rules, line, side, trades);
      if r.Ok? {
        LineStep(before.value, r.value, rules, line, side, Total(rest), Last(rest), last);
      }
    }
  }

  lemma NothingHeld(rules: seq<FeeRule>, line: LineKey, side: Side)
    ensures LineHolds(rules, line, side, EMPTY_ACCUMULATOR, NOTHING, NOTHING)
  {
  }

  /** However an order is split into fills, a linear line grows by what its rules owe at most while the last of them is
      charged: by an amount that depends on the aggregate and on the last fill alone. */
  lemma LineCharged(fees: FeeState, rules: seq<FeeRule>, line: LineKey, orderId: nat, side: Side, trades: seq<Trade>)
    requires LinearLine(rules, line, side) && AccumulatorAt(fees, LineKeyOf(line, orderId)) == EMPTY_ACCUMULATOR
    requires trades != [] && forall trade <- trades :: Billable(trade)
    ensures var r := ApplyTrades(fees, rules, orderId, side, trades);
      r.Ok? ==>
        && LineRounds(rules, line, side)
        && LineAmount(r.value, line) - LineAmount(fees, line)
          == LineCharge(rules, line, side, Total(trades), Last(trades))
  {
    hide ApplyTrades, AccrueTrades, LinearLine, LineRounds, LineCharge, LineAmount, AccumulatorAt, LineKeyOf, Sum;
    ApplyTradesLine(fees, rules, line, orderId, side, trades);
    LineOfTrades(rules, line, side, trades);
    BillablePositive(trades);
  }

  // ---- when only the aggregate matters ---------------------------------------------------

  /** Under any raw fee and notional `last` owes at least what `other` owes. */
  ghost predicate Dominates(last: FeeRule, other: FeeRule) {
    forall raw: real, notional: real | raw > 0.0 && notional > 0.0 ::
      Owed(other, raw, notional) <= Owed(last, raw, notional)
  }

  predicate SameLimits(a: FeeRule, b: FeeRule) {
    a.minAmount == b.minAmount && a.maxAmount == b.maxAmount && a.maxRate == b.maxRate && a.rounding == b.rounding
  }

  lemma SameLimitsDominates(a: FeeRule, b: FeeRule)
    requires SameLimits(a, b)
    ensures Dominates(a, b)
  {
    hide Owed;
    forall raw: real, notional: real | raw > 0.0 && notional > 0.0
      ensures Owed(b, raw, notional) <= Owed(a, raw, notional)
    {
      SameLimitsOwed(a, b, raw, notional);
    }
  }

  lemma SameLimitsOwed(a: FeeRule, b: FeeRule, raw: real, notional: real)
    requires SameLimits(a, b)
    ensures Owed(b, raw, notional) == Owed(a, raw, notional)
  {
    hide RoundFee, CapAmount;
    assert CapAmount(a, notional) == CapAmount(b, notional) by { SameCap(a, b, notional); }
  }

  lemma SameCap(a: FeeRule, b: FeeRule, notional: real)
    requires a.maxAmount == b.maxAmount && a.maxRate == b.maxRate
    ensures CapAmount(a, notional) == CapAmount(b, notional)
  {
  }

  /** The last rule that charges on the line. */
  function LastRule(rules: seq<FeeRule>, line: LineKey, side: Side): (r: Option<FeeRule>)
    ensures r.Some? ==> r.value in rules && Charges(r.value, line, side)
    decreases |rules|
  {
    if rules == [] then None
    else
      var later := LastRule(rules[1..], line, side);
      if later.Some? then later else if Charges(rules[0], line, side) then Some(rules[0]) else None
  }

  /** The rule is the last of a linear line and owes at least what each earlier rule owes. */
  ghost predicate Regular(rules: seq<FeeRule>, rule: FeeRule, side: Side) {
    && LinearLine(rules, LineOf(rule), side) && LastRule(rules, LineOf(rule), side) == Some(rule)
    && forall other <- rules :: Charges(other, LineOf(rule), side) ==> Dominates(rule, other)
  }

  /** What the last rule of a line owes for the whole aggregate of the line. */
  function LineFee(rules: seq<FeeRule>, rule: FeeRule, side: Side, whole: Trade): Result<real> {
    Target(rule, LineRaw(rules, LineOf(rule), side, whole.quantity, whole.notional),
      LineNotional(rules, LineOf(rule), side, whole.notional))
  }

  lemma {:induction false} NoMoreRules(rules: seq<FeeRule>, line: LineKey, side: Side, raw: real, notional: real,
        trade: Trade)
    requires LastRule(rules, line, side).None?
    ensures MostOwed(rules, line, side, raw, notional, trade) == 0.0
    ensures LineRaw(rules, line, side, trade.quantity, trade.notional)
      == LineNotional(rules, line, side, trade.notional) == 0.0
    decreases |rules|
  {
    if rules == [] {
    } else {
      NoMoreRules(rules[1..], line, side, raw, notional, trade);
    }
  }

  lemma {:induction false} LastOwesMost(rules: seq<FeeRule>, line: LineKey, side: Side, rule: FeeRule, raw: real,
        notional: real, trade: Trade)
    requires LinearLine(rules, line, side) && LastRule(rules, line, side) == Some(rule) && Billable(trade)
    requires forall other <- rules :: Charges(other, line, side) ==> Dominates(rule, other)
    requires raw >= 0.0 && notional >= 0.0
    ensures MostOwed(rules, line, side, raw, notional, trade)
      == Owed(rule, raw + LineRaw(rules, line, side, trade.quantity, trade.notional),
              notional + LineNotional(rules, line, side, trade.notional))
    decreases |rules|
  {
    hide AggregateRaw, Linear, Charges, Owed, Dominates;
    var rest, first := rules[1..], rules[0];
    if Charges(first, line, side) {
      var added := AggregateRaw(first, trade.quantity, trade.notional);
      var raw', notional' := raw + added, notional + trade.notional;
      AggregateRawPositive(first, trade.quantity, trade.notional);
      LineNotNegative(rest, line, side, trade);
      if LastRule(rest, line, side).Some? {
        LastOwesMost(rest, line, side, rule, raw', notional', trade);
        DominatesAt(rule, first, raw', notional');
        OwedMonotone(rule, raw', notional', raw' + LineRaw(rest, line, side, trade.quantity, trade.notional),
          notional' + LineNotional(rest, line, side, trade.notional));
      } else {
        NoMoreRules(rest, line, side, raw', notional', trade);
        OwedMonotone(rule, raw', notional', raw', notional');
      }
    } else {
      LastOwesMost(rest, line, side, rule, raw, notional, trade);
    }
  }

  lemma DominatesAt(last: FeeRule, other: FeeRule, raw: real, notional: real)
    requires Dominates(last, other) && raw > 0.0 && notional > 0.0
    ensures Owed(other, raw, notional) <= Owed(last, raw, notional)
  {
    hide Owed;
  }

  /** On a line whose last rule owes at least what each earlier one owes, the last fill does not matter. */
  lemma RegularCharge(rules: seq<FeeRule>, rule: FeeRule, side: Side, whole: Trade, last: Trade)
    requires Regular(rules, rule, side) && MayEnd(whole, last)
    ensures LineCharge(rules, LineOf(rule), side, whole, last)
      == Owed(rule, LineRaw(rules, LineOf(rule), side, whole.quantity, whole.notional),
              LineNotional(rules, LineOf(rule), side, whole.notional))
  {
    hide *;
    var line, before := LineOf(rule), Minus(whole, last);
    RegularLine(rules, rule, side);
    BeforeLast(rules, line, side, whole, last);
    LastOwesMost(rules, line, side, rule, LineRaw(rules, line, side, before.quantity, before.notional),
      LineNotional(rules, line, side, before.notional), last);
  }

  lemma RegularLine(rules: seq<FeeRule>, rule: FeeRule, side: Side)
    requires Regular(rules, rule, side)
    ensures LinearLine(rules, LineOf(rule), side) && LastRule(rules, LineOf(rule), side) == Some(rule)
    ensures forall other <- rules :: Charges(other, LineOf(rule), side) ==> Dominates(rule, other)
  {
    hide LinearLine, LastRule, Charges, Dominates;
  }

  lemma RegularFee(rules: seq<FeeRule>, rule: FeeRule, side: Side, whole: Trade, last: Trade)
    requires Regular(rules, rule, side) && MayEnd(whole, last) && LineRounds(rules, LineOf(rule), side)
    ensures LineFee(rules, rule, side, whole) == Ok(LineCharge(rules, LineOf(rule), side, whole, last))
  {
    RegularCharge(rules, rule, side, whole, last);
    TargetRounds(rule, LineRaw(rules, LineOf(rule), side, whole.quantity, whole.notional),
      LineNotional(rules, LineOf(rule), side, whole.notional));
    hide LineCharge, LinearLine, Charges, LineRaw, LineNotional, Target, Dominates;
    assert rule in rules && Charges(rule, LineOf(rule), side);
  }

  lemma RegularMeans(rules: seq<FeeRule>, rule: FeeRule, orderId: nat, side: Side)
    requires Regular(rules, rule, side)
    ensures LinearLine(rules, LineOf(rule), side) && LineKeyOf(LineOf(rule), orderId) == KeyOf(rule, orderId)
  {
  }

  /** However an order is split into fills, such a line grows by exactly the fee of the aggregate. */
  lemma PartialFillInvariance(fees: FeeState, rules: seq<FeeRule>, rule: FeeRule, orderId: nat, side: Side,
        trades: seq<Trade>)
    requires Regular(rules, rule, side) && AccumulatorAt(fees, KeyOf(rule, orderId)) == EMPTY_ACCUMULATOR
    requires trades != [] && forall trade <- trades :: Billable(trade)
    ensures var r := ApplyTrades(fees, rules, orderId, side, trades);
      r.Ok? ==>
        LineFee(rules, rule, side, Total(trades)) == Ok(LineAmount(r.value, LineOf(rule)) - LineAmount(fees,
          LineOf(rule)))
  {
    hide *;
    TotalEnds(trades);
    RegularMeans(rules, rule, orderId, side);
    if ApplyTrades(fees, rules, orderId, side, trades).Ok? {
      LineCharged(fees, rules, LineOf(rule), orderId, side, trades);
      RegularFee(rules, rule, side, Total(trades), Last(trades));
    }
  }

  lemma TotalEnds(trades: seq<Trade>)
    requires trades != [] && forall trade <- trades :: Billable(trade)
    ensures MayEnd(Total(trades), Last(trades))
  {
    var rest, last := trades[..|trades| - 1], trades[|trades| - 1];
    assert Billable(last) && Total(trades) == Plus(Total(rest), last);
    if rest != [] {
      BillablePositive(rest);
    } else {
      assert Total(rest) == NOTHING;
    }
  }

  /** A linear rule that shares its line with no other is the whole of a regular line, and owes its own fee of the
      aggregate. */
  lemma LoneRule(rules: seq<FeeRule>, i: nat, side: Side, whole: Trade)
    requires i < |rules| && Unshared(rules, i) && Linear(rules[i]) && SideMatches(rules[i].side, side)
    ensures Regular(rules, rules[i], side)
    ensures LineFee(rules, rules[i], side, whole) == AggregateFee(rules[i], whole.quantity, whole.notional)
  {
    LoneLine(rules, i, side, whole.quantity, whole.notional);
    LoneLast(rules, i, side);
    hide Linear, AggregateRaw, Target, LineRaw, LineNotional, LastRule, Dominates;
    forall rule <- rules | Charges(rule, LineOf(rules[i]), side) ensures Linear(rule) && Dominates(rules[i], rule) {
      var j :| 0 <= j < |rules| && rules[j] == rule;
      SameLimitsDominates(rule, rule);
    }
  }

  lemma {:induction false} NoRule(rules: seq<FeeRule>, line: LineKey, side: Side)
    requires forall rule <- rules :: LineOf(rule) != line
    ensures LastRule(rules, line, side).None?
  {
    if rules == [] {
    } else {
      NoRule(rules[1..], line, side);
    }
  }

  lemma {:induction false} LoneLast(rules: seq<FeeRule>, i: nat, side: Side)
    requires i < |rules| && Unshared(rules, i) && SideMatches(rules[i].side, side)
    ensures LastRule(rules, LineOf(rules[i]), side) == Some(rules[i])
    decreases |rules|
  {
    if i == 0 {
      NoRule(rules[1..], LineOf(rules[0]), side);
    } else {
      LoneLast(rules[1..], i - 1, side);
    }
  }

  // ---- exactly when it matters -----------------------------------------------------------

  ghost predicate SameAggregate(ts: seq<Trade>, us: seq<Trade>) {
    && ts != [] && us != []
    && (forall trade <- ts :: Billable(trade)) && (forall trade <- us :: Billable(trade))
    && Sum(Quantity, ts) == Sum(Quantity, us) && Sum(Notional, ts) == Sum(Notional, us)
  }

  ghost predicate SameLineFee(rules: seq<FeeRule>, line: LineKey, side: Side, ts: seq<Trade>, us: seq<Trade>) {
    var a, b := AccrueTrades(rules, line, side, ts), AccrueTrades(rules, line, side, us);
    a.Ok? == b.Ok? && (a.Ok? ==> a.value.charged == b.value.charged)
  }

  /** Any two splits of the same aggregate are charged the same on the line. */
  ghost predicate LineInvariant(rules: seq<FeeRule>, line: LineKey, side: Side) {
    forall ts, us :: SameAggregate(ts, us) ==> SameLineFee(rules, line, side, ts, us)
  }

  lemma {:induction false} AccrueLineOk(acc: Accumulator, rules: seq<FeeRule>, line: LineKey, side: Side, trade: Trade)
    requires LinearLine(rules, line, side) && LineRounds(rules, line, side) && Billable(trade)
    ensures AccrueLine(acc, rules, line, side, trade).Ok?
    decreases |rules|
  {
    hide AggregateRaw, Linear, Charges, Owed, Accrue, Target;
    if rules == [] {
    } else if Charges(rules[0], line, side) {
      var added := AggregateRaw(rules[0], trade.quantity, trade.notional);
      AccrueLinear(rules[0], acc, trade, added);
      TargetRounds(rules[0], acc.raw + added, acc.notional + trade.notional);
      AccrueLineOk(Accrue(rules[0], acc, trade.notional, trade.quantity).value, rules[1..], line, side, trade);
    } else {
      AccrueLineOk(acc, rules[1..], line, side, trade);
    }
  }

  /** A line with a rule that cannot round refuses every order. */
  lemma {:induction false} NothingAccrues(rules: seq<FeeRule>, line: LineKey, side: Side, trades: seq<Trade>)
    requires LinearLine(rules, line, side) && !LineRounds(rules, line, side)
    requires trades != [] && forall trade <- trades :: Billable(trade)
    ensures AccrueTrades(rules, line, side, trades).Err?
    decreases |trades|
  {
    hide LinearLine, LineRounds, AccrueLine;
    var before := AccrueTrades(rules, line, side, trades[..|trades| - 1]);
    assert Billable(trades[|trades| - 1]);
    if before.Ok? {
      AccrueLineErr(before.value, rules, line, side, trades[|trades| - 1]);
    }
  }

  lemma {:induction false} AccrueTradesCharge(rules: seq<FeeRule>, line: LineKey, side: Side, trades: seq<Trade>)
    requires LinearLine(rules, line, side) && LineRounds(rules, line, side) && forall trade <- trades :: Billable(trade)
    ensures var r := AccrueTrades(rules, line, side, trades);
      r.Ok? && (trades != [] ==> r.value.charged == LineCharge(rules, line, side, Total(trades), Last(trades)))
    decreases |trades|
  {
    hide LinearLine, LineRounds, AccrueLine, LineCharge, LineRaw, LineNotional;
    if trades == [] {
    } else {
      var rest, last := trades[..|trades| - 1], trades[|trades| - 1];
      assert Billable(last);
      AccrueTradesCharge(rules, line, side, rest);
      AccrueLineOk(AccrueTrades(rules, line, side, rest).value, rules, line, side, last);
      LineOfTrades(rules, line, side, trades);
      BillablePositive(trades);
    }
  }

  /** The last fill of the aggregate does not matter. */
  ghost predicate LastFillImmaterial(rules: seq<FeeRule>, line: LineKey, side: Side) {
    forall whole, last | MayEnd(whole, last) ::
      LineCharge(rules, line, side, whole, last) == LineCharge(rules, line, side, whole, whole)
  }

  lemma SplitCharges(rules: seq<FeeRule>, line: LineKey, side: Side, whole: Trade, last: Trade)
    requires LinearLine(rules, line, side) && LineRounds(rules, line, side) && LineInvariant(rules, line, side)
    requires MayEnd(whole, last)
    ensures LineCharge(rules, line, side, whole, last) == LineCharge(rules, line, side, whole, whole)
  {
    if whole != last {
      var first := Minus(whole, last);
      SumShort(Quantity, whole, whole);
      SumShort(Notional, whole, whole);
      SumShort(Quantity, first, last);
      SumShort(Notional, first, last);
      hide LinearLine, LineRounds, LineCharge, AccrueTrades;
      assert SameAggregate([whole], [first, last]);
      assert SameLineFee(rules, line, side, [whole], [first, last]);
      AccrueTradesCharge(rules, line, side, [whole]);
      AccrueTradesCharge(rules, line, side, [first, last]);
      assert Total([whole]) == whole == Total([first, last]) && Last([whole]) == whole && Last([first, last]) == last;
    }
  }

  lemma SameTotalSameFee(rules: seq<FeeRule>, line: LineKey, side: Side, ts: seq<Trade>, us: seq<Trade>)
    requires LinearLine(rules, line, side)
    requires !LineRounds(rules, line, side) || LastFillImmaterial(rules, line, side)
    requires SameAggregate(ts, us)
    ensures SameLineFee(rules, line, side, ts, us)
  {
    hide LinearLine, LineRounds, LineCharge, AccrueTrades, MayEnd;
    if !LineRounds(rules, line, side) {
      NothingAccrues(rules, line, side, ts);
      NothingAccrues(rules, line, side, us);
      return;
    }
    AccrueTradesCharge(rules, line, side, ts);
    AccrueTradesCharge(rules, line, side, us);
    TotalEnds(ts);
    TotalEnds(us);
    assert Total(ts) == Total(us);
  }

  /** The split of an order does not matter to a linear line exactly when its last fill does not, or when the line
      refuses every order. */
  lemma LineInvariance(rules: seq<FeeRule>, line: LineKey, side: Side)
    requires LinearLine(rules, line, side)
    ensures LineInvariant(rules, line, side) <==>
      !LineRounds(rules, line, side) || LastFillImmaterial(rules, line, side)
  {
    hide LinearLine, LineRounds, LineCharge, MayEnd, SameAggregate;
    if LineRounds(rules, line, side) && LineInvariant(rules, line, side) {
      forall whole, last | MayEnd(whole, last)
        ensures LineCharge(rules, line, side, whole, last) == LineCharge(rules, line, side, whole, whole)
      {
        SplitCharges(rules, line, side, whole, last);
      }
    }
    if !LineRounds(rules, line, side) || LastFillImmaterial(rules, line, side) {
      forall ts, us | SameAggregate(ts, us) ensures SameLineFee(rules, line, side, ts, us) {
        SameTotalSameFee(rules, line, side, ts, us);
      }
    }
  }

  /** The split of an order does not matter to a line whose last rule owes at least what each earlier one owes. */
  lemma RegularInvariant(rules: seq<FeeRule>, rule: FeeRule, side: Side)
    requires Regular(rules, rule, side)
    ensures LineInvariant(rules, LineOf(rule), side)
  {
    assert LinearLine(rules, LineOf(rule), side);
    LineInvariance(rules, LineOf(rule), side);
    hide LineCharge, LineInvariant, Regular, Owed, LineRaw, LineNotional;
    forall whole, last | MayEnd(whole, last)
      ensures LineCharge(rules, LineOf(rule), side, whole, last) == LineCharge(rules, LineOf(rule), side, whole, whole)
    {
      RegularCharge(rules, rule, side, whole, last);
      RegularCharge(rules, rule, side, whole, whole);
    }
  }
}
