/** Cash, position and average cost of one account. */
module Ledger {
  import opened Kernel

  datatype Ledger = Ledger(
    cash: real, base: real, accounting: real, averageEntry: real, costKnown: bool, realized: real)

  function Open(balance: real): Ledger {
    Ledger(balance, 0.0, 0.0, 0.0, false, 0.0)
  }

  datatype PositionFill = PositionFill(ledger: Ledger, closed: real, realized: real)

  /** The average price of a position added to. */
  function Blend(average: real, position: real, price: real, quantity: real, total: real): real
    requires total != 0.0
  {
    (average * position + price * quantity) / total
  }

  /** The profit of buying at `bought` and selling at `sold`. */
  function Profit(bought: real, sold: real, quantity: real): real {
    (sold - bought) * quantity
  }

  /** The accounting position after a fill, the quantity it closed and the profit that realized. */
  function ApplyPositionFill(l: Ledger, side: Side, quantity: real, price: real): PositionFill {
    var delta := if side == Sell then -quantity else quantity;
    var current := l.accounting;
    var next := current + delta;
    if current == 0.0 || (current > 0.0 && delta > 0.0) || (current < 0.0 && delta < 0.0) then
      if current == 0.0 then
        PositionFill(l.(accounting := next, averageEntry := price, costKnown := price > 0.0), 0.0, 0.0)
      else if l.costKnown && price > 0.0 then
        PositionFill(l.(accounting := next, averageEntry := Blend(l.averageEntry, Abs(current), price, quantity,
          Abs(next))), 0.0, 0.0)
      else
        PositionFill(l.(accounting := next, averageEntry := 0.0, costKnown := false), 0.0, 0.0)
    else
      var closed := Min(quantity, Abs(current));
      var realized :=
        if !l.costKnown || price <= 0.0 then 0.0
        else if current > 0.0 then Profit(l.averageEntry, price, closed)
        else Profit(price, l.averageEntry, closed);
      var moved := l.(accounting := next);
      var ledger :=
        if next == 0.0 then moved.(averageEntry := 0.0, costKnown := false)
        else if (next > 0.0 && current < 0.0) || (next < 0.0 && current > 0.0) then
          moved.(averageEntry := price, costKnown := price > 0.0)
        else moved;
      PositionFill(ledger, closed, realized)
  }

  function MoveCash(l: Ledger, side: Side, quantity: real, quote: real): Ledger {
    if side == Buy then l.(cash := l.cash - quote, base := l.base + quantity)
    else l.(cash := l.cash + quote, base := l.base - quantity)
  }

  /** A whole fill: cash and base position, then the accounting position, then the profit. Fees come after. */
  function ApplyFill(l: Ledger, side: Side, quantity: real, price: real): PositionFill {
    var fill := ApplyPositionFill(MoveCash(l, side, quantity, Worth(price, quantity)), side, quantity, price);
    fill.(ledger := fill.ledger.(realized := fill.ledger.realized + fill.realized))
  }

  function PayFees(l: Ledger, fees: real): Ledger {
    l.(cash := l.cash - fees)
  }

  /** Cash plus the position at cost is what came in plus what was realized minus what was paid in fees. */
  ghost predicate Balanced(l: Ledger, initial: real, fees: real) {
    && l.base == l.accounting
    && CostTracked(l)
    && l.cash + CostBasis(l) == initial + l.realized - fees
  }

  /** What balance means in the ledger's own fields. */
  lemma BalancedMeans(l: Ledger, initial: real, fees: real)
    requires Balanced(l, initial, fees)
    ensures l.base == l.accounting && (l.base != 0.0 <==> l.averageEntry > 0.0)
    ensures l.cash + l.base * l.averageEntry == initial + l.realized - fees
  {
  }

  lemma OpenBalanced(initial: real)
    ensures Balanced(Open(initial), initial, 0.0)
  {
  }

  /** The average is known exactly while a position is open. */
  ghost predicate CostTracked(l: Ledger) {
    && (l.costKnown <==> l.accounting != 0.0)
    && (l.costKnown ==> l.averageEntry > 0.0)
    && (!l.costKnown ==> l.averageEntry == 0.0)
  }

  ghost function CostBasis(l: Ledger): real {
    l.accounting * l.averageEntry
  }

  lemma BlendCost(average: real, position: real, price: real, quantity: real, total: real)
    requires position > 0.0 && average > 0.0 && quantity > 0.0 && price > 0.0 && total == position + quantity
    ensures var next := Blend(average, position, price, quantity, total);
      next > 0.0 && total * next == position * average + Worth(price, quantity)
  {
    assert average * position > 0.0 && price * quantity > 0.0;
  }

  lemma SignedProduct(side: Side, a: real, b: real)
    ensures side.Signed(a) * b == side.Signed(a * b)
  {
  }

  lemma AddedCost(l: Ledger, side: Side, quantity: real, price: real)
    requires CostTracked(l) && quantity > 0.0 && price > 0.0
    requires (l.accounting > 0.0 && side == Buy) || (l.accounting < 0.0 && side == Sell)
    ensures var fill := ApplyPositionFill(l, side, quantity, price);
      && CostTracked(fill.ledger) && fill.closed == fill.realized == 0.0
      && CostBasis(fill.ledger) == CostBasis(l) + side.Signed(Worth(price, quantity))
  {
    var position := Abs(l.accounting);
    var total := position + quantity;
    var average := Blend(l.averageEntry, position, price, quantity, total);
    BlendCost(l.averageEntry, position, price, quantity, total);
    assert ApplyPositionFill(l, side, quantity, price)
        == PositionFill(l.(accounting := side.Signed(total), averageEntry := average), 0.0, 0.0);
    SignedProduct(side, total, average);
    SignedProduct(side, position, l.averageEntry);
  }

  lemma Difference(a: real, b: real, c: real)
    ensures (a - b) * c == a * c - b * c && (a + b) * c == a * c + b * c && (-a) * c == -(a * c)
    ensures a * c == c * a
  {
  }

  lemma ReducedCost(l: Ledger, side: Side, quantity: real, price: real)
    requires CostTracked(l) && quantity > 0.0 && price > 0.0
    requires (l.accounting > 0.0 && side == Sell) || (l.accounting < 0.0 && side == Buy)
    ensures var fill := ApplyPositionFill(l, side, quantity, price);
      && CostTracked(fill.ledger)
      && fill.closed == Min(quantity, Abs(l.accounting))
      && CostBasis(fill.ledger) == CostBasis(l) + side.Signed(Worth(price, quantity)) + fill.realized
  {
    var fill := ApplyPositionFill(l, side, quantity, price);
    var next := fill.ledger.accounting;
    Difference(price, l.averageEntry, fill.closed);
    Difference(l.averageEntry, price, fill.closed);
    Difference(l.accounting, quantity, price);
    Difference(l.accounting, quantity, l.averageEntry);
    Difference(l.accounting, 0.0, price);
    Difference(l.accounting, 0.0, l.averageEntry);
    Difference(quantity, 0.0, price);
    Difference(quantity, 0.0, l.averageEntry);
    assert fill.closed == quantity || fill.closed == l.accounting || fill.closed == -l.accounting;
    if next == 0.0 {
      assert quantity == Abs(l.accounting);
    }
  }

  lemma OpenedCost(l: Ledger, side: Side, quantity: real, price: real)
    requires CostTracked(l) && quantity > 0.0 && price > 0.0 && l.accounting == 0.0
    ensures var fill := ApplyPositionFill(l, side, quantity, price);
      && CostTracked(fill.ledger) && fill.closed == fill.realized == 0.0
      && CostBasis(fill.ledger) == CostBasis(l) + side.Signed(Worth(price, quantity))
  {
    Difference(quantity, 0.0, price);
  }

  /** Whatever a fill does to the position, its cost basis moves by the traded value plus the profit. */
  lemma PositionFillCost(l: Ledger, side: Side, quantity: real, price: real)
    requires CostTracked(l) && quantity > 0.0 && price > 0.0
    ensures var fill := ApplyPositionFill(l, side, quantity, price);
      && CostTracked(fill.ledger)
      && 0.0 <= fill.closed <= quantity && (fill.closed == 0.0 ==> fill.realized == 0.0)
      && fill.ledger.accounting == l.accounting + side.Signed(quantity)
      && CostBasis(fill.ledger) == CostBasis(l) + side.Signed(Worth(price, quantity)) + fill.realized
  {
    if l.accounting == 0.0 {
      OpenedCost(l, side, quantity, price);
    } else if (l.accounting > 0.0) == (side == Buy) {
      AddedCost(l, side, quantity, price);
    } else {
      ReducedCost(l, side, quantity, price);
    }
  }

  lemma SameSign(x: real, a: real, y: real, b: real)
    requires a > 0.0 && b > 0.0 && x * a == y * b
    ensures (y >= 0.0 ==> x >= 0.0) && (y <= 0.0 ==> x <= 0.0)
  {
    assert y >= 0.0 ==> y * b >= 0.0;
    assert y <= 0.0 ==> y * b <= 0.0;
    assert x < 0.0 ==> x * a < 0.0;
    assert x > 0.0 ==> x * a > 0.0;
  }

  lemma BlendBetween(average: real, position: real, price: real, quantity: real, total: real)
    requires position > 0.0 && quantity > 0.0 && total == position + quantity
    ensures var next := Blend(average, position, price, quantity, total);
      (average <= price ==> average <= next <= price) && (price <= average ==> price <= next <= average)
  {
    var next := Blend(average, position, price, quantity, total);
    assert next * total == average * position + price * quantity;
    assert (next - average) * total == (price - average) * quantity;
    assert (price - next) * total == (price - average) * position;
    SameSign(next - average, total, price - average, quantity);
    SameSign(price - next, total, price - average, position);
  }

  /** What a fill does to the average cost: opening and reversing start at the price, adding moves it towards the
      price, reducing leaves it alone; and what is closed realizes the difference to the old average, on the closed
      quantity. */
  lemma AverageMoves(l: Ledger, side: Side, quantity: real, price: real)
    requires CostTracked(l) && quantity > 0.0 && price > 0.0
    ensures var fill := ApplyPositionFill(l, side, quantity, price);
      var average, held := fill.ledger.averageEntry, Abs(l.accounting);
      var against := l.accounting != 0.0 && (l.accounting > 0.0) == (side == Sell);
      && (l.accounting == 0.0 || (against && quantity > held) ==> average == price)
      && (against && quantity == held ==> average == 0.0)
      && (against && quantity < held ==> average == l.averageEntry)
      && (l.accounting != 0.0 && !against && l.averageEntry <= price ==> l.averageEntry <= average <= price)
      && (l.accounting != 0.0 && !against && price <= l.averageEntry ==> price <= average <= l.averageEntry)
      && (against ==> fill.closed == Min(quantity, held))
      && (against ==> fill.realized == if side == Sell then Profit(l.averageEntry, price, fill.closed)
        else Profit(price, l.averageEntry, fill.closed))
      && (!against ==> fill.closed == 0.0 && fill.realized == 0.0)
  {
    hide Profit;
    if l.accounting != 0.0 && (l.accounting > 0.0) == (side == Buy) {
      BlendBetween(l.averageEntry, Abs(l.accounting), price, quantity, Abs(l.accounting) + quantity);
      assert Abs(side.Signed(Abs(l.accounting) + quantity)) == Abs(l.accounting) + quantity;
    }
    hide Blend;
  }

  /** A fill closes what it meets of a position on the other side, up to its own quantity. */
  lemma FillClosed(l: Ledger, side: Side, quantity: real, price: real)
    requires quantity > 0.0
    ensures ApplyFill(l, side, quantity, price).closed
      == Max(0.0, Min(quantity, if side == Sell then l.accounting else -l.accounting))
  {
    hide Blend, Profit, Worth;
  }

  /** Adding to a position, opening one, reducing it, closing it and reversing it all keep the account balanced. */
  lemma CostBasisKept(l: Ledger, m: Ledger)
    requires CostTracked(l) && m.accounting == l.accounting && m.averageEntry == l.averageEntry
    requires m.costKnown == l.costKnown
    ensures CostTracked(m) && CostBasis(m) == CostBasis(l)
  {
  }

  lemma PositionFillFrame(l: Ledger, side: Side, quantity: real, price: real)
    ensures var fill := ApplyPositionFill(l, side, quantity, price).ledger;
      fill.cash == l.cash && fill.base == l.base && fill.realized == l.realized
  {
  }

  lemma ApplyFillBalanced(l: Ledger, initial: real, fees: real, side: Side, quantity: real, price: real)
    requires Balanced(l, initial, fees) && quantity > 0.0 && price > 0.0
    ensures var fill := ApplyFill(l, side, quantity, price);
      && Balanced(fill.ledger, initial, fees)
      && fill.ledger.base == l.base + side.Signed(quantity)
      && fill.ledger.realized == l.realized + fill.realized
      && 0.0 <= fill.closed <= quantity && (fill.closed == 0.0 ==> fill.realized == 0.0)
  {
    var quote := Worth(price, quantity);
    var moved := MoveCash(l, side, quantity, quote);
    CostBasisKept(l, moved);
    PositionFillFrame(moved, side, quantity, price);
    PositionFillCost(moved, side, quantity, price);
    var fill := ApplyPositionFill(moved, side, quantity, price);
    CostBasisKept(fill.ledger, fill.ledger.(realized := fill.ledger.realized + fill.realized));
  }

  lemma PayFeesBalanced(l: Ledger, initial: real, fees: real, more: real)
    requires Balanced(l, initial, fees)
    ensures Balanced(PayFees(l, more), initial, fees + more)
  {
  }
}
