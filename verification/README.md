# Verification models for JFTrade

This project models the parts of JFTrade where an error would cost most, and proves what they promise:

- **The `conservative-bar-v1` backtest engine** (`Kernel`, `Matching`, `Ledger`, `Fees`, `FeeGroups`, `FeeLines`,
  `FeeSplits`, `FeeCaps`, `Orders`, `Backtest`, `Invariants`, `Steps`, `Filling`, `Progress`, `Runs`, `Causes`,
  `Commands`, `Trading`, `Warnings`, `Queueing`, `Admission`, `WithinBar`, `Attempts`, `FillPrices`, `Origins`,
  `Engine`, `Drawdown`, `Indicators`). `Backtest` states the execution model as functions on values, `Engine` is the
  engine as the program runs it, objects whose fields are updated in place, and each of its methods is proved to leave
  the state the functions give. The results about every run of every case (accounting, conservation, hierarchy,
  one-cancels-other groups, liquidity, prices, causes of cancellation, fees, warnings, non-anticipation) are proved of
  the functions and so hold of what `Engine.RunCase` returns.
- **Durable claims with fencing** (`Claims`, `ClaimStore`): run leases and idempotent tool invocations, over every
  sequence of calls by any callers holding any leases and tickets.
- **Workflow graphs** (`Names`, `Graphs`, `Canvas`, `CanvasOrder`, `CanvasReach`, `CanvasGraph`, `TaskIndex`,
  `TaskRun`, `TaskHistory`, `TaskGraph`): the canvas compiler and the task scheduler.
- **The continuation supervisor** (`Supervisor`, `Quiescence`): its threads as a state
  machine of atomic steps, over every interleaving.
- **The builtin exchange calendar** (`Dates`, `Calendar`, `Holidays`, `TradingDays`).

Decimals are exact reals, so the checked operations of the source never overflow and the results about runs are about
runs that have not failed. Texts that the source compares with keywords (sides, order types, bases, roundings) are read
into enumerations first, with a case for any other text where the source has an error or a warning for it. Times are
opaque instants. Tokens and 64-bit clocks saturate as in the source; results that need tokens not to saturate ask for
fewer than 2^64 calls.

Verify everything with `dafny verify dfyconfig.toml`.

## Model

| member | source | states |
|---|---|---|
| Kernel.TruncateToIncrement | crates/jftrade-kernel/src/fixed8.rs:303-316 | the multiple of a positive increment nearest on the side of zero; an error exactly for an increment that is not positive |
| Kernel.CeilToIncrement | crates/jftrade-kernel/src/fixed8.rs:320-333 | the least multiple of a positive increment not below the value; an error exactly for an increment that is not positive |
| Kernel.CeilMonotone | crates/jftrade-kernel/src/fixed8.rs:320-333 | rounding up never reverses the order of two values |
| Kernel.TrimIs | crates/jftrade-backtest/src/validation.rs:7 | trimming cuts white space off both ends and leaves none at either |
| Kernel.TrimBlank | crates/jftrade-backtest/src/validation.rs:7 | nothing is left exactly of a text of white space alone |
| Matching.LimitPrice | crates/jftrade-backtest/src/matching.rs:11-43 | a limit price is positive and never worse than the limit, on any candle |
| Matching.LimitPriceIs | crates/jftrade-backtest/src/matching.rs:11-43 | on any bar a limit trades exactly when a positive price of the bar meets it, at the better of open and limit or at the close; on a well-formed bar inside its range |
| Matching.StopMarketPrice | crates/jftrade-backtest/src/matching.rs:45-75 | a triggered stop never trades better than the stop, on any candle |
| Matching.StopMarketPriceIs | crates/jftrade-backtest/src/matching.rs:45-75 | on any bar a stop trades exactly when a positive price of the bar reaches it, at the worse of open and stop or at the close; on a well-formed bar inside its range |
| Matching.ApplySlippage | crates/jftrade-backtest/src/engine.rs:697-726 | slippage is never favourable, and a slipped price lies on the tick grid |
| Matching.SlippageMoves | crates/jftrade-backtest/src/engine.rs:697-726 | slippage moves a price against the order by its ticks, up to a cut of less than one tick; a sale slipped below zero is worth zero |
| Ledger.ApplyFillBalanced | crates/jftrade-backtest/src/engine.rs:416-462 | a fill on either side, whatever it does to the position, keeps cash + position at cost = what came in + realized - fees, moves the position by the signed quantity and realizes nothing without closing |
| Ledger.PositionFillCost | crates/jftrade-backtest/src/engine.rs:540-607 | the cost basis of the position moves by the traded value plus the realized profit, through opening, adding, reducing, closing and reversing |
| Ledger.AverageMoves | crates/jftrade-backtest/src/engine.rs:540-607 | opening and reversing start the average cost at the price, adding moves it towards the price, reducing leaves it alone; what is closed realizes the difference to the old average |
| Ledger.FillClosed | crates/jftrade-backtest/src/engine.rs:571-607 | a fill closes what it meets of a position on the other side, up to its own quantity |
| Ledger.BalancedMeans | crates/jftrade-backtest/src/engine.rs:416-607 | balance means equal positions, a positive average exactly while a position is open, and cash + position x average = initial + realized - fees |
| Fees.ApplyTradeBalanced | crates/jftrade-backtest/src/fees.rs:50-146 | after every trade the charges in the accumulators, the amounts in the breakdown and the two totals agree, and the trade was charged two non-negative amounts by which the broker and the market total grew |
| FeeGroups.RuleCharges | crates/jftrade-backtest/src/fees.rs:67-138 | a rule of the side raises its own accumulator, its own line and the amount of its own kind by the same charge, and nothing else |
| FeeGroups.ApplyTradeSplit | crates/jftrade-backtest/src/fees.rs:99-146 | a trade is charged to the broker exactly what the accumulators of broker groups rise by, and to the market what those of market groups do; each total stays the sum of its own lines and accumulators |
| Fees.FeeWithinLimits | crates/jftrade-backtest/src/fees.rs:83-91 | an order owes its raw fee, raised to the minimum, lowered to the least of the caps that apply, and rounded up by less than one unit |
| Fees.TargetMonotone | crates/jftrade-backtest/src/fees.rs:77-98 | growing an order never lowers what it owes, whatever the minimum, the caps and the rounding |
| FeeLines.LineStep | crates/jftrade-backtest/src/fees.rs:67-98 | one more fill takes the accumulator of a line of linear rules, under any limits, from what its aggregate and last fill call for to what the larger aggregate and the new fill call for |
| FeeLines.ApplyTradeLine | crates/jftrade-backtest/src/fees.rs:67-98 | a trade moves the accumulator of each line by its own rules one after the other, and the breakdown follows its charge |
| FeeLines.LineCharged | crates/jftrade-backtest/src/fees.rs:67-98 | however an order is split into fills, a line of linear rules under any limits charges it the most that any of its rules owes during the last fill, each seeing the aggregate less what later rules add for that fill |
| FeeLines.LineInvariance | crates/jftrade-backtest/src/fees.rs:67-98 | the split of an order does not matter to such a line exactly when the last fill does not, or when one of its rules cannot round and the line refuses every order |
| FeeLines.PartialFillInvariance | crates/jftrade-backtest/src/fees.rs:67-98 | where the last rule of the line owes at least what each earlier one owes, the increments charged to an order, however it was split into fills, sum to what that rule owes for the aggregate |
| FeeLines.LoneRule | crates/jftrade-backtest/src/fees.rs:67-98 | a linear rule that shares its group and id with no other is such a line of its own, and the fee of the aggregate is its own |
| Fees.RuleRefuses | crates/jftrade-backtest/src/fees.rs:67-212 | a rule refuses a trade of its side exactly for an unknown basis, for an unknown rounding of a positive raw fee, or for an unknown group when there is something to charge |
| Fees.ApplyTradeFrame | crates/jftrade-backtest/src/fees.rs:67-70 | a trade never touches the accumulators of another order |
| FeeSplits.PlainSplitInvariance | crates/jftrade-backtest/src/fees.rs:173-212 | without minimum, caps and rounding the split of an order does not matter exactly when the rule is no notional rule with a fixed amount |
| FeeSplits.OrderSplitInvariance | crates/jftrade-backtest/src/fees.rs:191-198 | to a once-per-order rule the split of an order does not matter exactly when no rate cap applies to it, or it never charges more than one unit of its rounding; any minimum, maximum and rounding |
| FeeSplits.FixedSplitInvariance | crates/jftrade-backtest/src/fees.rs:77-98 | to a notional rule with a fixed amount it does not matter exactly when, whatever the notional, already a single fill reaches a cap as far as the rounding shows; any minimum, caps and rounding |
| FeeSplits.FixedRateCap | crates/jftrade-backtest/src/fees.rs:77-98 | with no fixed maximum that is exactly when there is a rate cap and the rate is at least as high |
| FeeCaps.FixedSplitClosed | crates/jftrade-backtest/src/fees.rs:77-98 | and in the numbers of any such rule: never under a negative maximum; under a positive one exactly when the minimum, or one fill of the notional at which the rate cap reaches the maximum, owes the maximum, or more than the last multiple of the rounding below it |
| FeeSplits.SharedLimitsSplit | crates/jftrade-backtest/src/fees.rs:67-98 | two rules that share a line, the second capped: in two halves an order is charged half as much again as at once |
| FeeSplits.CappedFirst | crates/jftrade-backtest/src/fees.rs:67-98 | the same two rules with the capped one first charge every split of an order alike |
| FeeSplits.OrderOfRulesMatters | crates/jftrade-backtest/src/fees.rs:67-98 | so whether the split of an order matters to a line depends on the order of its rules |
| Orders.CancelOrder | crates/jftrade-backtest/src/engine.rs:630-652 | cancelling ends on any parent links, cyclic ones included, and changes nothing but orders that were open, each to cancelled and counted |
| Orders.CancelOrderExactly | crates/jftrade-backtest/src/engine.rs:630-652 | an order is closed by a cancellation exactly when it is reached from the target through open orders; it is then cancelled at that time, with what it had filled |
| Orders.CancelOrderClosesDescendants | crates/jftrade-backtest/src/engine.rs:630-652 | in a well-formed book cancelling an open order cancels every order that descends from it |
| Orders.CancelOrderKeeps | crates/jftrade-backtest/src/engine.rs:630-652 | cancelling keeps every order, the hierarchy and the trade counters in order and moves no profit |
| Orders.ChildOfCancelled | crates/jftrade-backtest/src/engine.rs:630-652 | a child of a cancelled order is cancelled and has never traded |
| Engine.FeeEngine.Apply | crates/jftrade-backtest/src/fees.rs:50-146 | the loop over the rules leaves the accumulators, breakdown and totals that the specification gives, and returns its charge or its error |
| Engine.FeeEngine.ApplyRule | crates/jftrade-backtest/src/fees.rs:67-138 | one turn of that loop |
| Engine.FeeEngine.AccrueFee | crates/jftrade-backtest/src/fees.rs:67-98 | what one rule adds to its accumulator and how far its charge rises |
| Engine.Engine.CancelOrder | crates/jftrade-backtest/src/engine.rs:630-652 | the recursive method closes exactly the book that the specification closes, touching only orders and trade counters |
| Engine.Engine.CancelEach | crates/jftrade-backtest/src/engine.rs:648-650 | the loop over the collected orders cancels them one after the other |
| Engine.Engine.CancelOcoSiblings | crates/jftrade-backtest/src/engine.rs:654-672 | cancels the open members of the group other than the filled one, at its fill time |
| Engine.Engine.CancelByTargetId | crates/jftrade-backtest/src/engine.rs:609-628 | finds a target by client id or by decimal order id that fits 64 bits; an unknown target changes nothing |
| Engine.Engine.FinalizeClosingOrder | crates/jftrade-backtest/src/engine.rs:674-684 | counts a closing order once, and as a win when it closed at a profit |
| Engine.Engine.ApplyPositionFill | crates/jftrade-backtest/src/engine.rs:540-607 | the in-place update of position, average cost and cost flag is the specified one, as are the closed quantity and the profit |
| Engine.Engine.UpdateFilledOrder | crates/jftrade-backtest/src/engine.rs:505-538 | filled, remaining, notional, average, time and status of the filled order |
| Engine.Engine.SettleFill | crates/jftrade-backtest/src/engine.rs:422-462 | cash, base position, position, profit and fees of a fill in the order the source updates them |
| Engine.Engine.RecordFill | crates/jftrade-backtest/src/engine.rs:463-493 | the filled order, its closing part, the next trade id and the appended fill |
| Engine.Engine.ApplyFill | crates/jftrade-backtest/src/engine.rs:416-503 | a whole fill leaves the specified state or fails with the specified error |
| Engine.Engine.MatchPrice | crates/jftrade-backtest/src/engine.rs:363-414 | finds the price of an order on a bar; it only arms an untriggered stop-limit order and only warns of an unsupported type |
| Engine.Engine.TryFill | crates/jftrade-backtest/src/engine.rs:293-361 | one attempt to match: closed orders, orders under unfilled parents and empty budgets are left alone |
| Engine.Engine.ExecuteAt | crates/jftrade-backtest/src/engine.rs:320-360 | the quantity: remaining, liquidity, reduce-only and step; below step or minimum it only warns |
| Engine.Engine.MatchQueue | crates/jftrade-backtest/src/engine.rs:146-154 | the loop over the queue stops when the liquidity is used up |
| Engine.Engine.ConsumeBar | crates/jftrade-backtest/src/engine.rs:132-156 | a bar: budget, matching or zero-volume warning, one equity point |
| Engine.Engine.PushOrder | crates/jftrade-backtest/src/engine.rs:240-283 | validates an intent, refuses a repeated id, and appends its order under the next id |
| Engine.Engine.SubmitOne | crates/jftrade-backtest/src/engine.rs:234-291 | submits one order and, if orders execute on the close, matches it at once |
| Engine.Engine.LinkGroup | crates/jftrade-backtest/src/engine.rs:208-220 | hangs each order of a group under the parent it names |
| Engine.Engine.ReleaseOrders | crates/jftrade-backtest/src/engine.rs:221-231 | queues a group by priority and, if orders execute on the close, matches it in that order |
| Engine.Engine.SubmitAtomic | crates/jftrade-backtest/src/engine.rs:185-232 | an atomic group: all orders are placed and linked before any is matched |
| Engine.Engine.ApplyBarIntents | crates/jftrade-backtest/src/engine.rs:158-183 | the intents of a bar in their order, each atomic group once |
| Engine.Engine.Summary | crates/jftrade-backtest/src/engine.rs:785-845 | finalizes what is still open and reports the run with its drawdown, win rate and indicators, or fails as the indicators fail |
| Engine.RunCase | crates/jftrade-backtest/src/engine.rs:768-849 | running a case on the engine object returns exactly what the functional specification returns, error or report, a failure of the indicators included |
| Runs.ReachableInvariant | crates/jftrade-backtest/src/engine.rs:768-784 | every state that a run reaches satisfies the whole invariant: book, ids, counters, ledger, fills and fees |
| Runs.RunCaseReports | crates/jftrade-backtest/src/engine.rs:768-849 | whatever a successful run reports is the report of a history of states, one per bar |
| Runs.RunCaseSucceeds | crates/jftrade-backtest/src/validation.rs:6-48 | a run succeeds exactly when the case has names, numbers of the right signs, bars that each start and end after all bars before them and a bar for each intent, its bars are processed, all indicator periods are positive and, if there is one, the closes fit |
| Admission.RunAdmits | crates/jftrade-backtest/src/engine.rs:158-291 | bars are processed only if the intents that become orders, known from the intents alone, are valid, carry ids of their own and stand in groups of two or more with parents of the same group; then the orders are theirs, one for each in their order; with supported fee rules and a positive step bars are processed exactly then |
| Admission.ValidatedExactly | crates/jftrade-backtest/src/validation.rs:50-93 | exactly the intents that submit with an id, a side, a positive quantity and the positive prices their type trades by are accepted; any other is refused for what is wrong first |
| Admission.CaseSucceeds | crates/jftrade-backtest/src/engine.rs:768-849 | a run succeeds only if the case is valid, what its due intents ask for is in order in that sense, and its indicators exist; with supported fee rules exactly then |
| Runs.ReportedMetrics | crates/jftrade-backtest/src/engine.rs:801-839 | the reported drawdowns are those of the reported equity, and the reported indicators the two averages of every period over the closes of the processed bars |
| Runs.AccountingIdentity | crates/jftrade-backtest/src/engine.rs:416-607 | in every reachable state both positions agree and cash + position x average = initial balance + realized - fees; the average is positive exactly while a position is open |
| Runs.FinalEquity | crates/jftrade-backtest/src/engine.rs:789-800 | final equity = cash + position x close of the last processed bar = initial + realized + position x (that close - average) - fees; the initial balance if no bar was processed |
| Runs.ReportedOutcome | crates/jftrade-backtest/src/engine.rs:772-783 | the bars processed are those before the cancellation, and a case is completed exactly when these are all |
| Runs.OrdersConserved | crates/jftrade-backtest/src/engine.rs:505-538 | each reported order has the filled quantity and notional of its own fills, their average price, at most its quantity, and has closed what they closed of the position that each of them met, at the profit they realized; unless cancelled filled + remaining = quantity and it carries the time of its last fill |
| Runs.MoneyConserved | crates/jftrade-backtest/src/engine.rs:416-503 | position, profit and fees agree however they are counted: by fill, by order, by fee line, by accumulator and in total |
| Runs.FeesBookedApart | crates/jftrade-backtest/src/fees.rs:99-146 | in every reachable state the broker total is the sum of the lines, of the accumulators and of the parts of the fills that belong to broker groups, and the market total likewise, however group texts are read |
| Runs.ReportedFees | crates/jftrade-backtest/src/engine.rs:828-842 | so are the reported broker fees and market fees |
| Runs.TradesCounted | crates/jftrade-backtest/src/engine.rs:674-684 | the trades reported are the orders that closed a position, each once, and the wins those with a profit |
| Runs.WinRateCounted | crates/jftrade-backtest/src/engine.rs:813-820 | the reported win rate is the share of the orders with a profit among those that closed a position, and zero if none did |
| Runs.OrderFeesInvariant | crates/jftrade-backtest/src/fees.rs:67-98 | in every reachable state an order has been charged on each line of linear rules, under any limits, for exactly its aggregate and its last fill, and where the last rule owes the most for its aggregate alone |
| Runs.LiquidityBound | crates/jftrade-backtest/src/engine.rs:132-156 | what trades within one bar, at open and at close together, and what is left of the budget add up to a tenth of its volume; no bar trades more |
| Attempts.FillTerms | crates/jftrade-backtest/src/engine.rs:293-414 | every fill is on the terms of its order, in whole steps above the minimum, at exactly the price its bar offers after slippage: against the full bar for an order from before the bar, at the close for one submitted in it; a stop-limit order fills only after an earlier bar, since it was submitted and in the mode in which it met that bar, has touched its stop |
| FillPrices.FillPrice | crates/jftrade-backtest/src/engine.rs:363-414 | every fill of an order from before its bar is made at the start of the bar, a market order within slippage of the open, a stop within slippage of the worse of open and stop if the range reaches it, a limit at the better of open and limit if the range offers it; every other at its end, within slippage of or exactly at the close |
| FillPrices.MarketFillPrice | crates/jftrade-backtest/src/engine.rs:371-378 | a market order from before the bar fills within one tick of open and slippage, one submitted in it of close and slippage, and exactly there without slippage |
| FillPrices.MarketPriceOnly | crates/jftrade-backtest/src/engine.rs:371-378 | against two bars with the same open a market order finds the same price, and at the close with the same close |
| Trading.TradesExactly | crates/jftrade-backtest/src/engine.rs:293-361 | an attempt trades exactly when an open order under no parent or a filled one is offered a positive price, there is liquidity, and the largest multiple of the step that remaining quantity, liquidity and reducible position allow is positive and not under the minimum; then it trades that quantity at that price; an offered order with nothing to reduce is closed |
| Trading.AllTried | crates/jftrade-backtest/src/engine.rs:146-154 | against a bar the queued orders are tried one after the other until the liquidity is used up |
| Trading.EachTried | crates/jftrade-backtest/src/engine.rs:221-231 | at the close every order of a group is tried, in its order |
| Warnings.WarnsExactly | crates/jftrade-backtest/src/engine.rs:332-354 | an attempt warns exactly of an unknown type of an order that is ready, of an offered order that may trade less than a step, and of one that may trade a step but less than the minimum; of the same thing only once |
| Warnings.TriedWarns | crates/jftrade-backtest/src/engine.rs:146-154 | of a queue exactly the orders that warn when they are tried leave their warnings |
| Warnings.RunWarns | crates/jftrade-backtest/src/engine.rs:138-145 | in every run warnings stay and never repeat, and there is one of a bar without volume exactly once such a bar has found an order open |
| Warnings.ReportedWarnings | crates/jftrade-backtest/src/engine.rs:844 | so it is with the reported warnings |
| Attempts.OncePerBar | crates/jftrade-backtest/src/engine.rs:144-153 | within one bar no order fills more than once |
| Attempts.TryFillAttempt | crates/jftrade-backtest/src/engine.rs:293-361 | an attempt arms at most the order it tries, when its stop is touched, and adds at most one fill, of that order |
| Attempts.BarAttempts | crates/jftrade-backtest/src/engine.rs:132-183 | over a whole bar each order is matched at most once: those from before against the full bar, those submitted in it at the close |
| Runs.ReduceOnlyNeverFlips | crates/jftrade-backtest/src/engine.rs:320-330 | a reduce-only fill brings the position towards zero and never past it |
| Runs.Hierarchy | crates/jftrade-backtest/src/engine.rs:204-221 | in every reachable state an order that has traded has a filled parent, and a child of a cancelled order is cancelled and untraded |
| Runs.ClosedOrdersStay | crates/jftrade-backtest/src/engine.rs:505-538 | filled and cancelled are absorbing, the terms of an order never change and its fills never shrink |
| Runs.OcoAtMostOne | crates/jftrade-backtest/src/engine.rs:494-501 | members of a group that are exclusive after some bar stay so: at most one of them ever trades |
| Causes.CancelledForCause | crates/jftrade-backtest/src/engine.rs:494-501 | in every run an order is cancelled only in a bar in which a cancel intent names it, it could only reduce and there was nothing to reduce, another member of its non-empty group traded, or one of these is true of an order it hangs under |
| Causes.LinksStay | crates/jftrade-backtest/src/engine.rs:204-221 | the parent of an order never changes after its bar |
| WithinBar.OcoGroup | crates/jftrade-backtest/src/engine.rs:494-501 | if no member of a group has traded before an intent, then of all orders present after it at most one member ever trades, to the end of the run, whether they were submitted one by one or in atomic groups and even if one trades at once |
| WithinBar.OcoFromWithin | crates/jftrade-backtest/src/engine.rs:158-183 | what is exclusive at any point within a bar stays exclusive to the end of the run |
| WithinBar.SubmitAtomicExclusive | crates/jftrade-backtest/src/engine.rs:185-232 | members submitted in one atomic group are exclusive once it is submitted, even if one traded at once |
| WithinBar.SomeWithin | crates/jftrade-backtest/src/engine.rs:158-183 | every history passes through a state after each of the intents of each of its bars |
| Runs.ByPrioritySorts | crates/jftrade-backtest/src/engine.rs:221-222 | the order in which a group is queued is a permutation of it: parents, protective stops, the rest, each in submission order |
| Runs.QueuedOnce | crates/jftrade-backtest/src/engine.rs:144-153 | after every bar each order stands exactly once in the matching queue |
| Queueing.DueInOrder | crates/jftrade-backtest/src/engine.rs:159-164 | the intents of a bar are all intents that name it, in the order of the case |
| Queueing.GroupInOrder | crates/jftrade-backtest/src/engine.rs:174-178 | the members of a group are all intents of the bar that name it, in the same order |
| Queueing.IntentQueues | crates/jftrade-backtest/src/engine.rs:165-181 | an order submitted alone goes to the end of the queue, the orders of a group go there by priority when the first of them is met, and nothing else moves the queue |
| Queueing.EarlierFirst | crates/jftrade-backtest/src/engine.rs:221-222 | the queue only grows at its end, so earlier bars stand before later ones |
| Runs.NonAnticipation | crates/jftrade-backtest/src/engine.rs:158-183 | cases that agree on parameters, the first candles and the intents due before them have the same histories over those bars |
| Runs.CancelledIsTruncated | crates/jftrade-backtest/src/engine.rs:772-783 | cancelling before a bar reports exactly what the case cut off at that bar reports, but for the status; one fails exactly when the other does |
| Filling.ApplyFillKeeps | crates/jftrade-backtest/src/engine.rs:416-503 | a fill under the engine's conditions keeps the whole invariant, appends one fill at its price, quantity and time, and cancels exactly the other open members of a non-empty group with what hangs below them through open orders, at the time of the fill |
| Filling.TradedOrderSurvives | crates/jftrade-backtest/src/engine.rs:654-672 | cancelling its siblings never cancels the order that has just traded |
| Progress.BarStep | crates/jftrade-backtest/src/engine.rs:132-183 | a whole bar keeps the invariant, moves the state only forward and trades within its own liquidity at its own prices |
| Progress.SubmitAtomicStep | crates/jftrade-backtest/src/engine.rs:185-232 | so does submitting, linking, queueing and matching a group |
| Progress.TryFillStep | crates/jftrade-backtest/src/engine.rs:293-361 | so does every attempt to match |
| Progress.CancelTargetStep | crates/jftrade-backtest/src/engine.rs:609-628 | so does every cancellation |
| Commands.FindTargetIs | crates/jftrade-backtest/src/engine.rs:609-628 | a target is found exactly under its client id, or under its order id in digits if no client id reads so |
| Commands.DecimalParsed | crates/jftrade-backtest/src/engine.rs:612-618 | every order id of 64 bits is understood in decimal notation |
| Commands.CancelIntentCloses | crates/jftrade-backtest/src/engine.rs:609-628 | a cancel intent closes the order it names and cancels, at the end of the bar, exactly the open orders reached from it through open orders; one that names none changes nothing |
| Commands.CancelObeyed | crates/jftrade-backtest/src/engine.rs:158-168 | in every run a cancel intent for an order from before its bar leaves it closed for good |
| Commands.GroupLinked | crates/jftrade-backtest/src/engine.rs:208-220 | after an atomic submission each order of the group hangs under the order of the group that its intent names, and under none if it names none |
| Commands.SingleUnlinked | crates/jftrade-backtest/src/engine.rs:168-169 | an order submitted alone hangs under none |
| Progress.StopLimitArmsFirst | crates/jftrade-backtest/src/engine.rs:388-402 | an attempt on a stop-limit order that is not armed arms it exactly when the order is open under no parent or a filled one, there is liquidity and the bar reaches its stop, and does nothing more |
| Origins.OrdersFromIntents | crates/jftrade-backtest/src/engine.rs:234-281 | in every reachable state each order carries the side, type, quantity, prices and flags of an intent of the case with its id, and was submitted at the end of the bar of that intent |
| Origins.NoIntentLost | crates/jftrade-backtest/src/engine.rs:158-183 | a bar leaves every intent to submit that is due with its order, unless its atomic group was submitted on an earlier bar |
| Origins.EquityPerBar | crates/jftrade-backtest/src/engine.rs:728-742 | each bar adds one equity point: initial + realized + position x (close - average) - fees of the matched account |
| Origins.ReportedEquity | crates/jftrade-backtest/src/engine.rs:728-742 | the reported curve has one point for each processed bar, at the end of the bar |
| Drawdown.Measure | crates/jftrade-backtest/src/report.rs:6-35 | the one-pass loop computes the specified curve, current drawdown and maximum |
| Drawdown.MetricsAre | crates/jftrade-backtest/src/report.rs:6-35 | they give every point its loss against the running peak, the last as current, and their greatest as maximum |
| Drawdown.DrawdownIs | crates/jftrade-backtest/src/report.rs:16-28 | the drawdown of a point times the greatest equity so far is what the point lies below it, and nothing when the equity was never above zero |
| Drawdown.MaximumIsGreatestLoss | crates/jftrade-backtest/src/report.rs:6-35 | on a curve that never goes below zero that maximum is the greatest (e_i - e_j) / e_i over all i <= j with e_i > 0, and at most 1 |
| Drawdown.DrawdownBounds | crates/jftrade-backtest/src/report.rs:16-28 | the drawdown of a point that is not below zero lies in [0, 1] and is its greatest loss against any earlier point |
| Drawdown.DrawdownExact | crates/jftrade-backtest/src/report.rs:16-28 | the drawdown of any point is its greatest loss against any earlier point exactly when it is not below zero, or all earlier points above zero are as high as the peak |
| Drawdown.MaximumExact | crates/jftrade-backtest/src/report.rs:19-28 | on any curve the maximum is the greatest loss over all pairs of points exactly when every fall from above zero to below zero is no deeper than that of some point from its own peak |
| Drawdown.NegativeEquityDiffers | crates/jftrade-backtest/src/report.rs:19-25 | below zero the maximum need not be the greatest loss: a concrete curve |
| Indicators.SimpleMovingAverage | crates/jftrade-backtest/src/indicators.rs:32-58 | at every index the running sum gives the average of the last period values summed directly, once there are that many |
| Indicators.ExponentialMovingAverage | crates/jftrade-backtest/src/indicators.rs:60-96 | the loop computes the fixed-point recurrence; it fails exactly when there are two values or more and one does not fit 96 bits in units of 10^-8 |
| Indicators.EmaBetweenCloses | crates/jftrade-backtest/src/indicators.rs:60-96 | for any period and sign the average lies between the least and the greatest truncated close seen so far |
| Indicators.EmaNearExact | crates/jftrade-backtest/src/indicators.rs:60-96 | the fixed-point average is within (period + 1) / 2 units of the exact one, in which each close weighs 2 / (period + 1), and as much again for every 10^8 units between the closes: the errors do not add up |
| Indicators.MixFits | crates/jftrade-backtest/src/indicators.rs:80-93 | with 96-bit operands no product and no sum leaves 128 bits, and the result fits 96 bits again |
| Indicators.CalculateIndicators | crates/jftrade-backtest/src/indicators.rs:7-30 | the loop over the periods computes the specified indicators or fails as specified |
| Indicators.IndicatorsExist | crates/jftrade-backtest/src/indicators.rs:7-30 | they exist exactly when every period is positive and, if there is a period, the closes fit; else what was wrong first is reported; they are both averages of every period in order |
| ClaimStore.ClaimStore.ClaimRun | crates/jftrade-assistant/src/claims.rs:123-168 | grants, renews or refuses a run lease as specified and changes no tool invocation |
| ClaimStore.ClaimStore.HeartbeatRun | crates/jftrade-assistant/src/claims.rs:170-193 | renews a lease for its holder while it is valid |
| ClaimStore.ClaimStore.ReleaseRun | crates/jftrade-assistant/src/claims.rs:195-207 | gives a lease up and fences it off |
| ClaimStore.ClaimStore.ClaimTool | crates/jftrade-assistant/src/claims.rs:209-267 | hands out, replays, takes over or refuses an invocation; a fail-closed claim of a stale one makes it indeterminate |
| ClaimStore.ClaimStore.CompleteTool | crates/jftrade-assistant/src/claims.rs:269-297 | records an output for the holder of the run and of the invocation |
| Claims.CompletedOnce | crates/jftrade-assistant/src/claims.rs:269-297 | whatever callers do, with kept, late or forged leases and tickets, a key is completed at most once |
| Claims.OutputReplayed | crates/jftrade-assistant/src/claims.rs:246-247 | after a completion every claim of the key by the holder of the run, for the same tool and input, replays the recorded output, and no claim executes again |
| Claims.TokensIncrease | crates/jftrade-assistant/src/claims.rs:259-265 | each execute ticket of a key carries a strictly larger token than those before it |
| Claims.FirstClaimExecutes | crates/jftrade-assistant/src/claims.rs:225-241 | the first claim of a key is handed out exactly for a complete request of the holder of the run, under token 1 |
| Claims.NextTicketAfterExpiry | crates/jftrade-assistant/src/claims.rs:249-265 | whatever callers do, a key is handed out again only at or after the expiry of the ticket handed out before, now + ttl saturated to 64 bits, and only to the holder of the run for the same tool and input |
| Claims.UntouchedInTime | crates/jftrade-assistant/src/claims.rs:249-253 | until that expiry no claim in any mode by any owner changes the invocation; only its completion does |
| Claims.InFlightExactly | crates/jftrade-assistant/src/claims.rs:249-265 | a claim of a running invocation by the holder of the run, for the same tool and input, is refused as in flight exactly while the expiry of its newest ticket lies in the future; then a fail-closed claim makes it indeterminate and any other takes it over |
| Claims.UndecidedStays | crates/jftrade-assistant/src/claims.rs:248-258 | an invocation given up as undecided stays so: its holder is told that the outcome is unknown, and it is never handed out or completed |
| Claims.OtherUseRefused | crates/jftrade-assistant/src/claims.rs:243-245 | once a key has been handed out the holder of the run is refused it for another tool or another input |
| Claims.ValidRequestIs | crates/jftrade-assistant/src/claims.rs:321-333 | a request is refused as incomplete exactly when one of its names is blank, and else for a time to live that is not positive |
| Claims.NotForOthers | crates/jftrade-assistant/src/claims.rs:209-219 | a request that is incomplete, or else of a caller that does not hold the run, is refused for that whatever the key, and changes nothing |
| Claims.NewestTicketCompletes | crates/jftrade-assistant/src/claims.rs:281-292 | a completion carries the owner and the token of the newest execute ticket of its key |
| Claims.NewestTicketAccepted | crates/jftrade-assistant/src/claims.rs:269-297 | the newest ticket of a running invocation completes it exactly while its run is held and it has not expired |
| Claims.OlderTicketFails | crates/jftrade-assistant/src/claims.rs:281-292 | an execute ticket that has been followed by another never completes |
| Claims.SupersededLeaseFails | crates/jftrade-assistant/src/claims.rs:299-318 | once a run has been granted under another token no ticket taken under the earlier lease ever completes |
| Claims.ReleasedLeaseFails | crates/jftrade-assistant/src/claims.rs:195-207 | once a lease has been released no ticket taken under it ever completes |
| Claims.LaterOwnerLargerToken | crates/jftrade-assistant/src/claims.rs:137-166 | of two leases of a run with different owners the later has the larger token |
| Claims.LastGrantStands | crates/jftrade-assistant/src/claims.rs:123-193 | the record of a run is the last lease granted on it |
| Claims.LeaseLapses | crates/jftrade-assistant/src/claims.rs:123-193 | the last lease of a run can be renewed exactly by its own owner under its own token, and keeps other owners out, exactly until it expires |
| Claims.LeaseReleased | crates/jftrade-assistant/src/claims.rs:195-207 | it is given up exactly by its own owner under its own token, whenever that is |
| Claims.FailClosedExecutesOnce | crates/jftrade-assistant/src/claims.rs:254-258 | asked for in fail-closed mode only, a key is handed out for execution at most once |
| Claims.HonouredDisjoint | crates/jftrade-assistant/src/claims.rs:137-152 | under a clock that never goes back the times at which any leases of successive owners are honoured do not overlap, whatever was renewed, released or presented late |
| Claims.ValidityDisjoint | crates/jftrade-assistant/src/claims.rs:137-152 | when a run is granted under another token, every lease under the earlier one has expired by its own account that was neither released nor renewed to expire earlier |
| Claims.ClaimsWait | crates/jftrade-assistant/src/claims.rs:137-152 | another owner waits until a given time exactly when that time has come or the record of the run expires no earlier |
| Claims.HeartbeatKeepsClaim | crates/jftrade-assistant/src/claims.rs:170-193 | after a heartbeat every later claim that another owner is granted comes no earlier than the expiry that a lease of the holder states exactly when that has passed or the renewal expires no earlier |
| Claims.RenewalKeepsClaim | crates/jftrade-assistant/src/claims.rs:137-145 | the same of a renewal by another claim of the holder |
| Claims.ReleaseEndsClaim | crates/jftrade-assistant/src/claims.rs:195-207 | after a release every later claim by another owner comes no earlier than the stated expiry exactly when that has passed |
| Claims.ShorterRenewal | crates/jftrade-assistant/src/claims.rs:170-193 | an input where it does not: a lease renewed for a shorter time, whose first expiry another owner does not wait for |
| Claims.TakeoverFences | crates/jftrade-assistant/src/claims.rs:146-152 | taking over an expired lease raises its token exactly when it is not saturated |
| Claims.TraceKeeps | crates/jftrade-assistant/src/claims.rs:123-207 | records stand under their own keys, and no token exceeds the number of calls made |
| Canvas.New | crates/jftrade-assistant/src/workflow_canvas.rs:156-234 | accepts a graph exactly when no node and no edge is wrong, else reports the first that is; its arcs are exactly the edges, each once, and the two edge maps are exact inverses |
| Canvas.ReadNodes | crates/jftrade-assistant/src/workflow_canvas.rs:162-191 | reads the nodes under their trimmed ids with their kinds, or reports the first wrong one |
| Canvas.KindIs | crates/jftrade-assistant/src/workflow_canvas.rs:162-191 | a node is of a kind exactly when its trimmed type, or the type in its data when it has none, spells the word for that kind in letters of either case |
| Canvas.AddArcIndexed | crates/jftrade-assistant/src/workflow_canvas.rs:217-224 | adding an edge keeps both maps without repetition and inverse to each other |
| CanvasOrder.TopologicalOrder | crates/jftrade-assistant/src/workflow_canvas.rs:244-282 | succeeds exactly when there is no directed cycle; the order lists every node once with every edge forward, and no topological order comes before it lexicographically |
| CanvasOrder.LowerTarget | crates/jftrade-assistant/src/workflow_canvas.rs:268-275 | a degree is never lowered below zero, and a node joins the queue exactly when its degree reaches zero |
| CanvasOrder.Release | crates/jftrade-assistant/src/workflow_canvas.rs:266-276 | after a node is taken the degrees count the arcs from nodes that are left, and the queue holds those of degree zero |
| CanvasOrder.CountDegrees | crates/jftrade-assistant/src/workflow_canvas.rs:245-253 | the degrees first count all incoming arcs |
| CanvasOrder.GreedyIsFirst | crates/jftrade-assistant/src/workflow_canvas.rs:262-276 | taking the first ready node each time gives the lexicographically least topological order |
| CanvasOrder.StuckCycle | crates/jftrade-assistant/src/workflow_canvas.rs:278-280 | where nodes are left and none is ready there is a directed cycle |
| CanvasReach.Search | crates/jftrade-assistant/src/workflow_canvas.rs:286-305 | the worklist finds exactly the nodes that a directed path reaches from a trigger or start node |
| CanvasReach.ValidateReachability | crates/jftrade-assistant/src/workflow_canvas.rs:285-321 | passes exactly when the order holds an agent and every agent in it can be reached; else reports the first that cannot, or that there is none |
| CanvasReach.Compile | crates/jftrade-assistant/src/workflow_canvas.rs:237-241 | compiling succeeds exactly when there is no cycle, there is an agent, and every agent can be reached; else it reports the cycle, that there is no agent, or the first agent in the topological order that cannot be reached |
| CanvasGraph.CompileGraph | crates/jftrade-assistant/src/workflow_canvas.rs:156-321 | building and compiling together, said of the nodes and edges: the first wrong node or edge, a cycle of edges, no agent, or the first agent that no path from a trigger or start node reaches; otherwise the lexicographically least order in which every edge runs forward |
| TaskIndex.New | crates/jftrade-assistant/src/workflow.rs:31-59 | tasks with distinct ids and known dependencies are accepted exactly when the dependencies have no cycle; otherwise the first error is reported |
| TaskIndex.ReadTasks | crates/jftrade-assistant/src/workflow.rs:32-41 | files the tasks under their trimmed ids, or reports the first empty or repeated one |
| TaskIndex.CheckDependencies | crates/jftrade-assistant/src/workflow.rs:42-54 | reports the first wrong dependency by id and then by position |
| TaskIndex.FindCycle | crates/jftrade-assistant/src/workflow.rs:134-161 | depth-first search answers whether there is a cycle: sound, complete and terminating |
| TaskIndex.Visit | crates/jftrade-assistant/src/workflow.rs:135-154 | a visit that meets a node being visited has found a cycle; otherwise the node and all it depends on are visited, after what they depend on |
| TaskGraph.TaskGraph.Listed | crates/jftrade-assistant/src/workflow.rs:61-65 | lists every filed task exactly once, by order and id |
| TaskGraph.TaskGraph.ReadyTask | crates/jftrade-assistant/src/workflow.rs:67-69 | returns the earliest ready task, and none exactly when none is ready |
| TaskGraph.TaskGraph.Claim | crates/jftrade-assistant/src/workflow.rs:71-82 | starts a ready task, and keeps the graph well formed and acyclic |
| TaskGraph.TaskGraph.Complete | crates/jftrade-assistant/src/workflow.rs:84-102 | finishes a waiting or running one likewise |
| TaskGraph.TaskGraph.Block | crates/jftrade-assistant/src/workflow.rs:104-122 | blocks one that is neither done nor cancelled likewise |
| TaskRun.SomeNext | crates/jftrade-assistant/src/workflow.rs:67-69 | while every task is waiting or done and one is waiting, there is a next one |
| TaskRun.AllGetDone | crates/jftrade-assistant/src/workflow.rs:67-102 | in every run of rounds that each claim and complete some ready task, each waiting task is taken once and after all it depends on; while one is left there is a next one, and when none is left every task is done |
| TaskHistory.StatusExactly | crates/jftrade-assistant/src/workflow.rs:71-122 | over any calls by any callers a task is done exactly when it was or has been completed, else blocked when it has been, else in progress when it has been claimed, and else as it was; nothing else of it but the summary changes |
| TaskHistory.ClaimExactly | crates/jftrade-assistant/src/workflow.rs:71-82 | a claim is granted exactly when the task was waiting, nobody has claimed, completed or blocked it, and all it depends on has got done, so a task is claimed once at most |
| TaskHistory.CompleteExactly | crates/jftrade-assistant/src/workflow.rs:84-102 | a completion is granted exactly when the task was waiting or in progress and nobody has completed or blocked it; it leaves the trimmed summary |
| TaskHistory.BlockExactly | crates/jftrade-assistant/src/workflow.rs:104-122 | blocking is granted exactly when the task was neither done nor cancelled and nobody has completed it; it leaves the trimmed reason |
| TaskGraph.RunAll | crates/jftrade-assistant/src/workflow.rs:67-102 | claiming and completing the next task until there is none, or until the next one cannot be claimed under the id it carries, follows the dependencies; it ends with every task done exactly when all waiting tasks carry the ids they are filed under |
| TaskRun.ReadyClaimable | crates/jftrade-assistant/src/workflow.rs:71-82 | a ready task can be claimed under the id it carries exactly when that id is trimmed |
| TaskRun.UntrimmedNotClaimable | crates/jftrade-assistant/src/workflow.rs:33-40 | a concrete task, reported ready, that cannot be claimed under its own id |
| Supervisor.BarrierCounts | crates/jftrade-engine/src/product_adk_model_runtime.rs:141-160 | in every interleaving the barrier counts exactly the guards not yet dropped, and leaving never takes it below zero |
| Supervisor.OneTaskPerRun | crates/jftrade-engine/src/product_adk_model_runtime.rs:254-278 | in every interleaving a run has at most one continuation that is not done |
| Supervisor.ShutdownMissesNone | crates/jftrade-engine/src/product_adk_model_runtime.rs:270-278 | a shutdown that holds the lock finds every continuation that is not gone in the count it will wait for |
| Supervisor.DrainedForever | crates/jftrade-engine/src/product_adk_model_runtime.rs:297-312 | once a shutdown has returned with its wait successful no continuation is running or ever runs again, in any interleaving |
| Supervisor.StepInv | crates/jftrade-engine/src/product_adk_model_runtime.rs:216-312 | every atomic step of every thread keeps the invariant of lock, list, admission and barrier |
| Supervisor.NobodyLeft | crates/jftrade-engine/src/product_adk_model_runtime.rs:162-190 | an empty barrier after the list was taken means that every continuation is gone |
| Quiescence.RefusedForCause | crates/jftrade-engine/src/product_adk_model_runtime.rs:244-266 | in every interleaving a spawn is refused only while a shutdown is under way, while a continuation of its run is not done, or because its thread cannot be started |
| Quiescence.NoDeadlock | crates/jftrade-engine/src/product_adk_model_runtime.rs:216-312 | in every interleaving either every call has returned and every continuation is gone, or some thread can move on |
| Quiescence.StepsBounded | crates/jftrade-engine/src/product_adk_model_runtime.rs:216-312 | every interleaving ends: at most fifteen atomic steps for each call of spawn and five for each of shutdown |
| Calendar.EasterIsSunday | crates/jftrade-calendar/src/manager_policy.rs:298-321 | for every year Easter is a valid date, a Sunday, from 22 March to 25 April |
| Calendar.EasterIsFirstSunday | crates/jftrade-calendar/src/manager_policy.rs:298-321 | in every year Easter is the first Sunday after the ecclesiastical full moon from 21 March on, which is defined by the golden number, the solar and lunar corrections of the century and the epact with its exceptions |
| Calendar.ComputusRanges | crates/jftrade-calendar/src/manager_policy.rs:302-314 | no remainder is taken of a negative number and each lies in its range |
| Dates.WeekdaysFollow | crates/jftrade-calendar/src/manager_policy.rs:259-267 | weekdays follow each other from day to day |
| Dates.WeekdayAnchor | crates/jftrade-calendar/src/manager_policy.rs:259-267 | and start right: the first of January 2000 was a Saturday |
| Dates.AddDays | crates/jftrade-calendar/src/manager_policy.rs:259-267 | the date so many days later or earlier; there is none exactly past the ends of the calendar |
| Holidays.GoodFridayIsFriday | crates/jftrade-calendar/src/manager_policy.rs:293-296 | Good Friday is a Friday of the same year, and exists exactly for the years Easter is defined for |
| Holidays.NthWeekdayExact | crates/jftrade-calendar/src/manager_policy.rs:269-277 | the nth weekday of a month, n up to four, is that weekday of that month in its nth seven days |
| Holidays.LastWeekdayExact | crates/jftrade-calendar/src/manager_policy.rs:279-291 | the last weekday of a month is that weekday in its last seven days; it exists unless the month is the last of the calendar |
| Holidays.ObservedNeverWeekend | crates/jftrade-calendar/src/manager_policy.rs:259-267 | an observed fixed holiday lies at most a day from its date, on it unless that is a weekend, and never on a weekend |
| Holidays.HolidayNeverWeekend | crates/jftrade-calendar/src/manager_policy.rs:154-235 | no full holiday falls on a weekend, New Year observed in the previous year included |
| Holidays.HolidayPlace | crates/jftrade-calendar/src/manager_policy.rs:178-235 | in which month and which seven days of it each holiday falls, and on which weekday |
| TradingDays.HolidayExact | crates/jftrade-calendar/src/manager_policy.rs:178-291 | each holiday of a year falls exactly on the day that its rule describes by month, day and weekday |
| TradingDays.HolidaysExact | crates/jftrade-calendar/src/manager_policy.rs:154-235 | the markets are closed for a holiday exactly on the day it falls on, and on a Friday that ends the year |
| Holidays.EarlyCloseIsNoHoliday | crates/jftrade-calendar/src/manager_policy.rs:323-345 | a day that closes early is a weekday and no full holiday |
| TradingDays.EarlyCloseExact | crates/jftrade-calendar/src/manager_policy.rs:237-247 | the days that close early are exactly those described by month, day and weekday |
| Holidays.UsDayCoherent | crates/jftrade-calendar/src/manager_policy.rs:87-176 | closed exactly on weekends and full holidays, closing early exactly on early-close days, else four adjoining windows, the regular one ending at 780 exactly when it closes early |
| Holidays.ScheduleCoherent | crates/jftrade-calendar/src/manager_policy.rs:87-129 | in every market closed means no windows, windows follow each other, and weekends are closed |
| Holidays.OtherDayCoherent | crates/jftrade-calendar/src/manager_policy.rs:87-152 | any other market is closed on weekends, the mainland also on the days of its table, and else open from 9:30 with the lunch break and the end of its own |
| Holidays.ObservedMark | crates/jftrade-calendar/src/manager_policy.rs:225-235 | a holiday is marked observed exactly when it is a fixed one whose date falls on a weekend |

## Left out

- Decimal rounding beyond 28 digits and overflow of decimals: reals are exact; only the exponential average keeps its 96-bit and 128-bit limits.
- Engine identifiers: order and trade ids grow without bound where the source fails at 64 bits.
- Fee accumulators are keyed by the triple of group, rule and order where the source joins them with `|`; the two differ only for groups or ids that contain that character.
- FeeLines.LineCharged: is about lines whose rules are all linear; `FeeSplits` and `FeeCaps` say for single rules of the other kinds exactly when the split of an order matters. Lines that mix linear and other rules, and rules with a negative rate or fixed amount, are not covered there.
- Admission.CaseSucceeds: with a rule that is not supported it says only when a case cannot succeed; whether such a rule refuses depends on the trades, as Fees.RuleRefuses says.
- Warnings are kept by kind, without their texts, and fills and orders without their decimal texts.
- Engine.RunCase: leaves out the result hash and the texts of numbers, so the rounding of metrics to twelve digits.
- The floating-point PineTS indicators and the text of metrics: floating point and formatting are not the point here.
- Invocation keys of claims are pairs of run and key where the source joins them with a NUL character; the two agree for run ids without one.
- Restoring a claim store from bytes and serializing it: serialization is not part of this model.
- Node data, titles, viewports and node runs of the canvas: only ids, kinds and edges matter to its compiler.
- Poisoned locks, cancellation flags and the length of timeouts of the supervisor: a wait either finds the barrier empty or times out, whenever it likes. The work of a continuation is one step, so its own termination is not modelled.
- The mark of an order that it has children: the engine sets it and never reads it.
- Manual overrides, time zones, caching and the table of mainland holidays of the calendar: the table enters `BuiltinSchedule` as a parameter.
- HTTP, SQLite, gRPC and user-interface code: not part of this model.
