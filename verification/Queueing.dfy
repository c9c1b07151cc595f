/** In which order intents are applied and orders are matched: as submitted, and within a group by priority. */
module Queueing {
  import opened Kernel
  import opened Matching
  import opened Orders
  import opened Backtest
  import opened Runs

  // ---- the intents of a bar and of a group -----------------------------------------------

  /** `chosen` are the intents at these positions, in their order. */
  ghost predicate Selects(all: seq<Intent>, positions: seq<nat>, chosen: seq<Intent>) {
    && |positions| == |chosen|
    && (forall n | 0 <= n < |chosen| :: positions[n] < |all| && all[positions[n]] == chosen[n])
    && forall m, n | 0 <= m < n < |chosen| :: positions[m] < positions[n]
  }

  function Shifted(positions: seq<nat>): seq<nat> {
    seq(|positions|, n requires 0 <= n < |positions| => positions[n] + 1)
  }

  lemma ShiftedIn(positions: seq<nat>)
    ensures forall n: nat :: n > 0 ==> (n in Shifted(positions) <==> n - 1 in positions)
    ensures 0 !in Shifted(positions)
  {
    forall n: nat | n > 0 ensures n in Shifted(positions) <==> n - 1 in positions {
      if n - 1 in positions {
        var i :| 0 <= i < |positions| && positions[i] == n - 1;
        assert Shifted(positions)[i] == n;
      }
    }
  }

  lemma SelectsLater(all: seq<Intent>, positions: seq<nat>, chosen: seq<Intent>)
    requires all != [] && Selects(all[1..], positions, chosen)
    ensures Selects(all, Shifted(positions), chosen)
  {
    forall n | 0 <= n < |chosen| ensures all[positions[n] + 1] == chosen[n] {
      assert all[1..][positions[n]] == chosen[n];
    }
  }

  lemma SelectsFirst(all: seq<Intent>, positions: seq<nat>, chosen: seq<Intent>)
    requires all != [] && Selects(all, positions, chosen) && 0 !in positions
    ensures Selects(all, [0] + positions, [all[0]] + chosen)
  {
  }

  /** The intents due on a bar are all that name it, in the order of the case. */
  lemma {:induction false} DueInOrder(intents: seq<Intent>, bar: nat) returns (positions: seq<nat>)
    ensures Selects(intents, positions, IntentsAt(intents, bar))
    ensures forall n: nat | n < |intents| :: n in positions <==> intents[n].barIndex == bar
    decreases |intents|
  {
    if intents == [] {
      positions := [];
    } else {
      var rest := DueInOrder(intents[1..], bar);
      SelectsLater(intents, rest, IntentsAt(intents[1..], bar));
      ShiftedIn(rest);
      SelectsFirst(intents, Shifted(rest), IntentsAt(intents[1..], bar));
      positions := if intents[0].barIndex == bar then [0] + Shifted(rest) else Shifted(rest);
      forall n: nat | n < |intents| ensures n in positions <==> intents[n].barIndex == bar {
        assert n > 0 ==> intents[1..][n - 1] == intents[n];
      }
    }
  }

  /** The members of a group are all intents that name it, in the same order. */
  lemma {:induction false} GroupInOrder(intents: seq<Intent>, groupId: string) returns (positions: seq<nat>)
    ensures Selects(intents, positions, InGroup(intents, groupId))
    ensures forall n: nat | n < |intents| :: n in positions <==> intents[n].atomicGroup == groupId
    decreases |intents|
  {
    if intents == [] {
      positions := [];
    } else {
      var rest := GroupInOrder(intents[1..], groupId);
      SelectsLater(intents, rest, InGroup(intents[1..], groupId));
      ShiftedIn(rest);
      SelectsFirst(intents, Shifted(rest), InGroup(intents[1..], groupId));
      positions := if intents[0].atomicGroup == groupId then [0] + Shifted(rest) else Shifted(rest);
      forall n: nat | n < |intents| ensures n in positions <==> intents[n].atomicGroup == groupId {
        assert n > 0 ==> intents[1..][n - 1] == intents[n];
      }
    }
  }

  // ---- the queue -------------------------------------------------------------------------

  /** The orders from `first` on are queued behind the others: a single order last, a group by priority. */
  ghost predicate QueuedBehind(s: State, placed: State, r: State, first: nat) {
    && first <= |placed.book.orders|
    && exists queue: seq<nat> ::
         && r.matching == s.matching + queue && PrioritySorted(placed.book.orders, queue)
         && multiset(queue) == multiset(Range(first, |placed.book.orders|))
  }

  lemma SingleQueued(p: Params, s: State, intent: Intent, r: State)
    requires Indexed(s) && SubmitOne(p, s, intent) == Ok(r)
    ensures r.matching == s.matching + [|s.book.orders|]
  {
    hide TryFill, ValidateSubmit, NewOrder;
  }

  lemma GroupQueued(p: Params, s: State, groupId: string, group: seq<Intent>, r: State)
    requires Indexed(s) && SubmitAtomic(p, s, groupId, group) == Ok(r)
    ensures PlaceGroup(s, group).Ok? && QueuedBehind(s, PlaceGroup(s, group).value, r, |s.book.orders|)
  {
    AddOrdersQueue(s, group);
    var placed := PlaceGroup(s, group).value;
    assert placed.matching == s.matching;
    var queue := ByPriority(placed.book.orders, |s.book.orders|, |placed.book.orders|);
    ByPrioritySorts(placed.book.orders, |s.book.orders|, |placed.book.orders|);
    ReleasedQueue(p, placed, |s.book.orders|, r);
    hide PlaceGroup, ReleaseGroup, ByPriority, PrioritySorted, Range;
    assert r.matching == s.matching + queue;
  }

  lemma ReleasedQueue(p: Params, placed: State, first: nat, r: State)
    requires Indexed(placed) && first <= |placed.book.orders| && ReleaseGroup(p, placed, first) == Ok(r)
    ensures r.matching == placed.matching + ByPriority(placed.book.orders, first, |placed.book.orders|)
  {
    hide ByPriority;
  }

  /** What an intent does to the queue: a single order goes to its end, the orders of a group go there by priority the
      first time one of its intents is met, and nothing else moves it. */
  lemma IntentQueues(p: Params, s: State, due: seq<Intent>, intent: Intent, r: State)
    requires Indexed(s) && ApplyIntent(p, s, due, intent) == Ok(r)
    ensures if intent.action == Cancel || (intent.atomicGroup != "" && intent.atomicGroup in s.groups) then
              r.matching == s.matching
            else if intent.atomicGroup == "" then r.matching == s.matching + [|s.book.orders|]
            else
              var marked := s.(groups := s.groups + {intent.atomicGroup});
              var placed := PlaceGroup(marked, InGroup(due, intent.atomicGroup));
              placed.Ok? && QueuedBehind(s, placed.value, r, |s.book.orders|)
  {
    hide SubmitOne, SubmitAtomic, CancelTarget, PlaceGroup, PrioritySorted, Range;
    if intent.action == Cancel {
    } else if intent.atomicGroup == "" {
      SingleQueued(p, s, intent, r);
    } else if intent.atomicGroup !in s.groups {
      var marked := s.(groups := s.groups + {intent.atomicGroup});
      GroupQueued(p, marked, intent.atomicGroup, InGroup(due, intent.atomicGroup), r);
    }
  }

  lemma {:induction false} IntentsQueue(p: Params, s: State, due: seq<Intent>, from: nat, r: State)
    requires Indexed(s) && from <= |due| && ApplyIntents(p, s, due, from) == Ok(r)
    ensures s.matching <= r.matching
    decreases |due| - from
  {
    hide ApplyIntent, PlaceGroup, PrioritySorted, Range;
    if from == |due| {
    } else {
      var next := ApplyIntent(p, s, due, due[from]).value;
      IntentQueues(p, s, due, due[from], next);
      IntentsQueue(p, next, due, from + 1, r);
    }
  }

  lemma BarQueues(p: Params, s: State, candle: Candle, due: seq<Intent>, r: State)
    requires Indexed(s) && Bar(p, s, candle, due) == Ok(r)
    ensures s.matching <= r.matching
  {
    var consumed := ConsumeBar(p, s, candle).value;
    assert consumed.matching == s.matching;
    hide ConsumeBar, ApplyIntents;
    IntentsQueue(p, consumed, due, 0, r);
  }

  /** The queue only ever grows at its end: what was queued by an earlier bar is matched before what came later. */
  lemma {:induction false} EarlierFirst(c: Case, states: seq<State>, from: nat, k: nat)
    requires History(c, states) && from <= k < |states|
    ensures states[from].matching <= states[k].matching
    decreases k
  {
    hide Bar, IntentsAt, History, Indexed;
    if from < k {
      EarlierFirst(c, states, from, k - 1);
      HistoryLeads(c, states, k - 1);
      BarQueues(c.params, states[k - 1], c.candles[k - 1], IntentsAt(c.intents, k - 1), states[k]);
    }
  }
}
