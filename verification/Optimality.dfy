/** Exactly when a greedy plan is the best way to trade as many units: always for
    contract amounts, and for cash amounts when a level that the cash cuts short
    is the last one the plan can use (src/vtrade/broker.py). */
module Optimality {
  import opened Domain
  import opened Fees
  import opened Planning

  // ----- allocations and their value -----

  /** Ladder prices as a key that the order wants small: what a BUY pays, or
      minus what a SELL receives. */
  function Key(r: OrderRequest, price: int): int {
    if r.action.Buy? then price else -price
  }

  /** Asks ascending for a BUY, bids descending for a SELL. */
  ghost predicate Sorted(r: OrderRequest, levels: seq<Level>) {
    forall i, j :: 0 <= i < j < |levels| ==> Key(r, levels[i].price) <= Key(r, levels[j].price)
  }

  /** The order an order book enforces on its ladders. */
  ghost predicate StrictlySorted(r: OrderRequest, levels: seq<Level>) {
    forall i, j :: 0 <= i < j < |levels| ==> Key(r, levels[i].price) < Key(r, levels[j].price)
  }

  /** Any way to draw units from the ladder. */
  ghost predicate Allocation(alloc: seq<nat>, levels: seq<Level>) {
    |alloc| == |levels| && forall i :: 0 <= i < |levels| ==> alloc[i] <= levels[i].quantity
  }

  ghost function AllocUnits(alloc: seq<nat>, i: nat): int
    requires i <= |alloc|
    decreases |alloc| - i
  {
    if i == |alloc| then 0 else alloc[i] + AllocUnits(alloc, i + 1)
  }

  /** Sum of units times key over an allocation. */
  ghost function AllocKey(r: OrderRequest, alloc: seq<nat>, levels: seq<Level>, i: nat): int
    requires |alloc| == |levels| && i <= |alloc|
    decreases |alloc| - i
  {
    if i == |alloc| then 0 else alloc[i] * Key(r, levels[i].price) + AllocKey(r, alloc, levels, i + 1)
  }

  /** Sum of units times key over a plan. */
  ghost function PlanKey(r: OrderRequest, lots: seq<Lot>): int {
    if lots == [] then 0 else lots[0].units * Key(r, lots[0].price) + PlanKey(r, lots[1..])
  }

  /** No allocation of as many units, inside the limit or not, pays less on a BUY
      or receives more on a SELL. */
  ghost predicate Optimal(r: OrderRequest, levels: seq<Level>, plan: seq<Lot>) {
    forall alloc: seq<nat> | Allocation(alloc, levels) ::
      AllocUnits(alloc, 0) == TotalUnits(plan) ==> PlanKey(r, plan) <= AllocKey(r, alloc, levels, 0)
  }

  /** Walking down the ladder while the cash covers what each level offers: at the
      first level it does not cover, no later level inside the limit is cheap
      enough for one unit out of the cash left there. */
  ghost predicate CutIsLast(r: OrderRequest, levels: seq<Level>, i: nat, remaining: Option<nat>, cash: nat)
    requires ValidLevels(levels) && i <= |levels|
    decreases |levels| - i
  {
    i == |levels| || !Admits(r, levels[i].price) ||
    var units, cashLeft := Take(r, levels[i], remaining, cash), LessCash(r, levels[i], remaining, cash);
    if units == Offered(levels[i], remaining)
    then CutIsLast(r, levels, i + 1, LessUnits(remaining, units), cashLeft)
    else NothingWithin(r, levels, i + 1, cashLeft)
  }

  /** No level from i on is inside the limit and costs at most the cash per unit. */
  ghost predicate NothingWithin(r: OrderRequest, levels: seq<Level>, i: nat, cash: nat)
    requires i <= |levels|
  {
    forall j :: i <= j < |levels| && Admits(r, levels[j].price) ==> 100 * cash < levels[j].price
  }

  // ----- the plan is optimal when its cut level is its last -----

  /** Units from level i on are worth at least their number times any key that
      bounds the ladder from below there. */
  lemma {:induction false} AllocAtLeast(r: OrderRequest, alloc: seq<nat>, levels: seq<Level>, i: nat, low: int)
    requires |alloc| == |levels| && i <= |alloc|
    requires forall j :: i <= j < |levels| ==> low <= Key(r, levels[j].price)
    ensures AllocKey(r, alloc, levels, i) >= low * AllocUnits(alloc, i)
    decreases |alloc| - i
  {
    if i < |alloc| {
      AllocAtLeast(r, alloc, levels, i + 1, low);
      assert alloc[i] * Key(r, levels[i].price) >= alloc[i] * low by {
        MulMonotone(0, Key(r, levels[i].price) - low, alloc[i]);
      }
    }
  }

  /** One level of the exchange: drawing a instead of the planned units there. */
  lemma {:induction false} ExchangeStep(key: int, low: int, a: nat, units: nat, allUnits: int, planUnits: int,
                                        allocRest: int, planRest: int)
    requires low <= key && planUnits <= allUnits
    requires allocRest >= planRest + key * ((allUnits - a) - (planUnits - units))
    ensures a * key + allocRest >= units * key + planRest + low * (allUnits - planUnits)
  {
    var extra := allUnits - planUnits;
    assert key * (extra - a + units) == key * extra - a * key + units * key;
    assert key * extra == low * extra + (key - low) * extra;
    MulMonotone(0, key - low, extra);
  }

  lemma {:induction false} KeysFrom(r: OrderRequest, levels: seq<Level>, i: nat)
    requires i < |levels| && Sorted(r, levels)
    ensures forall j :: i <= j < |levels| ==> Key(r, levels[i].price) <= Key(r, levels[j].price)
  {
  }

  /** Past the limit on a sorted ladder there is nothing to plan. */
  lemma {:induction false} PastTheLimit(r: OrderRequest, levels: seq<Level>, i: nat, remaining: Option<nat>, cash: nat)
    requires ValidLevels(levels) && i <= |levels|
    requires forall j :: i <= j < |levels| ==> !Admits(r, levels[j].price)
    ensures PlanFrom(r, levels, i, remaining, cash) == []
    decreases |levels| - i
  {
    if i < |levels| {
      PastTheLimit(r, levels, i + 1, remaining, cash);
    }
  }

  /** A unit is taken from a level exactly when one is wanted and the cash covers it. */
  lemma {:induction false} TakesAUnit(r: OrderRequest, level: Level, remaining: Option<nat>, cash: nat)
    requires ValidLevel(level) && r.amount.Cash? && remaining != Some(0)
    ensures Take(r, level, remaining, cash) >= 1 <==> level.price <= 100 * cash
  {
    if level.price != 0 {
      var q := cash * 100 / level.price;
      assert cash * 100 == level.price * q + cash * 100 % level.price;
      if q >= 1 {
        MulMonotone(1, q, level.price);
        assert q * level.price == level.price * q;
      }
    }
  }

  /** Cash that covers no unit inside the limit plans nothing, and other cash does. */
  lemma {:induction false} PlansExactlyWhen(r: OrderRequest, levels: seq<Level>, i: nat, remaining: Option<nat>,
                                            cash: nat)
    requires ValidLevels(levels) && i <= |levels| && r.amount.Cash? && remaining != Some(0)
    ensures PlanFrom(r, levels, i, remaining, cash) == [] <==> NothingWithin(r, levels, i, cash)
    decreases |levels| - i
  {
    hide Take, LessCash, Admits;
    if i < |levels| {
      TakesAUnit(r, levels[i], remaining, cash);
      PlansExactlyWhen(r, levels, i + 1, remaining, cash);
    }
  }

  /** What a level that the cash cuts short leaves to do. */
  lemma {:induction false} CutLevel(r: OrderRequest, level: Level, remaining: Option<nat>, cash: nat)
    requires ValidLevel(level) && Take(r, level, remaining, cash) != Offered(level, remaining)
    ensures r.amount.Cash? && remaining != Some(0)
    ensures var units := Take(r, level, remaining, cash);
            && units < level.quantity && LessUnits(remaining, units) != Some(0)
            && (units == 0 ==> LessCash(r, level, remaining, cash) == cash && LessUnits(remaining, units) == remaining)
  {
  }

  /** The plan at an admitted level: its units, and the plan for what is left. */
  lemma {:induction false} PlanAt(r: OrderRequest, levels: seq<Level>, i: nat, remaining: Option<nat>, cash: nat)
    returns (rest: seq<Lot>)
    requires ValidLevels(levels) && i < |levels| && Admits(r, levels[i].price)
    ensures var plan, units := PlanFrom(r, levels, i, remaining, cash), Take(r, levels[i], remaining, cash);
            var left := LessUnits(remaining, units);
            && rest == (if left == Some(0) then []
                        else PlanFrom(r, levels, i + 1, left, LessCash(r, levels[i], remaining, cash)))
            && TotalUnits(plan) == units + TotalUnits(rest)
            && PlanKey(r, plan) == units * Key(r, levels[i].price) + PlanKey(r, rest)
            && plan == (if units == 0 then [] else [Lot(i + 1, levels[i].price, units)]) + rest
  {
    var plan, units := PlanFrom(r, levels, i, remaining, cash), Take(r, levels[i], remaining, cash);
    var left := LessUnits(remaining, units);
    rest := if left == Some(0) then [] else PlanFrom(r, levels, i + 1, left, LessCash(r, levels[i], remaining, cash));
    if units == 0 {
      NothingTakenNothingSpent(r, levels[i], remaining, cash);
      if left == Some(0) {
        NothingWantedNothingPlanned(r, levels, i + 1, cash);
      }
      assert plan == rest;
    } else {
      assert plan == [Lot(i + 1, levels[i].price, units)] + rest;
      assert plan[1..] == rest;
    }
  }

  lemma {:induction false} NothingTakenNothingSpent(r: OrderRequest, level: Level, remaining: Option<nat>, cash: nat)
    requires ValidLevel(level) && Take(r, level, remaining, cash) == 0
    ensures LessCash(r, level, remaining, cash) == cash && LessUnits(remaining, 0) == remaining
  {
  }

  /** Exchange argument: an allocation with at least as many units has at least
      the plan's key, plus the bound for every extra unit. */
  lemma {:induction false} PlanBeats(r: OrderRequest, levels: seq<Level>, i: nat, remaining: Option<nat>, cash: nat,
                                     alloc: seq<nat>, low: int)
    requires ValidLevels(levels) && i <= |levels| && Sorted(r, levels) && Allocation(alloc, levels)
    requires CutIsLast(r, levels, i, remaining, cash)
    requires forall j :: i <= j < |levels| ==> low <= Key(r, levels[j].price)
    requires TotalUnits(PlanFrom(r, levels, i, remaining, cash)) <= AllocUnits(alloc, i)
    ensures var plan := PlanFrom(r, levels, i, remaining, cash);
            AllocKey(r, alloc, levels, i) >= PlanKey(r, plan) + low * (AllocUnits(alloc, i) - TotalUnits(plan))
    decreases |levels| - i
  {
    hide Key, Sorted, PlanFrom, Take, LessCash, Admits, LessUnits;
    if i == |levels| || !Admits(r, levels[i].price) {
      NothingFrom(r, levels, i, remaining, cash);
      AllocAtLeast(r, alloc, levels, i, low);
      return;
    }
    var key, units := Key(r, levels[i].price), Take(r, levels[i], remaining, cash);
    TakeBounds(r, levels[i], remaining, cash);
    var rest := PlanAt(r, levels, i, remaining, cash);
    var left, cashLeft := LessUnits(remaining, units), LessCash(r, levels[i], remaining, cash);
    KeysFrom(r, levels, i);
    if rest == [] {
      AllocAtLeast(r, alloc, levels, i + 1, key);
    } else {
      if units != Offered(levels[i], remaining) {
        CutLevel(r, levels[i], remaining, cash);
        PlansExactlyWhen(r, levels, i + 1, left, cashLeft);
        assert false;
      }
      OfferedIsAll(levels[i], remaining, units);
      PlanBeats(r, levels, i + 1, left, cashLeft, alloc, key);
    }
    ExchangeStep(key, low, alloc[i], units, AllocUnits(alloc, i), units + TotalUnits(rest),
                 AllocKey(r, alloc, levels, i + 1), PlanKey(r, rest));
  }

  lemma {:induction false} OfferedIsAll(level: Level, remaining: Option<nat>, units: nat)
    requires ValidLevel(level) && units == Offered(level, remaining) && LessUnits(remaining, units) != Some(0)
    ensures units == level.quantity
  {
  }

  lemma {:induction false} NothingFrom(r: OrderRequest, levels: seq<Level>, i: nat, remaining: Option<nat>, cash: nat)
    requires ValidLevels(levels) && i <= |levels| && Sorted(r, levels)
    requires i == |levels| || !Admits(r, levels[i].price)
    ensures PlanFrom(r, levels, i, remaining, cash) == []
    ensures var plan := PlanFrom(r, levels, i, remaining, cash); TotalUnits(plan) == PlanKey(r, plan) == 0
  {
    if i < |levels| {
      assert forall j :: i <= j < |levels| ==> Key(r, levels[i].price) <= Key(r, levels[j].price);
    }
    PastTheLimit(r, levels, i, remaining, cash);
  }

  // ----- otherwise one unit can be moved to a better level -----

  /** The allocation draws what the lots take, from level i on. */
  ghost predicate Draws(r: OrderRequest, levels: seq<Level>, i: nat, lots: seq<Lot>, alloc: seq<nat>)
    requires i <= |levels|
  {
    && Allocation(alloc, levels)
    && AllocUnits(alloc, i) == TotalUnits(lots) && AllocKey(r, alloc, levels, i) == PlanKey(r, lots)
    && (lots != [] ==>
          && i < lots[0].level <= |levels| && lots[0].price == levels[lots[0].level - 1].price
          && alloc[lots[0].level - 1] > 0)
  }

  /** The plan from level i on, as an allocation. */
  lemma {:induction false} PlanAsAllocation(r: OrderRequest, levels: seq<Level>, i: nat, remaining: Option<nat>,
                                            cash: nat)
    returns (alloc: seq<nat>)
    requires ValidLevels(levels) && i <= |levels|
    ensures Draws(r, levels, i, PlanFrom(r, levels, i, remaining, cash), alloc)
    decreases |levels| - i
  {
    hide Take, LessCash, Admits, LessUnits, Draws;
    if i == |levels| {
      alloc := Nothing(r, levels, i);
    } else if !Admits(r, levels[i].price) {
      var rest := PlanAsAllocation(r, levels, i + 1, remaining, cash);
      alloc := DrawStep(r, levels, i, PlanFrom(r, levels, i + 1, remaining, cash), 0, rest);
      assert [] + PlanFrom(r, levels, i + 1, remaining, cash) == PlanFrom(r, levels, i, remaining, cash);
    } else {
      hide PlanFrom;
      var units := Take(r, levels[i], remaining, cash);
      TakeBounds(r, levels[i], remaining, cash);
      var left := LessUnits(remaining, units);
      var rest := PlanAt(r, levels, i, remaining, cash);
      if left == Some(0) {
        alloc := Nothing(r, levels, i + 1);
      } else {
        alloc := PlanAsAllocation(r, levels, i + 1, left, LessCash(r, levels[i], remaining, cash));
      }
      alloc := DrawStep(r, levels, i, rest, units, alloc);
    }
  }

  /** One level more in front. */
  lemma {:induction false} DrawStep(r: OrderRequest, levels: seq<Level>, i: nat, lots: seq<Lot>, units: nat,
                                    alloc: seq<nat>)
    returns (next: seq<nat>)
    requires i < |levels| && units <= levels[i].quantity && Draws(r, levels, i + 1, lots, alloc)
    ensures Draws(r, levels, i, (if units == 0 then [] else [Lot(i + 1, levels[i].price, units)]) + lots, next)
  {
    next := Drawing(r, alloc, levels, i, units);
    var all := (if units == 0 then [] else [Lot(i + 1, levels[i].price, units)]) + lots;
    if units == 0 {
      assert all == lots;
    } else {
      assert all[1..] == lots;
    }
  }

  lemma {:induction false} Nothing(r: OrderRequest, levels: seq<Level>, i: nat) returns (alloc: seq<nat>)
    requires ValidLevels(levels) && i <= |levels|
    ensures Draws(r, levels, i, [], alloc)
    decreases |levels| - i
  {
    if i == |levels| {
      alloc := seq(|levels|, _ => 0);
    } else {
      alloc := Nothing(r, levels, i + 1);
      alloc := Drawing(r, alloc, levels, i, 0);
    }
  }

  /** An allocation from level i + 1 on, with x units of level i before it. */
  lemma {:induction false} Drawing(r: OrderRequest, alloc: seq<nat>, levels: seq<Level>, i: nat, x: nat)
    returns (next: seq<nat>)
    requires Allocation(alloc, levels) && i < |levels| && x <= levels[i].quantity
    ensures next == alloc[i := x] && Allocation(next, levels)
    ensures AllocUnits(next, i) == x + AllocUnits(alloc, i + 1)
    ensures AllocKey(r, next, levels, i) == x * Key(r, levels[i].price) + AllocKey(r, alloc, levels, i + 1)
  {
    next := alloc[i := x];
    Unaffected(r, alloc, levels, i + 1, i, x);
  }

  /** Drawing one unit less from level l. */
  lemma {:induction false} OneLess(r: OrderRequest, alloc: seq<nat>, levels: seq<Level>, i: nat, l: nat)
    returns (next: seq<nat>)
    requires Allocation(alloc, levels) && i <= l < |levels| && alloc[l] > 0
    ensures Allocation(next, levels)
    ensures AllocUnits(next, i) == AllocUnits(alloc, i) - 1
    ensures AllocKey(r, next, levels, i) == AllocKey(r, alloc, levels, i) - Key(r, levels[l].price)
    ensures next == alloc[l := alloc[l] - 1]
    decreases |levels| - i
  {
    hide Key;
    next := alloc[l := alloc[l] - 1];
    if i < l {
      var same := OneLess(r, alloc, levels, i + 1, l);
    } else {
      Unaffected(r, alloc, levels, i + 1, l, alloc[l] - 1);
      var key := Key(r, levels[l].price);
      assert (alloc[l] - 1) * key == alloc[l] * key - key;
    }
  }

  lemma {:induction false} Unaffected(r: OrderRequest, alloc: seq<nat>, levels: seq<Level>, i: nat, l: nat, x: nat)
    requires |alloc| == |levels| && l < i <= |levels|
    ensures AllocUnits(alloc[l := x], i) == AllocUnits(alloc, i)
    ensures AllocKey(r, alloc[l := x], levels, i) == AllocKey(r, alloc, levels, i)
    decreases |levels| - i
  {
    hide Key;
    if i < |levels| {
      Unaffected(r, alloc, levels, i + 1, l, x);
    }
  }

  /** If a level that the cash cuts short is not the last one used, the same units
      can be drawn at a better total. */
  lemma {:induction false} BetterAllocation(r: OrderRequest, levels: seq<Level>, i: nat, remaining: Option<nat>,
                                            cash: nat)
    returns (alloc: seq<nat>)
    requires ValidLevels(levels) && i <= |levels| && StrictlySorted(r, levels)
    requires !CutIsLast(r, levels, i, remaining, cash)
    ensures var plan := PlanFrom(r, levels, i, remaining, cash);
            && Allocation(alloc, levels)
            && AllocUnits(alloc, i) == TotalUnits(plan) && AllocKey(r, alloc, levels, i) < PlanKey(r, plan)
    decreases |levels| - i
  {
    hide Key, Take, LessCash, Admits, Offered, LessUnits, StrictlySorted, Allocation, Draws, PlanFrom, TotalUnits;
    var units, cashLeft := Take(r, levels[i], remaining, cash), LessCash(r, levels[i], remaining, cash);
    TakeBounds(r, levels[i], remaining, cash);
    var left := LessUnits(remaining, units);
    var rest := PlanAt(r, levels, i, remaining, cash);
    if units == Offered(levels[i], remaining) {
      NothingLeftNothingCut(r, levels, i + 1, left, cashLeft);
      alloc := BetterAllocation(r, levels, i + 1, left, cashLeft);
      alloc := Drawing(r, alloc, levels, i, units);
      return;
    }
    CutLevel(r, levels[i], remaining, cash);
    PlansExactlyWhen(r, levels, i + 1, left, cashLeft);
    alloc := PlanAsAllocation(r, levels, i + 1, left, cashLeft);
    alloc := MoveOneUnit(r, levels, i, units, rest, alloc);
  }

  /** One unit of the first later lot, drawn from level i instead. */
  lemma {:induction false} MoveOneUnit(r: OrderRequest, levels: seq<Level>, i: nat, units: nat, rest: seq<Lot>,
                                       alloc: seq<nat>)
    returns (next: seq<nat>)
    requires i < |levels| && units < levels[i].quantity && StrictlySorted(r, levels)
    requires rest != [] && Draws(r, levels, i + 1, rest, alloc)
    ensures Allocation(next, levels) && AllocUnits(next, i) == units + TotalUnits(rest)
    ensures AllocKey(r, next, levels, i) < units * Key(r, levels[i].price) + PlanKey(r, rest)
  {
    hide Key;
    var worse := rest[0].level - 1;
    next := OneLess(r, alloc, levels, i + 1, worse);
    next := Drawing(r, next, levels, i, units + 1);
    assert Key(r, levels[i].price) < Key(r, levels[worse].price);
    assert (units + 1) * Key(r, levels[i].price) == units * Key(r, levels[i].price) + Key(r, levels[i].price);
  }

  /** With nothing left to want no level is cut short. */
  lemma {:induction false} NothingLeftNothingCut(r: OrderRequest, levels: seq<Level>, i: nat, left: Option<nat>,
                                                 cash: nat)
    requires ValidLevels(levels) && i <= |levels|
    ensures left == Some(0) ==> CutIsLast(r, levels, i, left, cash)
    decreases |levels| - i
  {
    if i < |levels| && left == Some(0) {
      NothingTakenNothingSpent(r, levels[i], left, cash);
      NothingLeftNothingCut(r, levels, i + 1, left, cash);
    }
  }

  // ----- the results -----

  /** On the strictly ordered ladders of an order book a plan is optimal if and
      only if a level that the cash cuts short leaves too little for any later
      level inside the limit. */
  lemma {:induction false} OptimalExactlyWhen(r: OrderRequest, levels: seq<Level>, owned: Option<nat>)
    requires ValidLevels(levels) && StrictlySorted(r, levels)
    ensures Optimal(r, levels, PlanOf(r, levels, owned))
       <==> CutIsLast(r, levels, 0, Target(r, owned), CashAmount(r))
  {
    hide PlanFrom, CutIsLast;
    var plan, target := PlanOf(r, levels, owned), Target(r, owned);
    if CutIsLast(r, levels, 0, target, CashAmount(r)) {
      forall alloc: seq<nat> | Allocation(alloc, levels) && AllocUnits(alloc, 0) == TotalUnits(plan)
        ensures PlanKey(r, plan) <= AllocKey(r, alloc, levels, 0)
      {
        PlanBeats(r, levels, 0, target, CashAmount(r), alloc, -DOLLAR_MICROS);
      }
    } else {
      var alloc := BetterAllocation(r, levels, 0, target, CashAmount(r));
    }
  }

  /** Contract amounts are never cut short by cash, so their plans are optimal on
      any sorted ladder. */
  lemma {:induction false} ContractPlanIsOptimal(r: OrderRequest, levels: seq<Level>, owned: Option<nat>)
    requires ValidLevels(levels) && r.amount.Contracts? && Sorted(r, levels)
    ensures Optimal(r, levels, PlanOf(r, levels, owned))
  {
    hide PlanFrom, CutIsLast;
    var plan, target := PlanOf(r, levels, owned), Target(r, owned);
    ContractsAreNotCut(r, levels, 0, target, CashAmount(r));
    forall alloc: seq<nat> | Allocation(alloc, levels) && AllocUnits(alloc, 0) == TotalUnits(plan)
      ensures PlanKey(r, plan) <= AllocKey(r, alloc, levels, 0)
    {
      PlanBeats(r, levels, 0, target, CashAmount(r), alloc, -DOLLAR_MICROS);
    }
  }

  lemma {:induction false} ContractsAreNotCut(r: OrderRequest, levels: seq<Level>, i: nat, remaining: Option<nat>,
                                              cash: nat)
    requires ValidLevels(levels) && i <= |levels| && r.amount.Contracts?
    ensures CutIsLast(r, levels, i, remaining, cash)
    decreases |levels| - i
  {
    if i < |levels| {
      ContractsAreNotCut(r, levels, i + 1, LessUnits(remaining, Take(r, levels[i], remaining, cash)), cash);
    }
  }

  /** Prices that are whole multiples of 100 micro-dollars always leave too little
      after a cut, so there a CASH BUY is optimal. */
  lemma {:induction false} CashBuyIsOptimal(r: OrderRequest, levels: seq<Level>, owned: Option<nat>)
    requires ValidLevels(levels) && StrictlySorted(r, levels) && r.amount.Cash? && r.action.Buy?
    requires forall j :: 0 <= j < |levels| ==> levels[j].price % 100 == 0
    ensures Optimal(r, levels, PlanOf(r, levels, owned))
  {
    GridBuysAreCutLast(r, levels, 0, None, CashAmount(r));
    OptimalExactlyWhen(r, levels, owned);
  }

  lemma {:induction false} GridBuysAreCutLast(r: OrderRequest, levels: seq<Level>, i: nat, remaining: Option<nat>,
                                              cash: nat)
    requires ValidLevels(levels) && i <= |levels| && StrictlySorted(r, levels) && r.amount.Cash? && r.action.Buy?
    requires forall j :: 0 <= j < |levels| ==> levels[j].price % 100 == 0
    ensures CutIsLast(r, levels, i, remaining, cash)
    decreases |levels| - i
  {
    hide Take, LessCash, Admits;
    if i < |levels| {
      var units := Take(r, levels[i], remaining, cash);
      TakeBounds(r, levels[i], remaining, cash);
      GridBuysAreCutLast(r, levels, i + 1, LessUnits(remaining, units), LessCash(r, levels[i], remaining, cash));
      if units != Offered(levels[i], remaining) {
        CutLeavesLess(r, levels[i], remaining, cash);
        assert forall j :: i < j < |levels| ==> levels[i].price < levels[j].price by {
          assert forall j :: i < j < |levels| ==> Key(r, levels[i].price) < Key(r, levels[j].price);
        }
      }
    }
  }

  /** On a grid of whole micro-dollars per unit a cut level leaves less cash than
      one of its units costs. */
  lemma {:induction false} CutLeavesLess(r: OrderRequest, level: Level, remaining: Option<nat>, cash: nat)
    requires ValidLevel(level) && level.price % 100 == 0
    requires Take(r, level, remaining, cash) != Offered(level, remaining)
    ensures LessCash(r, level, remaining, cash) * 100 < level.price
  {
    var units, price := Take(r, level, remaining, cash), level.price;
    assert units == cash * 100 / price;
    assert cash * 100 == price * (cash * 100 / price) + cash * 100 % price;
    assert Mul(units, price) == price * units == 100 * (units * (price / 100)) by {
      assert price == 100 * (price / 100);
    }
    TakeWithinCash(r, level, remaining, cash);
    GrossCashIsNearest(units, price);
  }

  /** Plans that are not optimal exist on both sides: a SELL whose amount leaves
      cash for a worse bid, and a BUY off the 100 micro-dollar grid. */
  lemma {:induction false} CashSellIsNotOptimal()
    ensures exists r: OrderRequest, levels, owned ::
              && r.action.Sell? && ValidLevels(levels) && StrictlySorted(r, levels)
              && !Optimal(r, levels, PlanOf(r, levels, owned))
  {
    var r := OrderRequest(0, 0, Yes, Sell, Cash(1_000_000), 0, None, Ioc);
    var bids := [Level(700_000, 1_000), Level(500_000, 1_000)];
    CutTooEarly(r, bids, Some(2_000), 142, 6_000);
    OptimalExactlyWhen(r, bids, Some(2_000));
  }

  lemma {:induction false} CashBuyIsNotOptimal()
    ensures exists r: OrderRequest, levels, owned ::
              && r.action.Buy? && ValidLevels(levels) && StrictlySorted(r, levels)
              && !Optimal(r, levels, PlanOf(r, levels, owned))
  {
    var r := OrderRequest(0, 0, Yes, Buy, Cash(168_047), 0, None, Ioc);
    var asks := [Level(200_056, 1_000), Level(200_057, 1_000)];
    CutTooEarly(r, asks, None, 83, 2_001);
    OptimalExactlyWhen(r, asks, None);
  }

  /** Two levels without a limit, the first cut short and the second affordable. */
  lemma {:induction false} CutTooEarly(r: OrderRequest, levels: seq<Level>, remaining: Option<nat>, units: nat,
                                       left: nat)
    requires ValidLevels(levels) && |levels| == 2 && r.limit.None? && r.amount.Cash?
    requires levels[0].price > 0 && r.amount.micros * 100 / levels[0].price == units < Offered(levels[0], remaining)
    requires r.amount.micros - GrossCash(units, levels[0].price) == left && levels[1].price <= 100 * left
    ensures !CutIsLast(r, levels, 0, remaining, r.amount.micros)
  {
    assert Take(r, levels[0], remaining, r.amount.micros) == units;
    assert Admits(r, levels[1].price);
  }
}
