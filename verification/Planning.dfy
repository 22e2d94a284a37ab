/** Turning an order into fills: the greedy plan over a price ladder, and the
    backward sweep of binary searches that cuts a BUY plan to the cash at hand
    (src/vtrade/broker.py). */
module Planning {
  import opened Domain
  import opened Fees

  datatype Level = Level(price: int, quantity: int)

  predicate ValidLevel(l: Level) {
    0 <= l.price <= DOLLAR_MICROS && 0 < l.quantity
  }

  datatype Amount = Contracts(units: pos) | Cash(micros: pos)

  datatype TimeInForce = Ioc | Fok

  /** The semantic order; equality of requests stands for equal fingerprints. */
  datatype OrderRequest = OrderRequest(
    agent: AgentId, market: MarketRef, outcome: OutcomeSide, action: Side, amount: Amount,
    idempotencyKey: int, limit: Option<Price>, timeInForce: TimeInForce)
  {
    function Key(): PositionKey {
      PositionKey(market, outcome)
    }
  }

  ghost predicate ValidLevels(levels: seq<Level>) {
    forall i :: 0 <= i < |levels| ==> ValidLevel(levels[i])
  }

  // ----- the greedy plan -----

  predicate Admits(r: OrderRequest, price: int) {
    match r.limit
    case None => true
    case Some(limit) => if r.action.Buy? then price <= limit else price >= limit
  }

  /** Units the order still wants at the start: none stated for a CASH BUY, and
      never more than the position for a SELL. */
  function Target(r: OrderRequest, owned: Option<nat>): Option<nat> {
    var asked := if r.amount.Contracts? then Some(r.amount.units) else None;
    if r.action.Buy? || owned.None? then asked
    else if asked.None? || owned.value <= asked.value then owned
    else asked
  }

  /** Units a level offers the order, cash aside. */
  function Offered(level: Level, remaining: Option<nat>): nat
    requires ValidLevel(level)
  {
    if remaining.Some? && remaining.value < level.quantity then remaining.value else level.quantity
  }

  /** Units taken from one admissible level. */
  function Take(r: OrderRequest, level: Level, remaining: Option<nat>, cash: nat): nat
    requires ValidLevel(level)
  {
    var quantity := Offered(level, remaining);
    if r.amount.Contracts? || level.price == 0 then quantity
    else
      var affordable := cash * 100 / level.price;
      if affordable < quantity then affordable else quantity
  }

  function LessUnits(remaining: Option<nat>, units: nat): Option<nat>
    requires remaining.Some? ==> units <= remaining.value
  {
    if remaining.None? then None else Some(remaining.value - units)
  }

  /** What is taken against a cash amount never costs more than that cash. */
  lemma {:induction false} TakeWithinCash(r: OrderRequest, level: Level, remaining: Option<nat>, cash: nat)
    requires ValidLevel(level) && r.amount.Cash?
    ensures GrossCash(Take(r, level, remaining, cash), level.price) <= cash
  {
    var units := Take(r, level, remaining, cash);
    if level.price != 0 {
      MulMonotone(units, cash * 100 / level.price, level.price);
    }
    GrossCashWithin(units, level.price, cash);
  }

  function LessCash(r: OrderRequest, level: Level, remaining: Option<nat>, cash: nat): nat
    requires ValidLevel(level)
  {
    if r.amount.Contracts? then cash
    else
      TakeWithinCash(r, level, remaining, cash);
      cash - GrossCash(Take(r, level, remaining, cash), level.price)
  }

  /** The plan from level i on, given what is still wanted. Levels beyond a
      limit are passed over; the plan stops when nothing is wanted any more. */
  function PlanFrom(r: OrderRequest, levels: seq<Level>, i: nat, remaining: Option<nat>, cash: nat): seq<Lot>
    requires ValidLevels(levels) && i <= |levels|
    decreases |levels| - i
  {
    if i == |levels| then []
    else if !Admits(r, levels[i].price) || Take(r, levels[i], remaining, cash) == 0 then
      PlanFrom(r, levels, i + 1, remaining, cash)
    else
      var units := Take(r, levels[i], remaining, cash);
      var left := LessUnits(remaining, units);
      [Lot(i + 1, levels[i].price, units)] +
      (if left == Some(0) then [] else PlanFrom(r, levels, i + 1, left, LessCash(r, levels[i], remaining, cash)))
  }

  function CashAmount(r: OrderRequest): nat {
    if r.amount.Cash? then r.amount.micros else 0
  }

  /** BinaryPaperBroker._plan as a value: `owned` is the size of the position. */
  function PlanOf(r: OrderRequest, levels: seq<Level>, owned: Option<nat>): seq<Lot>
    requires ValidLevels(levels)
  {
    PlanFrom(r, levels, 0, Target(r, owned), CashAmount(r))
  }

  /** BinaryPaperBroker._plan: one pass over the ladder. */
  method Plan(r: OrderRequest, levels: seq<Level>, owned: Option<nat>) returns (planned: seq<Lot>)
    requires ValidLevels(levels)
    ensures planned == PlanOf(r, levels, owned)
    ensures HonoursLimit(r, levels, owned, planned)
  {
    PlanHonoursLimit(r, levels, owned);
    var remaining := Target(r, owned);
    var cashRemaining: nat := CashAmount(r);
    planned := [];
    for i := 0 to |levels|
      invariant PlanOf(r, levels, owned) == planned + PlanFrom(r, levels, i, remaining, cashRemaining)
    {
      if Admits(r, levels[i].price) {
        var quantity := Take(r, levels[i], remaining, cashRemaining);
        if quantity > 0 {
          planned := planned + [Lot(i + 1, levels[i].price, quantity)];
          cashRemaining := LessCash(r, levels[i], remaining, cashRemaining);
          remaining := LessUnits(remaining, quantity);
          if remaining == Some(0) {
            break;
          }
        }
      }
    }
  }

  function TotalUnits(lots: seq<Lot>): (total: int)
    ensures (forall k :: 0 <= k < |lots| ==> lots[k].units >= 0) ==> total >= 0
  {
    if lots == [] then 0 else lots[0].units + TotalUnits(lots[1..])
  }

  ghost function TotalGross(lots: seq<Lot>): int
    requires ValidLots(lots)
  {
    if lots == [] then 0 else GrossCash(lots[0].units, lots[0].price) + TotalGross(lots[1..])
  }

  /** Lots taken from the ladder: in ladder order, at the ladder's prices, within
      each level's quantity and inside the limit. */
  ghost predicate FromLadder(r: OrderRequest, lots: seq<Lot>, levels: seq<Level>, first: nat) {
    && ValidLots(lots)
    && (forall k :: 0 <= k < |lots| ==>
          && first < lots[k].level <= |levels|
          && lots[k].price == levels[lots[k].level - 1].price
          && lots[k].units <= levels[lots[k].level - 1].quantity
          && Admits(r, lots[k].price))
    && (forall k, l :: 0 <= k < l < |lots| ==> lots[k].level < lots[l].level)
  }

  /** Units the ladder offers inside the limit, from level i on. */
  ghost function AdmissibleDepth(r: OrderRequest, levels: seq<Level>, i: nat): int
    requires i <= |levels|
    decreases |levels| - i
  {
    if i == |levels| then 0
    else (if Admits(r, levels[i].price) then levels[i].quantity else 0) + AdmissibleDepth(r, levels, i + 1)
  }

  lemma {:induction false} DepthNotNegative(r: OrderRequest, levels: seq<Level>, i: nat)
    requires ValidLevels(levels) && i <= |levels|
    ensures AdmissibleDepth(r, levels, i) >= 0
    decreases |levels| - i
  {
    if i < |levels| {
      DepthNotNegative(r, levels, i + 1);
    }
  }

  lemma {:induction false} TakeBounds(r: OrderRequest, level: Level, remaining: Option<nat>, cash: nat)
    requires ValidLevel(level)
    ensures var units := Take(r, level, remaining, cash);
            && units <= level.quantity
            && (remaining.Some? ==> units <= remaining.value)
            && (r.amount.Contracts? ==> units == level.quantity || Some(units) == remaining)
  {
  }

  lemma {:induction false} PlanFromLadder(r: OrderRequest, levels: seq<Level>, i: nat, remaining: Option<nat>,
                                          cash: nat)
    requires ValidLevels(levels) && i <= |levels|
    ensures FromLadder(r, PlanFrom(r, levels, i, remaining, cash), levels, i)
    decreases |levels| - i
  {
    hide Take, LessCash, Admits, LessUnits, FromLadder;
    EmptyFromLadder(r, levels, i);
    if i < |levels| {
      var units := Take(r, levels[i], remaining, cash);
      TakeBounds(r, levels[i], remaining, cash);
      if !Admits(r, levels[i].price) || units == 0 {
        PlanFromLadder(r, levels, i + 1, remaining, cash);
        LadderHead(r, PlanFrom(r, levels, i + 1, remaining, cash), levels, i, 0);
      } else {
        var left, cashLeft := LessUnits(remaining, units), LessCash(r, levels[i], remaining, cash);
        PlanFromLadder(r, levels, i + 1, left, cashLeft);
        EmptyFromLadder(r, levels, i + 1);
        LadderHead(r, if left == Some(0) then [] else PlanFrom(r, levels, i + 1, left, cashLeft), levels, i, units);
      }
    }
  }

  lemma {:induction false} EmptyFromLadder(r: OrderRequest, levels: seq<Level>, i: nat)
    ensures FromLadder(r, [], levels, i)
  {
  }

  /** Lots from level i + 1 on, and before them some units of level i. */
  lemma {:induction false} LadderHead(r: OrderRequest, rest: seq<Lot>, levels: seq<Level>, i: nat, units: nat)
    requires i < |levels| && ValidLevels(levels) && FromLadder(r, rest, levels, i + 1)
    requires units <= levels[i].quantity && (units > 0 ==> Admits(r, levels[i].price))
    ensures FromLadder(r, rest, levels, i)
    ensures units > 0 ==> FromLadder(r, [Lot(i + 1, levels[i].price, units)] + rest, levels, i)
  {
    hide Admits;
  }

  /** A plan against a cash amount never plans more gross cash than that. */
  lemma {:induction false} PlanFromWithinCash(r: OrderRequest, levels: seq<Level>, i: nat, remaining: Option<nat>,
                                              cash: nat)
    requires ValidLevels(levels) && i <= |levels| && r.amount.Cash?
    requires ValidLots(PlanFrom(r, levels, i, remaining, cash))
    ensures TotalGross(PlanFrom(r, levels, i, remaining, cash)) <= cash
    decreases |levels| - i
  {
    hide Take, GrossCash;
    if i < |levels| {
      var units := Take(r, levels[i], remaining, cash);
      if !Admits(r, levels[i].price) || units == 0 {
        PlanFromWithinCash(r, levels, i + 1, remaining, cash);
      } else {
        var left, cashLeft := LessUnits(remaining, units), LessCash(r, levels[i], remaining, cash);
        PlanFromLadder(r, levels, i + 1, left, cashLeft);
        PlanFromWithinCash(r, levels, i + 1, left, cashLeft);
        var rest := if left == Some(0) then [] else PlanFrom(r, levels, i + 1, left, cashLeft);
        assert PlanFrom(r, levels, i, remaining, cash)[1..] == rest;
      }
    }
  }

  /** With a known target the plan takes at most that, and for contract amounts
      exactly the smaller of the target and the admissible depth. */
  lemma {:induction false} PlanFromUnits(r: OrderRequest, levels: seq<Level>, i: nat, remaining: nat, cash: nat)
    requires ValidLevels(levels) && i <= |levels|
    ensures var total := TotalUnits(PlanFrom(r, levels, i, Some(remaining), cash));
            var depth := AdmissibleDepth(r, levels, i);
            && total <= remaining
            && (r.amount.Contracts? ==> total == if remaining <= depth then remaining else depth)
    decreases |levels| - i
  {
    hide Take, LessCash;
    if i < |levels| {
      var units := Take(r, levels[i], Some(remaining), cash);
      TakeBounds(r, levels[i], Some(remaining), cash);
      DepthNotNegative(r, levels, i + 1);
      if !Admits(r, levels[i].price) || units == 0 {
        PlanFromUnits(r, levels, i + 1, remaining, cash);
      } else {
        var left, cashLeft := remaining - units, LessCash(r, levels[i], Some(remaining), cash);
        PlanFromUnits(r, levels, i + 1, left, cashLeft);
        var rest := if left == 0 then [] else PlanFrom(r, levels, i + 1, Some(left), cashLeft);
        assert PlanFrom(r, levels, i, Some(remaining), cash)[1..] == rest;
      }
    }
  }

  /** The same facts for a whole plan. */
  lemma {:induction false} PlanIsGreedy(r: OrderRequest, levels: seq<Level>, owned: Option<nat>)
    requires ValidLevels(levels)
    ensures var plan := PlanOf(r, levels, owned);
            && FromLadder(r, plan, levels, 0)
            && (r.amount.Cash? ==> TotalGross(plan) <= r.amount.micros)
            && (r.action.Sell? && owned.Some? ==> TotalUnits(plan) <= owned.value)
            && (r.amount.Contracts? ==>
                  var depth, target := AdmissibleDepth(r, levels, 0), Target(r, owned).value;
                  TotalUnits(plan) == if target <= depth then target else depth)
  {
    hide PlanFrom;
    var target := Target(r, owned);
    PlanFromLadder(r, levels, 0, target, CashAmount(r));
    if r.amount.Cash? {
      PlanFromWithinCash(r, levels, 0, target, CashAmount(r));
    }
    if target.Some? {
      PlanFromUnits(r, levels, 0, target.value, CashAmount(r));
    }
  }

  /** Quantity on the levels priced at the limit or better, level by level. */
  ghost function DepthInside(levels: seq<Level>, action: Side, limit: Option<Price>): int {
    if levels == [] then 0
    else
      (match (action, limit)
       case (_, None) => levels[0].quantity
       case (Buy, Some(most)) => if levels[0].price <= most then levels[0].quantity else 0
       case (Sell, Some(least)) => if least <= levels[0].price then levels[0].quantity else 0)
      + DepthInside(levels[1..], action, limit)
  }

  lemma {:induction false} DepthIsInside(r: OrderRequest, levels: seq<Level>, i: nat)
    requires i <= |levels|
    ensures AdmissibleDepth(r, levels, i) == DepthInside(levels[i..], r.action, r.limit)
    decreases |levels| - i
  {
    if i < |levels| {
      DepthIsInside(r, levels, i + 1);
      assert levels[i..][1..] == levels[i+1..];
    }
  }

  /** The limit, in plain comparisons: a BUY never takes a level above it and a SELL
      none below it. A contract order takes all that the levels at the limit or
      better hold, up to what it asks for, or up to the position on a SELL. */
  ghost predicate HonoursLimit(r: OrderRequest, levels: seq<Level>, owned: Option<nat>, plan: seq<Lot>) {
    && (forall k :: 0 <= k < |plan| && r.limit.Some? ==>
          if r.action.Buy? then plan[k].price <= r.limit.value else r.limit.value <= plan[k].price)
    && (r.amount.Contracts? ==>
          var asked, depth := r.amount.units, DepthInside(levels, r.action, r.limit);
          var target := if r.action.Sell? && owned.Some? && owned.value < asked then owned.value else asked;
          TotalUnits(plan) == if target <= depth then target else depth)
  }

  lemma {:induction false} PlanHonoursLimit(r: OrderRequest, levels: seq<Level>, owned: Option<nat>)
    requires ValidLevels(levels)
    ensures HonoursLimit(r, levels, owned, PlanOf(r, levels, owned))
  {
    hide PlanFrom;
    PlanIsGreedy(r, levels, owned);
    DepthIsInside(r, levels, 0);
    assert levels[0..] == levels;
    var plan := PlanOf(r, levels, owned);
    assert forall k :: 0 <= k < |plan| ==> Admits(r, plan[k].price);
  }

  /** With nothing left to want there is nothing to plan. */
  lemma {:induction false} NothingWantedNothingPlanned(r: OrderRequest, levels: seq<Level>, i: nat, cash: nat)
    requires ValidLevels(levels) && i <= |levels|
    ensures PlanFrom(r, levels, i, Some(0), cash) == []
    decreases |levels| - i
  {
    if i < |levels| {
      NothingWantedNothingPlanned(r, levels, i + 1, cash);
    }
  }

  // ----- a CASH plan uses its cash -----

  /** Units a plan takes from a ladder level. */
  function TakenAt(lots: seq<Lot>, level: nat): int {
    if lots == [] then 0 else (if lots[0].level == level then lots[0].units else 0) + TakenAt(lots[1..], level)
  }

  lemma {:induction false} TakesOnlyItsLevels(lots: seq<Lot>, level: nat)
    requires forall k :: 0 <= k < |lots| ==> level < lots[k].level
    ensures TakenAt(lots, level) == 0
  {
    if lots != [] {
      TakesOnlyItsLevels(lots[1..], level);
    }
  }

  /** A cut level leaves at most the cash of one more of its units. */
  lemma {:induction false} CutLeavesAtMostOne(r: OrderRequest, level: Level, remaining: Option<nat>, cash: nat)
    requires ValidLevel(level) && r.amount.Cash?
    requires var units := Take(r, level, remaining, cash); units < level.quantity && Some(units) != remaining
    ensures LessCash(r, level, remaining, cash) <= GrossCash(1, level.price)
  {
    var units, price := Take(r, level, remaining, cash), level.price;
    assert units == cash * 100 / price;
    assert cash * 100 == price * (cash * 100 / price) + cash * 100 % price;
    assert Mul(units, price) == price * units;
    GrossCashIsNearest(units, price);
  }

  /** The first level's share of a plan, and the totals it adds. */
  lemma {:induction false} PlanHead(r: OrderRequest, levels: seq<Level>, i: nat, remaining: Option<nat>, cash: nat)
    returns (left: Option<nat>, cashLeft: nat, rest: seq<Lot>)
    requires ValidLevels(levels) && i < |levels| && r.amount.Cash?
    ensures var plan := PlanFrom(r, levels, i, remaining, cash);
            var units := if Admits(r, levels[i].price) then Take(r, levels[i], remaining, cash) else 0;
            && ValidLots(plan) && ValidLots(rest)
            && left == (if remaining.Some? then Some(remaining.value - units) else None)
            && cashLeft == cash - GrossCash(units, levels[i].price)
            && rest == (if units > 0 && left == Some(0) then [] else PlanFrom(r, levels, i + 1, left, cashLeft))
            && TotalUnits(plan) == units + TotalUnits(rest)
            && TotalGross(plan) == GrossCash(units, levels[i].price) + TotalGross(rest) && 0 <= TotalGross(rest)
            && TakenAt(plan, i + 1) == units
            && (forall l: nat :: l != i + 1 ==> TakenAt(plan, l) == TakenAt(rest, l))
  {
    hide Take, LessCash, GrossCash;
    var plan := PlanFrom(r, levels, i, remaining, cash);
    var price := levels[i].price;
    var units := if Admits(r, price) then Take(r, levels[i], remaining, cash) else 0;
    TakeBounds(r, levels[i], remaining, cash);
    SpentHere(r, levels[i], remaining, cash);
    NothingIsFree(price);
    left := LessUnits(remaining, units);
    cashLeft := if Admits(r, price) then LessCash(r, levels[i], remaining, cash) else cash;
    PlanFromLadder(r, levels, i + 1, left, cashLeft);
    rest := if units > 0 && left == Some(0) then [] else PlanFrom(r, levels, i + 1, left, cashLeft);
    TakesOnlyItsLevels(rest, i + 1);
    GrossNotNegative(rest);
    if units > 0 {
      assert plan == [Lot(i + 1, price, units)] + rest;
      assert plan[1..] == rest;
    } else {
      assert plan == rest;
    }
  }

  lemma {:induction false} NothingIsFree(price: Price)
    ensures GrossCash(0, price) == 0
  {
  }

  lemma {:induction false} PlanFromSpends(r: OrderRequest, levels: seq<Level>, i: nat, remaining: Option<nat>,
                                          cash: nat, j: nat)
    requires ValidLevels(levels) && i <= j < |levels| && r.amount.Cash? && Admits(r, levels[j].price)
    requires ValidLots(PlanFrom(r, levels, i, remaining, cash))
    ensures var plan := PlanFrom(r, levels, i, remaining, cash);
            || TakenAt(plan, j + 1) == levels[j].quantity
            || remaining == Some(TotalUnits(plan))
            || cash - TotalGross(plan) <= GrossCash(1, levels[j].price)
    decreases |levels| - i
  {
    hide PlanFrom, Take, LessCash, GrossCash, TakenAt, TotalGross, TotalUnits;
    var left, cashLeft, rest := PlanHead(r, levels, i, remaining, cash);
    NothingLeft();
    var units := Take(r, levels[i], remaining, cash);
    TakeBounds(r, levels[i], remaining, cash);
    SpentHere(r, levels[i], remaining, cash);
    if remaining == Some(0) {
      NothingWantedNothingPlanned(r, levels, i, cash);
    } else if j == i {
      if units < levels[i].quantity && Some(units) != remaining {
        CutLeavesAtMostOne(r, levels[i], remaining, cash);
      }
    } else if left != Some(0) {
      PlanFromSpends(r, levels, i + 1, left, cashLeft, j);
    }
  }

  lemma {:induction false} NothingLeft()
    ensures TotalUnits([]) == 0
  {
  }

  lemma {:induction false} SpentHere(r: OrderRequest, level: Level, remaining: Option<nat>, cash: nat)
    requires ValidLevel(level) && r.amount.Cash?
    ensures LessCash(r, level, remaining, cash) == cash - GrossCash(Take(r, level, remaining, cash), level.price)
  {
  }

  lemma {:induction false} GrossNotNegative(lots: seq<Lot>)
    requires ValidLots(lots)
    ensures TotalGross(lots) >= 0
  {
    if lots != [] {
      GrossNotNegative(lots[1..]);
    }
  }

  /** A CASH plan leaves a level at the limit or better unfinished only when a SELL
      has used up the position, or when what is left of the cash amount is at most
      one more unit of that level. */
  lemma {:induction false} CashPlanSpends(r: OrderRequest, levels: seq<Level>, owned: Option<nat>, j: nat)
    requires ValidLevels(levels) && j < |levels| && r.amount.Cash?
    requires r.limit.Some? ==>
               if r.action.Buy? then levels[j].price <= r.limit.value else r.limit.value <= levels[j].price
    ensures var plan := PlanOf(r, levels, owned);
            && ValidLots(plan)
            && (|| TakenAt(plan, j + 1) == levels[j].quantity
                || (r.action.Sell? && owned == Some(TotalUnits(plan)))
                || r.amount.micros - TotalGross(plan) <= GrossCash(1, levels[j].price))
  {
    PlanIsGreedy(r, levels, owned);
    PlanFromSpends(r, levels, 0, Target(r, owned), CashAmount(r), j);
  }
}
