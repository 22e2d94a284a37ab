/** Cutting a BUY plan to the cash at hand: a backward sweep of binary searches,
    proved equal to a linear search for the longest affordable prefix
    (src/vtrade/broker.py). */
module Fitting {
  import opened Domain
  import opened Fees
  import opened Planning

  /** The first m units of a plan: whole lots, then one cut lot, then nothing. */
  function Prefix(plan: seq<Lot>, m: nat): (p: seq<Lot>)
    requires ValidLots(plan)
    ensures ValidLots(p) && |p| <= |plan|
    ensures forall k :: 0 <= k < |p| ==> p[k].level == plan[k].level && NoLarger(p[k], plan[k])
  {
    if plan == [] || m == 0 then []
    else if plan[0].units <= m then [plan[0]] + Prefix(plan[1..], m - plan[0].units)
    else [plan[0].(units := m)]
  }

  /** The largest number of units, at most m, whose prefix the cash covers. */
  function LongestAffordable(plan: seq<Lot>, policy: FeePolicy, cash: nat, m: nat): (k: nat)
    requires ValidLots(plan)
    ensures k <= m
    ensures k > 0 ==> BuyCost(Prefix(plan, k), policy) <= cash
    ensures forall n: nat :: k < n <= m ==> cash < BuyCost(Prefix(plan, n), policy)
  {
    if m == 0 || BuyCost(Prefix(plan, m), policy) <= cash then m
    else LongestAffordable(plan, policy, cash, m - 1)
  }

  /** BinaryPaperBroker._fit_cash_budget as a value. */
  function FitOf(plan: seq<Lot>, policy: FeePolicy, action: Side, cash: nat): (p: seq<Lot>)
    requires ValidLots(plan)
    ensures ValidLots(p)
  {
    if action.Sell? then plan else Prefix(plan, LongestAffordable(plan, policy, cash, TotalUnits(plan)))
  }

  // ----- prefixes and their cost -----

  lemma {:induction false} PrefixMonotone(s: Spend, t: Spend, plan: seq<Lot>, m: nat, n: nat, policy: FeePolicy)
    requires ValidLots(plan) && m <= n
    requires 0 <= s.acc < CENT_MICROS && 0 <= t.acc < CENT_MICROS && NoCheaper(s, t)
    ensures NoCheaper(BuyAll(s, Prefix(plan, m), policy), BuyAll(t, Prefix(plan, n), policy))
    decreases |plan|
  {
    hide BuyOne;
    if plan != [] {
      var u := plan[0].units;
      var a, b := if m < u then m else u, if n < u then n else u;
      var small, large := plan[0].(units := a), plan[0].(units := b);
      BuyKeepsOrder(s, t, small, policy);
      BuyGrows(t, small, large, policy);
      PrefixHead(s, plan, m, policy);
      PrefixHead(t, plan, n, policy);
      PrefixMonotone(BuyOne(s, small, policy), BuyOne(t, large, policy), plan[1..], m - a, n - b, policy);
    }
  }

  /** A prefix buys its share of the first lot, then a prefix of the rest. */
  lemma {:induction false} PrefixHead(s: Spend, plan: seq<Lot>, m: nat, policy: FeePolicy)
    requires ValidLots(plan) && plan != [] && 0 <= s.acc < CENT_MICROS
    ensures var a := if m < plan[0].units then m else plan[0].units;
            BuyAll(s, Prefix(plan, m), policy)
            == BuyAll(BuyOne(s, plan[0].(units := a), policy), Prefix(plan[1..], m - a), policy)
  {
    if m == 0 {
      assert Prefix(plan[1..], 0) == [];
    } else if plan[0].units <= m {
      assert Prefix(plan, m)[1..] == Prefix(plan[1..], m - plan[0].units);
    } else {
      assert Prefix(plan, m)[1..] == [] == Prefix(plan[1..], 0);
    }
  }

  lemma {:induction false} CostMonotone(plan: seq<Lot>, m: nat, n: nat, policy: FeePolicy)
    requires ValidLots(plan) && m <= n
    ensures BuyCost(Prefix(plan, m), policy) <= BuyCost(Prefix(plan, n), policy)
  {
    PrefixMonotone(Spend(0, 0), Spend(0, 0), plan, m, n, policy);
  }

  /** The first affordable prefix that one more unit would break is the longest. */
  lemma {:induction false} LongestIsUnique(plan: seq<Lot>, policy: FeePolicy, cash: nat, m: nat, k: nat)
    requires ValidLots(plan) && k <= m
    requires BuyCost(Prefix(plan, k), policy) <= cash
    requires k < m ==> cash < BuyCost(Prefix(plan, k + 1), policy)
    ensures LongestAffordable(plan, policy, cash, m) == k
  {
    var l := LongestAffordable(plan, policy, cash, m);
    if k < l {
      CostMonotone(plan, k + 1, l, policy);
    }
  }

  lemma {:induction false} TotalUnitsConcat(p: seq<Lot>, q: seq<Lot>)
    ensures TotalUnits(p + q) == TotalUnits(p) + TotalUnits(q)
  {
    if p == [] {
      assert p + q == q;
    } else {
      assert (p + q)[1..] == p[1..] + q;
      TotalUnitsConcat(p[1..], q);
    }
  }

  /** Whole lots up to i and q units of lot i, as a prefix. */
  lemma {:induction false} PrefixAt(plan: seq<Lot>, i: nat, q: nat)
    requires ValidLots(plan) && i < |plan| && q <= plan[i].units
    ensures Prefix(plan, TotalUnits(plan[..i]) + q)
         == plan[..i] + if q == 0 then [] else [plan[i].(units := q)]
  {
    hide Prefix, TotalUnits;
    if i == 0 {
      assert plan[..0] == [];
      PrefixInFirst(plan, q);
    } else {
      var rest := plan[1..];
      assert plan[..i][1..] == rest[..i-1] && plan[..i] == [plan[0]] + rest[..i-1];
      PrefixAt(rest, i - 1, q);
      UnitsHead(plan[..i]);
      PrefixBeyondFirst(plan, TotalUnits(rest[..i-1]) + q);
    }
  }

  lemma {:induction false} PrefixInFirst(plan: seq<Lot>, q: nat)
    requires ValidLots(plan) && plan != [] && q <= plan[0].units
    ensures TotalUnits([]) == 0
    ensures Prefix(plan, q) == if q == 0 then [] else [plan[0].(units := q)]
  {
    assert Prefix(plan[1..], 0) == [];
  }

  lemma {:induction false} PrefixBeyondFirst(plan: seq<Lot>, m: nat)
    requires ValidLots(plan) && plan != []
    ensures Prefix(plan, plan[0].units + m) == [plan[0]] + Prefix(plan[1..], m)
  {
  }

  lemma {:induction false} UnitsHead(plan: seq<Lot>)
    requires plan != []
    ensures TotalUnits(plan) == plan[0].units + TotalUnits(plan[1..])
  {
  }

  lemma {:induction false} WholePrefix(plan: seq<Lot>)
    requires ValidLots(plan)
    ensures Prefix(plan, TotalUnits(plan)) == plan
  {
    if plan != [] {
      WholePrefix(plan[1..]);
    }
  }

  // ----- the sweep -----

  /** The list with its lot at `index` cut to `units`, and dropped at zero. */
  function Candidate(items: seq<Lot>, index: nat, units: nat): (c: seq<Lot>)
    requires ValidLots(items) && index < |items|
    ensures ValidLots(c)
  {
    items[..index] + (if units == 0 then [] else [items[index].(units := units)]) + items[index+1..]
  }

  lemma {:induction false} CandidateCost(items: seq<Lot>, index: nat, units: nat, policy: FeePolicy)
    requires ValidLots(items) && index < |items|
    ensures BuyCost(Candidate(items, index, units), policy)
         == BuyAll(BuyOne(BuyAll(Spend(0, 0), items[..index], policy), items[index].(units := units), policy),
                   items[index+1..], policy).cost
  {
    var cut := if units == 0 then [] else [items[index].(units := units)];
    BuyAllConcat(Spend(0, 0), items[..index], cut + items[index+1..], policy);
    assert items[..index] + (cut + items[index+1..]) == Candidate(items, index, units);
    BuyAllConcat(BuyAll(Spend(0, 0), items[..index], policy), cut, items[index+1..], policy);
  }

  lemma {:induction false} CandidateMonotone(items: seq<Lot>, index: nat, units: nat, more: nat, policy: FeePolicy)
    requires ValidLots(items) && index < |items| && units <= more
    ensures BuyCost(Candidate(items, index, units), policy) <= BuyCost(Candidate(items, index, more), policy)
  {
    hide BuyOne, BuyCost, Candidate;
    var s := BuyAll(Spend(0, 0), items[..index], policy);
    var small, large := items[index].(units := units), items[index].(units := more);
    CandidateCost(items, index, units, policy);
    CandidateCost(items, index, more, policy);
    BuyGrows(s, small, large, policy);
    BuyAllMonotone(BuyOne(s, small, policy), BuyOne(s, large, policy), items[index+1..], items[index+1..], policy);
  }

  lemma {:induction false} WholeCandidate(items: seq<Lot>, index: nat)
    requires ValidLots(items) && index < |items|
    ensures Candidate(items, index, items[index].units) == items
  {
  }

  /** While nothing fits yet, a candidate is a prefix of the plan. */
  lemma {:induction false} CandidateIsPrefix(planned: seq<Lot>, index: nat, units: nat)
    requires ValidLots(planned) && index < |planned| && units <= planned[index].units
    ensures Candidate(planned[..index+1], index, units) == Prefix(planned, TotalUnits(planned[..index]) + units)
    ensures TotalUnits(planned[..index]) + units <= TotalUnits(planned)
  {
    PrefixAt(planned, index, units);
    assert planned[..index+1][..index] == planned[..index];
    TotalUnitsConcat(planned[..index], planned[index..]);
    assert planned[..index] + planned[index..] == planned;
    assert TotalUnits(planned[index..]) == planned[index].units + TotalUnits(planned[index..][1..]);
  }

  /** Gross plus net fees of a BUY list, through the fee calculator. */
  method CostOf(lots: seq<Lot>, policy: FeePolicy) returns (total: int)
    requires ValidLots(lots)
    ensures total == BuyCost(lots, policy)
  {
    var calculations := CalculateFills(lots, policy, Side.Buy);
    total := SumGross(calculations.value) + SumNet(calculations.value);
    BuyAllIsFeeRun(Spend(0, 0), lots, policy);
  }

  /** What the binary search promises about one level. */
  ghost predicate Searched(items: seq<Lot>, index: nat, policy: FeePolicy, budget: nat,
                           best: Option<seq<Lot>>, units: nat)
    requires ValidLots(items) && index < |items|
  {
    && (best.None? ==> units == 0 && budget < BuyCost(Candidate(items, index, 0), policy))
    && (best.Some? ==>
          && units <= items[index].units && best.value == Candidate(items, index, units)
          && BuyCost(best.value, policy) <= budget
          && (units < items[index].units ==> budget < BuyCost(Candidate(items, index, units + 1), policy)))
  }

  /** Binary search for the largest quantity at one level that the cash covers,
      every other level fixed. Sound only because cost is monotone in quantity. */
  method LargestFitting(items: seq<Lot>, index: nat, policy: FeePolicy, budget: nat)
    returns (best: Option<seq<Lot>>, ghost units: nat)
    requires ValidLots(items) && index < |items|
    ensures Searched(items, index, policy, budget, best, units)
    ensures exists u: nat :: Searched(items, index, policy, budget, best, u)
  {
    hide BuyCost, Candidate;
    var low, high := 0, items[index].units;
    best, units := None, 0;
    while low <= high
      invariant 0 <= low <= high + 1 <= items[index].units + 1
      invariant best.None? ==> low == 0 && units == 0
      invariant best.Some? ==>
                  && units == low - 1 && best.value == Candidate(items, index, units)
                  && BuyCost(best.value, policy) <= budget
      invariant high < items[index].units ==> budget < BuyCost(Candidate(items, index, high + 1), policy)
      decreases high - low + 1
    {
      var middle := (low + high) / 2;
      var candidate := Candidate(items, index, middle);
      var total := CostOf(candidate, policy);
      if total <= budget {
        best, units := Some(candidate), middle;
        low := middle + 1;
      } else {
        high := middle - 1;
      }
    }
  }

  /** The sweep has treated levels n and above: the items are a prefix that one
      more unit would make unaffordable, whole below n, and either affordable
      already or empty from n on. */
  ghost predicate Swept(planned: seq<Lot>, policy: FeePolicy, budget: nat, items: seq<Lot>, fit: nat, n: nat)
    requires ValidLots(planned)
  {
    && n <= |planned| && n <= |items| && fit <= TotalUnits(planned)
    && items == Prefix(planned, fit)
    && (fit < TotalUnits(planned) ==> budget < BuyCost(Prefix(planned, fit + 1), policy))
    && items[..n] == planned[..n]
    && (BuyCost(items, policy) <= budget || items == planned[..n])
  }

  /** One level of the sweep, once the items are already affordable: no change. */
  lemma {:induction false} SettledStep(planned: seq<Lot>, policy: FeePolicy, budget: nat, items: seq<Lot>, fit: nat,
                                       index: nat,
                    best: Option<seq<Lot>>, units: nat)
    requires ValidLots(planned) && Swept(planned, policy, budget, items, fit, index + 1)
    requires BuyCost(items, policy) <= budget && Searched(items, index, policy, budget, best, units)
    ensures best == Some(items)
    ensures Swept(planned, policy, budget, items, fit, index)
  {
    hide BuyCost, Prefix, Candidate;
    var original := items[index].units;
    WholeCandidate(items, index);
    if best.None? {
      CandidateMonotone(items, index, 0, original, policy);
    } else if units < original {
      CandidateMonotone(items, index, units + 1, original, policy);
    }
    assert items[..index] == items[..index+1][..index] == planned[..index+1][..index] == planned[..index];
  }

  /** One level of the sweep while nothing fits: this level is cut or dropped. */
  lemma {:induction false} CuttingStep(planned: seq<Lot>, policy: FeePolicy, budget: nat, items: seq<Lot>, fit: nat,
                                       index: nat,
                    best: Option<seq<Lot>>, units: nat, next: seq<Lot>)
    requires ValidLots(planned) && Swept(planned, policy, budget, items, fit, index + 1)
    requires budget < BuyCost(items, policy) && Searched(items, index, policy, budget, best, units)
    requires next == Candidate(items, index, units)
    ensures Swept(planned, policy, budget, next, TotalUnits(planned[..index]) + units, index)
  {
    hide BuyCost, Prefix;
    assert items == planned[..index+1];
    WholeCandidate(items, index);
    CandidateMonotone(items, index, 0, 1, policy);
    CandidateIsPrefix(planned, index, units);
    CandidateIsPrefix(planned, index, units + 1);
    assert planned[..index+1][..index] == planned[..index];
    assert next[..index] == planned[..index];
  }

  /** What the sweep continues with after one search; an empty best counts as
      none, as an empty tuple does. */
  function Chosen(items: seq<Lot>, index: nat, best: Option<seq<Lot>>): seq<Lot>
    requires index < |items|
  {
    if best.Some? && best.value != [] then best.value else items[..index] + items[index+1..]
  }

  lemma {:induction false} SweepStep(planned: seq<Lot>, policy: FeePolicy, budget: nat, items: seq<Lot>, fit: nat,
                                     index: nat,
                  best: Option<seq<Lot>>, units: nat)
    returns (next: nat)
    requires ValidLots(planned) && Swept(planned, policy, budget, items, fit, index + 1)
    requires Searched(items, index, policy, budget, best, units)
    ensures Swept(planned, policy, budget, Chosen(items, index, best), next, index)
  {
    hide BuyCost, Prefix;
    next := fit;
    if BuyCost(items, policy) <= budget {
      SettledStep(planned, policy, budget, items, fit, index, best, units);
    } else {
      assert Candidate(items, index, 0) == items[..index] + items[index+1..];
      CuttingStep(planned, policy, budget, items, fit, index, best, units, Chosen(items, index, best));
      next := TotalUnits(planned[..index]) + units;
    }
  }

  lemma {:induction false} SweepStart(planned: seq<Lot>, policy: FeePolicy, budget: nat)
    requires ValidLots(planned) && budget < BuyCost(planned, policy)
    ensures Swept(planned, policy, budget, planned, TotalUnits(planned), |planned|)
  {
    WholePrefix(planned);
    assert planned[..|planned|] == planned;
  }

  lemma {:induction false} SweepEnd(planned: seq<Lot>, policy: FeePolicy, budget: nat, items: seq<Lot>, fit: nat)
    requires ValidLots(planned) && Swept(planned, policy, budget, items, fit, 0)
    ensures items == FitOf(planned, policy, Side.Buy, budget)
  {
    assert BuyCost([], policy) == 0;
    LongestIsUnique(planned, policy, budget, TotalUnits(planned), fit);
  }

  lemma {:induction false} NothingToCut(planned: seq<Lot>, policy: FeePolicy, budget: nat)
    requires ValidLots(planned) && BuyCost(planned, policy) <= budget
    ensures FitOf(planned, policy, Side.Buy, budget) == planned
  {
    WholePrefix(planned);
    LongestIsUnique(planned, policy, budget, TotalUnits(planned), TotalUnits(planned));
  }

  /** BinaryPaperBroker._fit_cash_budget: the result is the longest prefix of the
      plan whose gross cash and net fees the cash covers. */
  method FitCashBudget(planned: seq<Lot>, policy: FeePolicy, action: Side, budget: nat)
    returns (final: seq<Lot>, calculations: seq<FeeCalculation>)
    requires ValidLots(planned)
    ensures final == FitOf(planned, policy, action, budget)
    ensures calculations == FeeRun(final, policy, action, 0)
  {
    hide BuyCost, Prefix, Candidate, Searched, LongestAffordable, FeeRun;
    var all := CalculateFills(planned, policy, action);
    if action.Sell? {
      return planned, all.value;
    }
    var total := CostOf(planned, policy);
    if total <= budget {
      NothingToCut(planned, policy, budget);
      return planned, all.value;
    }
    SweepStart(planned, policy, budget);
    var items := planned;
    ghost var fit: nat := TotalUnits(planned);
    var index := |items| - 1;
    while index >= 0
      invariant -1 <= index
      invariant Swept(planned, policy, budget, items, fit, index + 1)
    {
      var best, units := LargestFitting(items, index, policy, budget);
      fit := SweepStep(planned, policy, budget, items, fit, index, best, units);
      items := Chosen(items, index, best);
      index := index - 1;
    }
    SweepEnd(planned, policy, budget, items, fit);
    var fees := CalculateFills(items, policy, action);
    return items, fees.value;
  }

  /** What the fitted plan means without naming the search: it is affordable, and
      either the whole plan or whole levels, then one cut level, then nothing,
      where one more unit at the cut level costs more than the cash. */
  lemma {:induction false} FitIsExact(plan: seq<Lot>, policy: FeePolicy, cash: nat)
    requires ValidLots(plan)
    ensures var p := FitOf(plan, policy, Side.Buy, cash);
            && BuyCost(p, policy) <= cash
            && (p == plan || exists i: nat, q: nat ::
                  && i < |plan| && q < plan[i].units
                  && p == plan[..i] + (if q == 0 then [] else [plan[i].(units := q)])
                  && cash < BuyCost(plan[..i] + [plan[i].(units := q + 1)], policy))
  {
    hide LongestAffordable, Prefix, BuyCost, TotalUnits;
    var whole := TotalUnits(plan);
    var k := LongestAffordable(plan, policy, cash, whole);
    NothingIsBought(plan, policy);
    WholePrefix(plan);
    if k < whole {
      var i := Locate(plan, k);
      var q := k - TotalUnits(plan[..i]);
      PrefixAt(plan, i, q);
      PrefixAt(plan, i, q + 1);
      assert cash < BuyCost(plan[..i] + [plan[i].(units := q + 1)], policy);
    }
  }

  lemma {:induction false} NothingIsBought(plan: seq<Lot>, policy: FeePolicy)
    requires ValidLots(plan)
    ensures BuyCost(Prefix(plan, 0), policy) == 0
  {
  }

  /** The lot that holds unit number m. */
  lemma {:induction false} Locate(plan: seq<Lot>, m: nat) returns (i: nat)
    requires ValidLots(plan) && m < TotalUnits(plan)
    ensures i < |plan| && TotalUnits(plan[..i]) <= m < TotalUnits(plan[..i]) + plan[i].units
  {
    if m < plan[0].units {
      i := 0;
    } else {
      var j := Locate(plan[1..], m - plan[0].units);
      i := j + 1;
      assert plan[..i] == [plan[0]] + plan[1..][..j];
      assert plan[..i][1..] == plan[1..][..j];
    }
  }

  /** A prefix of m units holds m units, or the whole plan. */
  lemma {:induction false} PrefixUnits(plan: seq<Lot>, m: nat)
    requires ValidLots(plan)
    ensures TotalUnits(Prefix(plan, m)) == if m <= TotalUnits(plan) then m else TotalUnits(plan)
  {
    if plan != [] && m != 0 && plan[0].units <= m {
      PrefixUnits(plan[1..], m - plan[0].units);
      assert Prefix(plan, m)[1..] == Prefix(plan[1..], m - plan[0].units);
    } else if plan != [] && m != 0 {
      assert Prefix(plan, m)[1..] == [];
    }
  }

  /** Fitting keeps a plan on its ladder and never adds units. */
  lemma {:induction false} FitStaysOnLadder(r: OrderRequest, plan: seq<Lot>, levels: seq<Level>, policy: FeePolicy,
                                            cash: nat)
    requires FromLadder(r, plan, levels, 0)
    ensures var p := FitOf(plan, policy, r.action, cash);
            FromLadder(r, p, levels, 0) && TotalUnits(p) <= TotalUnits(plan)
  {
    hide LongestAffordable, Prefix, TotalUnits, BuyCost, Admits;
    PrefixStaysOnLadder(r, plan, levels, LongestAffordable(plan, policy, cash, TotalUnits(plan)));
  }

  lemma {:induction false} PrefixStaysOnLadder(r: OrderRequest, plan: seq<Lot>, levels: seq<Level>, m: nat)
    requires FromLadder(r, plan, levels, 0)
    ensures FromLadder(r, Prefix(plan, m), levels, 0) && TotalUnits(Prefix(plan, m)) <= TotalUnits(plan)
  {
    hide Prefix, TotalUnits, Admits;
    PrefixUnits(plan, m);
  }

  // ----- when a contract order is filled whole -----

  /** The ladder holds the contracts inside the limit, a SELL owns them, and the
      cash pays for the whole plan of a BUY. */
  ghost predicate Fillable(r: OrderRequest, levels: seq<Level>, owned: Option<nat>, policy: FeePolicy, cash: nat)
    requires ValidLevels(levels) && r.amount.Contracts?
  {
    PlanIsGreedy(r, levels, owned);
    && r.amount.units <= AdmissibleDepth(r, levels, 0)
    && (r.action.Sell? && owned.Some? ==> r.amount.units <= owned.value)
    && (r.action.Buy? ==> BuyCost(PlanOf(r, levels, owned), policy) <= cash)
  }

  lemma {:induction false} FillsWholeExactlyWhen(r: OrderRequest, levels: seq<Level>, owned: Option<nat>,
                                                 policy: FeePolicy, cash: nat)
    requires ValidLevels(levels) && r.amount.Contracts? && ValidLots(PlanOf(r, levels, owned))
    ensures TotalUnits(FitOf(PlanOf(r, levels, owned), policy, r.action, cash)) == r.amount.units
       <==> Fillable(r, levels, owned, policy, cash)
  {
    hide PlanFrom, LongestAffordable, Prefix, BuyCost, TotalUnits, AdmissibleDepth;
    PlanIsGreedy(r, levels, owned);
    var plan := PlanOf(r, levels, owned);
    var k := LongestAffordable(plan, policy, cash, TotalUnits(plan));
    PrefixUnits(plan, k);
    WholePrefix(plan);
    if r.action.Buy? && BuyCost(plan, policy) <= cash {
      NothingToCut(plan, policy, cash);
    }
  }

  /** Nothing is left of a BUY exactly when the cash does not cover one unit of
      the first lot. */
  lemma {:induction false} FitIsEmptyExactlyWhen(plan: seq<Lot>, policy: FeePolicy, cash: nat)
    requires ValidLots(plan) && plan != []
    ensures FitOf(plan, policy, Side.Buy, cash) == [] <==> cash < BuyCost([plan[0].(units := 1)], policy)
  {
    hide LongestAffordable, BuyCost, Prefix, TotalUnits;
    var k := LongestAffordable(plan, policy, cash, TotalUnits(plan));
    PrefixUnits(plan, k);
    OneUnit(plan);
    if k > 0 {
      CostMonotone(plan, 1, k, policy);
    }
    assert k == 0 ==> cash < BuyCost(Prefix(plan, 1), policy);
  }

  lemma {:induction false} OneUnit(plan: seq<Lot>)
    requires ValidLots(plan) && plan != []
    ensures Prefix(plan, 1) == [plan[0].(units := 1)] && TotalUnits(plan) >= 1
    ensures Prefix(plan, 0) == [] && TotalUnits([]) == 0
  {
    PrefixAt(plan, 0, 1);
    assert plan[..0] == [];
  }
}
