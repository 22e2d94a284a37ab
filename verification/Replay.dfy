/** The independent replay of a ledger, and exactly when it rebuilds the portfolio
    that a history of orders and settlements left (src/vtrade/portfolio.py). */
module Replay {
  import Charges = Fees
  import opened Domain
  import opened Histories
  import opened Ledger
  import opened Portfolio
  import opened Settlement

  // ----- the independent replay -----

  /** Running state of a replay; cash may dip below zero on the way. */
  datatype Rebuilt = Rebuilt(cash: int, positions: map<PositionKey, Position>, realizedPnl: int)

  datatype ReplayError = MixedAgents | KeyReused | DimensionsIncomplete | NegativeState | EmptyWithAccounting
                       | NegativeFinalCash

  function RebuiltAt(s: Rebuilt, k: PositionKey): Position {
    if k in s.positions then s.positions[k] else NO_POSITION
  }

  /** What one posting of an entry does; only a posting with a unit delta acts. */
  function ReplayPosting(s: Rebuilt, postings: seq<Posting>, p: Posting): Result<Rebuilt, ReplayError> {
    if p.unitsDelta.None? then Success(s)
    else if p.key.None? then Failure(DimensionsIncomplete)
    else
      var key := p.key.value;
      var now := RebuiltAt(s, key);
      var units := now.units + p.unitsDelta.value;
      var basis := now.basis + p.amount;
      var entryFeeDelta := SumOf(postings, EntryFeesAt(key));
      var feeExpenseDelta := SumOf(postings, AmountAt(Fees, key));
      var fees := now.fees + entryFeeDelta;
      var realizedDelta := 0 - SumOf(postings, AmountAt(RealizedPnl, key))
                           - if p.unitsDelta.value < 0 then feeExpenseDelta - entryFeeDelta else 0;
      if units < 0 || basis < 0 || fees < 0 then Failure(NegativeState)
      else if units == 0 && (basis != 0 || fees != 0) then Failure(EmptyWithAccounting)
      else
        var next := Position(units, basis, fees, now.realized + realizedDelta);
        Success(Rebuilt(
          s.cash, if units == 0 then s.positions - {key} else s.positions[key := next], s.realizedPnl + realizedDelta))
  }

  function ReplayPostings(s: Rebuilt, postings: seq<Posting>, i: nat): Result<Rebuilt, ReplayError>
    requires i <= |postings|
    decreases |postings| - i
  {
    if i == |postings| then Success(s)
    else
      var next := ReplayPosting(s, postings, postings[i]);
      if next.Failure? then next else ReplayPostings(next.value, postings, i + 1)
  }

  function ReplayEntry(s: Rebuilt, e: LedgerEntry): Result<Rebuilt, ReplayError> {
    ReplayPostings(s.(cash := s.cash + SumOf(e.postings, AmountIn(CashAccount))), e.postings, 0)
  }

  /** The key of entry i already names a different event. */
  predicate Reused(entries: seq<LedgerEntry>, i: nat)
    requires i < |entries|
  {
    exists j :: 0 <= j < i && entries[j].key == entries[i].key && entries[j] != entries[i]
  }

  function ReplayFrom(s: Rebuilt, agent: AgentId, entries: seq<LedgerEntry>, i: nat): Result<Rebuilt, ReplayError>
    requires i <= |entries|
    decreases |entries| - i
  {
    if i == |entries| then Success(s)
    else if entries[i].agent != agent then Failure(MixedAgents)
    else if Reused(entries, i) then Failure(KeyReused)
    else
      var next := ReplayEntry(s, entries[i]);
      if next.Failure? then next else ReplayFrom(next.value, agent, entries, i + 1)
  }

  function Initially(p: ContractPortfolio): Rebuilt {
    Rebuilt(p.cash, p.positions, p.realizedPnl)
  }

  /** replay_contract_portfolio as a value. */
  function ReplayOf(initial: ContractPortfolio, entries: seq<LedgerEntry>): Result<ContractPortfolio, ReplayError> {
    var s := ReplayFrom(Initially(initial), initial.agent, entries, 0);
    if s.Failure? then Failure(s.error)
    else if s.value.cash < 0 then Failure(NegativeFinalCash)
    else Success(ContractPortfolio(initial.agent, s.value.cash, s.value.positions,
                                   initial.version + |entries|, initial.blocked, s.value.realizedPnl))
  }

  /** The postings of one entry, in order. */
  method ReplayOneEntry(s: Rebuilt, entry: LedgerEntry) returns (r: Result<Rebuilt, ReplayError>)
    ensures r == ReplayEntry(s, entry)
  {
    hide ReplayPosting;
    var state := s.(cash := s.cash + SumOf(entry.postings, AmountIn(CashAccount)));
    for j := 0 to |entry.postings|
      invariant ReplayEntry(s, entry) == ReplayPostings(state, entry.postings, j)
    {
      var next := ReplayPosting(state, entry.postings, entry.postings[j]);
      if next.Failure? {
        return Failure(next.error);
      }
      state := next.value;
    }
    return Success(state);
  }

  /** replay_contract_portfolio: the loop over entries and their postings, with
      a ledger that refuses a reused key. */
  method ReplayContractPortfolio(initial: ContractPortfolio, entries: seq<LedgerEntry>)
    returns (r: Result<ContractPortfolio, ReplayError>)
    ensures r == ReplayOf(initial, entries)
  {
    hide ReplayEntry, SumOf, DistinctKeys, Reused, Covers;
    NothingCovered(entries);
    var ledger := new AppendOnlyLedger();
    var state := Initially(initial);
    for i := 0 to |entries|
      invariant ledger.Valid() && fresh(ledger)
      invariant Covers(ledger.entries, entries, i)
      invariant ReplayFrom(Initially(initial), initial.agent, entries, 0)
             == ReplayFrom(state, initial.agent, entries, i)
    {
      var entry := entries[i];
      if entry.agent != initial.agent {
        return Failure(MixedAgents);
      }
      ghost var before := ledger.entries;
      var appended := ledger.Append(entry);
      ConflictMeansReused(entries, i, before, appended, ledger.entries);
      if appended.KeyConflict? {
        return Failure(KeyReused);
      }
      var next := ReplayOneEntry(state, entry);
      if next.Failure? {
        return Failure(next.error);
      }
      state := next.value;
    }
    return if state.cash < 0 then Failure(NegativeFinalCash) else
      Success(ContractPortfolio(initial.agent, state.cash, state.positions,
                                initial.version + |entries|, initial.blocked, state.realizedPnl));
  }

  /** The ledger holds just the first i entries, repeats left out. */
  ghost predicate Covers(held: seq<LedgerEntry>, entries: seq<LedgerEntry>, i: nat)
    requires i <= |entries|
  {
    forall e :: e in held <==> e in entries[..i]
  }

  lemma {:induction false} NothingCovered(entries: seq<LedgerEntry>)
    ensures Covers([], entries, 0)
  {
  }

  /** The ledger's conflict over the entries so far is the key reuse they show, and
      without one it goes on to hold them all. */
  lemma {:induction false} ConflictMeansReused(entries: seq<LedgerEntry>, i: nat, before: seq<LedgerEntry>,
                                               r: AppendResult, after: seq<LedgerEntry>)
    requires i < |entries| && DistinctKeys(before) && Covers(before, entries, i)
    requires r.Appended? <==> forall e :: e in before ==> e.key != entries[i].key
    requires r.AlreadyPresent? <==> entries[i] in before
    requires after == if r.Appended? then before + [entries[i]] else before
    ensures r.KeyConflict? <==> Reused(entries, i)
    ensures !r.KeyConflict? ==> Covers(after, entries, i + 1)
  {
    var entry := entries[i];
    assert forall j :: 0 <= j < i ==> entries[..i][j] == entries[j];
    assert entries[..i+1] == entries[..i] + [entry];
    forall e | e in before && entry in before && e.key == entry.key ensures e == entry {
      KeyNamesOneEntry(before, e, entry);
    }
  }

  // ----- when the replay rebuilds the portfolio -----

  /** A SELL whose own fees exactly equal the non-zero entry fees it releases: its
      fee expense nets to zero, so no FEES posting carries the release. */
  ghost predicate Lost(p: ContractPortfolio, e: Event)
    requires Step(p, e).Success?
  {
    e.Filled? && e.trade.action.Sell? && FeeTotal(e.fills) == Released(p, e) != 0
  }

  /** Entry fees the event takes off its position. */
  ghost function Released(p: ContractPortfolio, e: Event): int
    requires Step(p, e).Success? && e.Filled?
  {
    At(p, e.trade.key).fees - At(Step(p, e).value.0, e.trade.key).fees
  }

  /** Profit the replay books too much for an event. */
  ghost function Excess(p: ContractPortfolio, e: Event): int
    requires Step(p, e).Success?
  {
    if Lost(p, e) then Released(p, e) else 0
  }

  /** Second posting moves units, no other posting does. */
  ghost predicate OneMove(postings: seq<Posting>) {
    && |postings| >= 2 && postings[1].unitsDelta.Some? && postings[1].key.Some?
    && forall i :: 0 <= i < |postings| && i != 1 ==> postings[i].unitsDelta.None?
  }

  lemma {:induction false} NothingMoves(s: Rebuilt, postings: seq<Posting>, i: nat)
    requires i <= |postings| && forall j :: i <= j < |postings| ==> postings[j].unitsDelta.None?
    ensures ReplayPostings(s, postings, i) == Success(s)
    decreases |postings| - i
  {
    if i < |postings| {
      NothingMoves(s, postings, i + 1);
    }
  }

  lemma {:induction false} OneMoveReplays(s: Rebuilt, postings: seq<Posting>)
    requires OneMove(postings)
    ensures ReplayPostings(s, postings, 0) == ReplayPosting(s, postings, postings[1])
  {
    hide ReplayPosting;
    assert ReplayPosting(s, postings, postings[0]) == Success(s) by { SkipsOthers(s, postings, postings[0]); }
    var moved := ReplayPosting(s, postings, postings[1]);
    assert ReplayPostings(s, postings, 0) == ReplayPostings(s, postings, 1);
    if moved.Success? {
      NothingMoves(moved.value, postings, 2);
    }
  }

  lemma {:induction false} SkipsOthers(s: Rebuilt, postings: seq<Posting>, p: Posting)
    requires p.unitsDelta.None?
    ensures ReplayPosting(s, postings, p) == Success(s)
  {
  }

  /** What the postings of one accepted event add up to, for the replay. */
  ghost predicate Describes(p: ContractPortfolio, q: ContractPortfolio, entry: LedgerEntry, key: PositionKey,
                            excess: int)
  {
    var was, now, ps := At(p, key), At(q, key), entry.postings;
    && OneMove(ps) && ps[1].key == Some(key) && 0 <= excess
    && q.positions - {key} == p.positions - {key} && (key in q.positions <==> now.units != 0) && ValidPosition(now)
    && SumOf(ps, AmountIn(CashAccount)) == q.cash - p.cash
    && ps[1].unitsDelta.value == now.units - was.units && ps[1].amount == now.basis - was.basis
    && SumOf(ps, EntryFeesAt(key)) == now.fees - was.fees + excess
    && (0 - SumOf(ps, AmountAt(RealizedPnl, key))
        - if ps[1].unitsDelta.value < 0 then SumOf(ps, AmountAt(Fees, key)) - SumOf(ps, EntryFeesAt(key)) else 0)
       == q.realizedPnl - p.realizedPnl + excess
    && (now.units != 0 ==> now.realized == was.realized + q.realizedPnl - p.realizedPnl)
  }

  lemma {:induction false} OrderDescribes(p: ContractPortfolio, e: Event)
    requires ValidPortfolio(p) && e.Filled? && Step(p, e).Success?
    ensures Describes(p, Step(p, e).value.0, Step(p, e).value.1, e.trade.key, Excess(p, e))
  {
    var t, key := e.trade, e.trade.key;
    var w := ApplyFills(Start(p), t, e.fills).value;
    FillsTrack(p, t, Start(p), e.fills);
    OrderPostingSums(w, key, AmountIn(CashAccount));
    OrderPostingSums(w, key, EntryFeesAt(key));
    OrderPostingSums(w, key, AmountAt(Fees, key));
    OrderPostingSums(w, key, AmountAt(RealizedPnl, key));
    var postings := OrderPostings(w, key);
    assert ValidPosting(postings[1]);
  }

  lemma {:induction false} SettlementDescribes(p: ContractPortfolio, e: Event)
    requires ValidPortfolio(p) && e.Settled? && Step(p, e).Success?
    ensures Describes(p, Step(p, e).value.0, Step(p, e).value.1, e.key, 0)
  {
    var key, position, won := e.key, p.positions[e.key], e.key.outcome == e.result;
    SettlementPostingSums(position, key, won, AmountIn(CashAccount));
    SettlementPostingSums(position, key, won, EntryFeesAt(key));
    SettlementPostingSums(position, key, won, AmountAt(Fees, key));
    SettlementPostingSums(position, key, won, AmountAt(RealizedPnl, key));
  }

  /** Replaying one event: the realized profit always moves by the event's profit
      plus its excess, and without excess the portfolio is rebuilt exactly. */
  lemma {:induction false} ReplayStep(p: ContractPortfolio, e: Event, s: Rebuilt)
    requires ValidPortfolio(p) && Step(p, e).Success?
    ensures var (q, entry) := Step(p, e).value;
            var r := ReplayEntry(s, entry);
            && (r.Success? ==> r.value.realizedPnl == s.realizedPnl + q.realizedPnl - p.realizedPnl + Excess(p, e))
            && (s == Initially(p) && Excess(p, e) == 0 ==> r == Success(Initially(q)))
  {
    hide Step, ApplyOrder, SettlePosition;
    var (q, entry) := Step(p, e).value;
    if e.Filled? {
      OrderDescribes(p, e);
    } else {
      SettlementDescribes(p, e);
    }
    var key := Touched(e);
    var paid := s.(cash := s.cash + SumOf(entry.postings, AmountIn(CashAccount)));
    OneMoveReplays(paid, entry.postings);
    assert q.positions == if key in q.positions then p.positions[key := At(q, key)] else p.positions - {key} by {
      assert forall k :: k != key ==> (k in q.positions <==> k in q.positions - {key});
      assert forall k :: k != key ==> (k in p.positions <==> k in p.positions - {key});
    }
  }

  /** Some event of the history is a SELL the replay cannot see in full. */
  ghost predicate AnyLost(p: ContractPortfolio, events: seq<Event>)
    requires Run(p, events).Success?
    decreases |events|
  {
    events != [] && (Lost(p, events[0]) || AnyLost(Step(p, events[0]).value.0, events[1..]))
  }

  ghost function TotalExcess(p: ContractPortfolio, events: seq<Event>): int
    requires Run(p, events).Success?
    decreases |events|
  {
    if events == [] then 0 else Excess(p, events[0]) + TotalExcess(Step(p, events[0]).value.0, events[1..])
  }

  lemma {:induction false} ExcessNotNegative(p: ContractPortfolio, e: Event)
    requires ValidPortfolio(p) && Step(p, e).Success?
    ensures Excess(p, e) >= 0
  {
    hide Step, Excess;
    if e.Filled? {
      OrderDescribes(p, e);
    } else {
      assert Excess(p, e) == 0 by { SettlementHasNoExcess(p, e); }
    }
  }

  lemma {:induction false} SettlementHasNoExcess(p: ContractPortfolio, e: Event)
    requires e.Settled? && Step(p, e).Success?
    ensures Excess(p, e) == 0
  {
  }

  lemma {:induction false} ExcessMeansLost(p: ContractPortfolio, events: seq<Event>)
    requires ValidPortfolio(p) && Run(p, events).Success?
    ensures TotalExcess(p, events) >= 0
    ensures TotalExcess(p, events) == 0 <==> !AnyLost(p, events)
    decreases |events|
  {
    hide Step, ValidPortfolio, Released;
    if events != [] {
      StepIsSound(p, events[0], []);
      ExcessNotNegative(p, events[0]);
      ExcessMeansLost(Step(p, events[0]).value.0, events[1..]);
    }
  }

  /** Replaying the rest of a run, from any state: the profit is off by the total
      excess, and without excess the portfolio is rebuilt exactly. */
  lemma {:induction false} ReplayRest(p: ContractPortfolio, events: seq<Event>, all: seq<LedgerEntry>, i: nat,
                                      s: Rebuilt)
    requires ValidPortfolio(p) && Run(p, events).Success? && i <= |all| && DistinctKeys(all)
    requires all[i..] == Run(p, events).value.1
    ensures var q := Run(p, events).value.0;
            var r := ReplayFrom(s, p.agent, all, i);
            && (r.Success? ==>
                  r.value.realizedPnl == s.realizedPnl + q.realizedPnl - p.realizedPnl + TotalExcess(p, events))
            && (s == Initially(p) && TotalExcess(p, events) == 0 ==> r == Success(Initially(q)))
    decreases |events|
  {
    hide Step, ReplayEntry, ValidPortfolio, ValidEntry, Excess, Equity, Agrees;
    if events == [] {
      assert i == |all|;
    } else {
      var (p', entry) := Step(p, events[0]).value;
      StepIsSound(p, events[0], []);
      ReplayStep(p, events[0], s);
      ExcessNotNegative(p, events[0]);
      ExcessMeansLost(p', events[1..]);
      assert all[i] == all[i..][0] == entry;
      assert all[i+1..] == all[i..][1..] == Run(p', events[1..]).value.1;
      var r := ReplayEntry(s, entry);
      if r.Success? {
        ReplayRest(p', events[1..], all, i + 1, r.value);
      }
    }
  }

  /** Replaying the ledger of any history of accepted orders and completed
      settlements with distinct keys rebuilds the portfolio, cash, version,
      profit and every position, if and only if no SELL in it had fees exactly
      equal to the entry fees it released. */
  lemma {:induction false} ReplayRebuildsExactlyWhen(p: ContractPortfolio, events: seq<Event>)
    requires ValidPortfolio(p) && Run(p, events).Success? && DistinctKeys(Run(p, events).value.1)
    ensures var (q, entries) := Run(p, events).value;
            ReplayOf(p, entries) == Success(q) <==> !AnyLost(p, events)
  {
    var (q, entries) := Run(p, events).value;
    assert entries[0..] == entries;
    RunIsSound(p, events, []);
    ExcessMeansLost(p, events);
    ReplayRest(p, events, entries, 0, Initially(p));
  }

  /** The excluded case occurs with fees the calculator charges: selling 100 units
      at 0.06 from an empty accumulator costs 10000 in fees, which is just what
      the position releases, and the replay leaves those entry fees on it. */
  lemma {:induction false} LostReleaseExists()
    ensures exists p, e: Event, policy: Charges.FeePolicy ::
              && ValidPortfolio(p) && e.Filled? && |e.fills| == 1 && Step(p, e).Success? && Lost(p, e)
              && var c := Charges.Charge(100, 60_000, policy, Side.Sell, 0);
                 && 0 <= c.netFee && e.fills[0] == EconomicFill(100, c.gross, c.netFee, c.gross - c.netFee)
                 && ReplayOf(p, [Step(p, e).value.1]) != Success(Step(p, e).value.0)
  {
    var key, policy := PositionKey(0, Yes), Charges.FeePolicy(1, 1, 7, 100, false);
    var p := ContractPortfolio(0, 1_000_000, map[key := Position(200, 100_000, 20_000, 0)], 0, false, 0);
    var f := EconomicFill(100, 60_000, 10_000, 50_000);
    var e := Filled(Trade(0, key, Sell), [f], 7);
    SaleAtSixCents(policy);
    SaleIsLost(p, e);
    hide Step, Lost, ReplayOf;
    OneEventReplays(p, e);
  }

  lemma {:induction false} SaleIsLost(p: ContractPortfolio, e: Event)
    requires p.positions == map[PositionKey(0, Yes) := Position(200, 100_000, 20_000, 0)]
    requires p == ContractPortfolio(0, 1_000_000, p.positions, 0, false, 0)
    requires e == Filled(Trade(0, PositionKey(0, Yes), Sell), [EconomicFill(100, 60_000, 10_000, 50_000)], 7)
    ensures ValidPortfolio(p) && Step(p, e).Success? && Lost(p, e)
  {
    hide ProRata, Mul;
    var key, fills := PositionKey(0, Yes), e.fills;
    HalfReleased();
    var w := ApplyFill(Start(p), e.trade, fills[0]).value;
    assert fills[1..] == [];
    assert ApplyFills(Start(p), e.trade, fills) == Success(w);
    assert w.feeExpense == 0 && w.realizedPosting == 0 && w.cashDelta == 50_000 && w.costDelta == -50_000;
    OrderPostingSums(w, key, Amount);
    assert FeeTotal(fills) == 10_000 + FeeTotal(fills[1..]);
  }

  lemma {:induction false} HalfReleased()
    ensures ProRata(100_000, 100, 200) == 50_000 && ProRata(20_000, 100, 200) == 10_000
  {
  }

  lemma {:induction false} SaleAtSixCents(policy: Charges.FeePolicy)
    requires policy == Charges.FeePolicy(1, 1, 7, 100, false)
    ensures var c := Charges.Charge(100, 60_000, policy, Side.Sell, 0); c.gross == 60_000 && c.netFee == 10_000
  {
    assert Charges.Numerator(100, 60_000, policy) == 100 * (7 * (60_000 * 940_000));
    assert Charges.Denominator(policy) == 100 * 100 * 1_000_000;
    assert Charges.TradeFee(100, 60_000, policy) == 10_000;
  }

  /** For a history of one event the replay is right exactly when it is not lost. */
  lemma {:induction false} OneEventReplays(p: ContractPortfolio, e: Event)
    requires ValidPortfolio(p) && Step(p, e).Success?
    ensures ReplayOf(p, [Step(p, e).value.1]) == Success(Step(p, e).value.0) <==> !Lost(p, e)
  {
    hide Step, Lost;
    var (q, entry) := Step(p, e).value;
    assert [e][1..] == [];
    assert Run(p, [e]).value == (q, [entry]) by {
      assert Run(q, []) == Success((q, []));
      assert [entry] + [] == [entry];
    }
    assert AnyLost(p, [e]) == Lost(p, e) by {
      assert !AnyLost(q, []);
    }
    ReplayRebuildsExactlyWhen(p, [e]);
  }

  // ----- exactly which ledgers can be replayed -----

  /** What one posting moves: units and cost of a position, and with them all entry
      fees its entry moves there. */
  datatype Delta = Delta(key: PositionKey, units: int, basis: int, fees: int)

  datatype Holding = Holding(units: int, basis: int, fees: int)

  function MovesIn(postings: seq<Posting>, i: nat): seq<Delta>
    requires i <= |postings|
    decreases |postings| - i
  {
    if i == |postings| then []
    else if postings[i].unitsDelta.None? || postings[i].key.None? then MovesIn(postings, i + 1)
    else
      var key := postings[i].key.value;
      [Delta(key, postings[i].unitsDelta.value, postings[i].amount, SumOf(postings, EntryFeesAt(key)))]
      + MovesIn(postings, i + 1)
  }

  /** Every posting that moves units says of which position. */
  ghost predicate Dimensioned(postings: seq<Posting>, i: nat) {
    forall j :: i <= j < |postings| && postings[j].unitsDelta.Some? ==> postings[j].key.Some?
  }

  /** Every move of a ledger, from entry number i on. */
  function MovesFrom(entries: seq<LedgerEntry>, i: nat): seq<Delta>
    requires i <= |entries|
    decreases |entries| - i
  {
    if i == |entries| then [] else MovesIn(entries[i].postings, 0) + MovesFrom(entries, i + 1)
  }

  /** What some moves make of a position: sums of those that name it. */
  function HoldingAfter(was: Position, moves: seq<Delta>, k: PositionKey): Holding {
    if moves == [] then Holding(was.units, was.basis, was.fees)
    else
      var m, h := moves[|moves|-1], HoldingAfter(was, moves[..|moves|-1], k);
      if m.key == k then Holding(h.units + m.units, h.basis + m.basis, h.fees + m.fees) else h
  }

  /** Nothing negative, and no cost or fees without units. */
  predicate Sane(h: Holding) {
    0 <= h.units && 0 <= h.basis && 0 <= h.fees && (h.units == 0 ==> h.basis == h.fees == 0)
  }

  /** After some moves done, each further one leaves its position sane. */
  ghost predicate SaneAlong(p: ContractPortfolio, done: seq<Delta>, rest: seq<Delta>) {
    forall n :: 0 <= n < |rest| ==> Sane(HoldingAfter(At(p, rest[n].key), done + rest[..n+1], rest[n].key))
  }

  ghost predicate HoldsAfter(s: Rebuilt, p: ContractPortfolio, done: seq<Delta>) {
    forall k ::
      var now := RebuiltAt(s, k); Holding(now.units, now.basis, now.fees) == HoldingAfter(At(p, k), done, k)
  }

  lemma {:induction false} SaneJoin(p: ContractPortfolio, done: seq<Delta>, a: seq<Delta>, b: seq<Delta>)
    ensures SaneAlong(p, done, a + b) <==> SaneAlong(p, done, a) && SaneAlong(p, done + a, b)
  {
    hide HoldingAfter, Sane;
    forall n | 0 <= n < |a| ensures (a + b)[n] == a[n] && (a + b)[..n+1] == a[..n+1] {
    }
    forall n | 0 <= n < |b| ensures (a + b)[|a| + n] == b[n] && done + (a + b)[..|a|+n+1] == done + a + b[..n+1] {
      assert (a + b)[..|a|+n+1] == a + b[..n+1];
    }
    if SaneAlong(p, done, a + b) {
      forall n | 0 <= n < |a| ensures Sane(HoldingAfter(At(p, a[n].key), done + a[..n+1], a[n].key)) {
        assert (a + b)[n] == a[n];
      }
      forall n | 0 <= n < |b| ensures Sane(HoldingAfter(At(p, b[n].key), done + a + b[..n+1], b[n].key)) {
        assert (a + b)[|a| + n] == b[n];
      }
    }
    if SaneAlong(p, done, a) && SaneAlong(p, done + a, b) {
      forall n | 0 <= n < |a + b|
        ensures Sane(HoldingAfter(At(p, (a + b)[n].key), done + (a + b)[..n+1], (a + b)[n].key))
      {
        if n < |a| {
          assert (a + b)[n] == a[n];
        } else {
          assert (a + b)[n] == b[n - |a|] && done + (a + b)[..n+1] == done + a + b[..n-|a|+1];
        }
      }
    }
  }

  lemma {:induction false} OneMoreMove(was: Position, done: seq<Delta>, m: Delta, k: PositionKey)
    ensures var h := HoldingAfter(was, done, k);
            HoldingAfter(was, done + [m], k)
            == if m.key == k then Holding(h.units + m.units, h.basis + m.basis, h.fees + m.fees) else h
  {
    assert (done + [m])[..|done|] == done;
  }

  /** One moving posting: it succeeds exactly when it leaves its position sane. */
  lemma {:induction false} MoveReplays(s: Rebuilt, p: ContractPortfolio, done: seq<Delta>, postings: seq<Posting>,
                                       i: nat)
    requires i < |postings| && HoldsAfter(s, p, done)
    requires postings[i].unitsDelta.Some? && postings[i].key.Some?
    ensures var m := MovesIn(postings, i)[0];
            var r := ReplayPosting(s, postings, postings[i]);
            && (r.Success? <==> SaneAlong(p, done, [m]))
            && (r.Success? ==> HoldsAfter(r.value, p, done + [m]))
  {
    hide SumOf, HoldingAfter;
    var m := MovesIn(postings, i)[0];
    forall k {
      OneMoreMove(At(p, k), done, m, k);
    }
    assert [m][..1] == [m];
    assert SaneAlong(p, done, [m]) <==> Sane(HoldingAfter(At(p, m.key), done + [m], m.key));
    var now := RebuiltAt(s, m.key);
    assert Holding(now.units, now.basis, now.fees) == HoldingAfter(At(p, m.key), done, m.key);
    var r := ReplayPosting(s, postings, postings[i]);
    if r.Success? {
      forall k
        ensures var q := RebuiltAt(r.value, k);
                Holding(q.units, q.basis, q.fees) == HoldingAfter(At(p, k), done + [m], k)
      {
        var q := RebuiltAt(s, k);
        assert Holding(q.units, q.basis, q.fees) == HoldingAfter(At(p, k), done, k);
      }
    }
  }

  lemma {:induction false} PostingsReplay(s: Rebuilt, p: ContractPortfolio, done: seq<Delta>, postings: seq<Posting>,
                                          i: nat)
    requires i <= |postings| && HoldsAfter(s, p, done)
    ensures var r, rest := ReplayPostings(s, postings, i), MovesIn(postings, i);
            && (r.Success? <==> Dimensioned(postings, i) && SaneAlong(p, done, rest))
            && (r.Success? ==> HoldsAfter(r.value, p, done + rest) && r.value.cash == s.cash)
    decreases |postings| - i
  {
    hide ReplayPosting, SaneAlong, HoldsAfter, SumOf;
    if i == |postings| {
      assert done + [] == done;
      assert SaneAlong(p, done, []) by { NothingToMove(p, done); }
    } else if postings[i].unitsDelta.None? {
      assert ReplayPosting(s, postings, postings[i]) == Success(s) by { SkipsOthers(s, postings, postings[i]); }
      PostingsReplay(s, p, done, postings, i + 1);
    } else if postings[i].key.None? {
      assert ReplayPosting(s, postings, postings[i]).Failure? by { NamelessMove(s, postings, i); }
    } else {
      var m, rest := MovesIn(postings, i)[0], MovesIn(postings, i + 1);
      assert MovesIn(postings, i) == [m] + rest;
      MoveReplays(s, p, done, postings, i);
      SaneJoin(p, done, [m], rest);
      var next := ReplayPosting(s, postings, postings[i]);
      if next.Success? {
        PostingsReplay(next.value, p, done + [m], postings, i + 1);
        assert next.value.cash == s.cash by { MoveKeepsCash(s, postings, i); }
        assert done + [m] + rest == done + ([m] + rest);
      }
    }
  }

  lemma {:induction false} NothingToMove(p: ContractPortfolio, done: seq<Delta>)
    ensures SaneAlong(p, done, [])
  {
  }

  lemma {:induction false} NamelessMove(s: Rebuilt, postings: seq<Posting>, i: nat)
    requires i < |postings| && postings[i].unitsDelta.Some? && postings[i].key.None?
    ensures ReplayPosting(s, postings, postings[i]) == Failure(DimensionsIncomplete)
  {
  }

  lemma {:induction false} MoveKeepsCash(s: Rebuilt, postings: seq<Posting>, i: nat)
    requires i < |postings| && ReplayPosting(s, postings, postings[i]).Success?
    ensures ReplayPosting(s, postings, postings[i]).value.cash == s.cash
  {
  }

  lemma {:induction false} EntriesReplay(s: Rebuilt, p: ContractPortfolio, done: seq<Delta>, entries: seq<LedgerEntry>,
                                         i: nat)
    requires i <= |entries| && HoldsAfter(s, p, done)
    ensures var r, rest := ReplayFrom(s, p.agent, entries, i), MovesFrom(entries, i);
            && (r.Success? <==>
                  && (forall j :: i <= j < |entries| ==>
                        entries[j].agent == p.agent && !Reused(entries, j) && Dimensioned(entries[j].postings, 0))
                  && SaneAlong(p, done, rest))
            && (r.Success? ==> HoldsAfter(r.value, p, done + rest))
    decreases |entries| - i
  {
    hide ReplayPostings, SaneAlong, HoldsAfter, SumOf, Reused, MovesIn, Dimensioned;
    if i == |entries| {
      assert done + [] == done;
      NothingToMove(p, done);
    } else {
      var e, m, rest := entries[i], MovesIn(entries[i].postings, 0), MovesFrom(entries, i + 1);
      var paid := s.(cash := s.cash + SumOf(e.postings, AmountIn(CashAccount)));
      assert HoldsAfter(paid, p, done) by { PayingMovesNothing(s, paid, p, done); }
      PostingsReplay(paid, p, done, e.postings, 0);
      SaneJoin(p, done, m, rest);
      var next := ReplayEntry(s, e);
      if next.Success? {
        EntriesReplay(next.value, p, done + m, entries, i + 1);
        assert done + m + rest == done + (m + rest);
      }
    }
  }

  lemma {:induction false} PayingMovesNothing(s: Rebuilt, paid: Rebuilt, p: ContractPortfolio, done: seq<Delta>)
    requires HoldsAfter(s, p, done) && paid.positions == s.positions
    ensures HoldsAfter(paid, p, done)
  {
    forall k
      ensures var now := RebuiltAt(paid, k); Holding(now.units, now.basis, now.fees) == HoldingAfter(At(p, k), done, k)
    {
      assert RebuiltAt(paid, k) == RebuiltAt(s, k);
    }
  }

  /** Any list of entries at all can be replayed if and only if they all belong to the
      agent and name the positions they move, entries with the same key are the same,
      every move leaves sums of its position that are not negative and hold no cost or
      fees without units, and the cash is not negative in the end. Then cash and
      positions are those sums, and the version counts the entries. */
  lemma {:induction false} ReplaysExactlyWhen(p: ContractPortfolio, entries: seq<LedgerEntry>)
    ensures var r, moves := ReplayOf(p, entries), MovesFrom(entries, 0);
            && (r.Success? <==>
                  && (forall j :: 0 <= j < |entries| ==>
                        entries[j].agent == p.agent && Dimensioned(entries[j].postings, 0))
                  && (forall i, j :: 0 <= i < j < |entries| && entries[i].key == entries[j].key ==>
                        entries[i] == entries[j])
                  && (forall n :: 0 <= n < |moves| ==>
                        Sane(HoldingAfter(At(p, moves[n].key), moves[..n+1], moves[n].key)))
                  && 0 <= p.cash + CashTotal(entries))
            && (r.Success? ==>
                  && r.value.cash == p.cash + CashTotal(entries) && r.value.version == p.version + |entries|
                  && r.value.agent == p.agent && r.value.blocked == p.blocked
                  && forall k ::
                       var now := At(r.value, k);
                       Holding(now.units, now.basis, now.fees) == HoldingAfter(At(p, k), moves, k))
  {
    hide ReplayFrom, MovesFrom, HoldingAfter, Sane, SumOf, CashTotal;
    var moves, s := MovesFrom(entries, 0), Initially(p);
    assert HoldsAfter(s, p, []) by { NothingDone(p); }
    EntriesReplay(s, p, [], entries, 0);
    assert [] + moves == moves;
    FromNothing(p, moves);
    NoneReused(entries);
    assert entries[0..] == entries;
    var r := ReplayFrom(s, p.agent, entries, 0);
    if r.Success? {
      ReplayCountsCash(s, p.agent, entries, 0);
      if 0 <= r.value.cash {
        forall k
          ensures var now := At(ReplayOf(p, entries).value, k);
                  Holding(now.units, now.basis, now.fees) == HoldingAfter(At(p, k), moves, k)
        {
          assert At(ReplayOf(p, entries).value, k) == RebuiltAt(r.value, k);
        }
      }
    }
  }

  lemma {:induction false} NothingDone(p: ContractPortfolio)
    ensures HoldsAfter(Initially(p), p, [])
  {
    forall k ensures RebuiltAt(Initially(p), k) == At(p, k) {
    }
  }

  lemma {:induction false} FromNothing(p: ContractPortfolio, moves: seq<Delta>)
    ensures SaneAlong(p, [], moves) <==>
              forall n :: 0 <= n < |moves| ==> Sane(HoldingAfter(At(p, moves[n].key), moves[..n+1], moves[n].key))
  {
    hide Sane, HoldingAfter;
    forall n | 0 <= n < |moves|
      ensures HoldingAfter(At(p, moves[n].key), [] + moves[..n+1], moves[n].key)
           == HoldingAfter(At(p, moves[n].key), moves[..n+1], moves[n].key)
    {
      assert [] + moves[..n+1] == moves[..n+1];
    }
  }

  lemma {:induction false} NoneReused(entries: seq<LedgerEntry>)
    ensures (forall j :: 0 <= j < |entries| ==> !Reused(entries, j))
       <==> (forall i, j :: 0 <= i < j < |entries| && entries[i].key == entries[j].key ==> entries[i] == entries[j])
  {
    if forall j :: 0 <= j < |entries| ==> !Reused(entries, j) {
      forall i, j | 0 <= i < j < |entries| && entries[i].key == entries[j].key ensures entries[i] == entries[j] {
        assert !Reused(entries, j);
      }
    }
  }

  // ----- entries listed more than once -----

  function CashIn(e: LedgerEntry): int {
    SumOf(e.postings, AmountIn(CashAccount))
  }

  ghost function CashTotal(entries: seq<LedgerEntry>): int {
    if entries == [] then 0 else CashIn(entries[0]) + CashTotal(entries[1..])
  }

  lemma {:induction false} ReplayKeepsCash(s: Rebuilt, postings: seq<Posting>, i: nat)
    requires i <= |postings| && ReplayPostings(s, postings, i).Success?
    ensures ReplayPostings(s, postings, i).value.cash == s.cash
    decreases |postings| - i
  {
    if i < |postings| {
      var next := ReplayPosting(s, postings, postings[i]);
      assert next.value.cash == s.cash;
      ReplayKeepsCash(next.value, postings, i + 1);
    }
  }

  /** A replay that succeeds has counted the cash of every entry in its list. */
  lemma {:induction false} ReplayCountsCash(s: Rebuilt, agent: AgentId, all: seq<LedgerEntry>, i: nat)
    requires i <= |all| && ReplayFrom(s, agent, all, i).Success?
    ensures ReplayFrom(s, agent, all, i).value.cash == s.cash + CashTotal(all[i..])
    decreases |all| - i
  {
    hide ReplayPostings, SumOf;
    if i < |all| {
      var paid := s.(cash := s.cash + CashIn(all[i]));
      ReplayKeepsCash(paid, all[i].postings, 0);
      assert all[i..][1..] == all[i+1..];
      ReplayCountsCash(ReplayEntry(s, all[i]).value, agent, all, i + 1);
    }
  }

  /** Entries listed by their numbers, in any order and any number of times. */
  ghost function Listed(entries: seq<LedgerEntry>, numbers: seq<nat>): seq<LedgerEntry>
    requires forall j :: 0 <= j < |numbers| ==> numbers[j] < |entries|
  {
    if numbers == [] then [] else [entries[numbers[0]]] + Listed(entries, numbers[1..])
  }

  ghost function Copies(numbers: seq<nat>, n: nat): nat {
    if numbers == [] then 0 else (if numbers[0] == n then 1 else 0) + Copies(numbers[1..], n)
  }

  /** Cash of the first n entries, each as often as it is listed, less `once` times. */
  ghost function CopiedCash(entries: seq<LedgerEntry>, numbers: seq<nat>, n: nat, once: int): int
    requires n <= |entries|
  {
    if n == 0 then 0
    else CopiedCash(entries, numbers, n - 1, once) + (Copies(numbers, n - 1) - once) * CashIn(entries[n - 1])
  }

  lemma {:induction false} OneMoreCopy(entries: seq<LedgerEntry>, numbers: seq<nat>, n: nat)
    requires n <= |entries| && numbers != [] && numbers[0] < |entries|
    ensures CopiedCash(entries, numbers, n, 0)
         == CopiedCash(entries, numbers[1..], n, 0) + if numbers[0] < n then CashIn(entries[numbers[0]]) else 0
  {
    hide SumOf;
    if n > 0 {
      OneMoreCopy(entries, numbers, n - 1);
      var cash, rest := CashIn(entries[n - 1]), Copies(numbers[1..], n - 1);
      assert (rest + 1) * cash == rest * cash + cash;
    }
  }

  lemma {:induction false} NoCopies(entries: seq<LedgerEntry>, n: nat)
    requires n <= |entries|
    ensures CopiedCash(entries, [], n, 0) == 0
  {
    if n > 0 {
      NoCopies(entries, n - 1);
    }
  }

  /** Listing entries adds up their cash as often as they are listed. */
  lemma {:induction false} ListedCash(entries: seq<LedgerEntry>, numbers: seq<nat>)
    requires forall j :: 0 <= j < |numbers| ==> numbers[j] < |entries|
    ensures |Listed(entries, numbers)| == |numbers|
    ensures CashTotal(Listed(entries, numbers)) == CopiedCash(entries, numbers, |entries|, 0)
  {
    hide SumOf, CopiedCash;
    if numbers == [] {
      NoCopies(entries, |entries|);
    } else {
      ListedCash(entries, numbers[1..]);
      OneMoreCopy(entries, numbers, |entries|);
      assert Listed(entries, numbers)[1..] == Listed(entries, numbers[1..]);
    }
  }

  /** Counting each entry once less takes the plain total away. */
  lemma {:induction false} OnceLess(entries: seq<LedgerEntry>, numbers: seq<nat>, n: nat)
    requires n <= |entries|
    ensures CopiedCash(entries, numbers, n, 1) == CopiedCash(entries, numbers, n, 0) - CashTotal(entries[..n])
  {
    hide SumOf, Copies;
    if n > 0 {
      OnceLess(entries, numbers, n - 1);
      CashTotalAppend(entries[..n-1], entries[n-1]);
      assert entries[..n] == entries[..n-1] + [entries[n-1]];
      var copies, cash := Copies(numbers, n - 1), CashIn(entries[n - 1]);
      assert (copies - 1) * cash == copies * cash - cash;
    }
  }

  lemma {:induction false} CashTotalAppend(entries: seq<LedgerEntry>, e: LedgerEntry)
    ensures CashTotal(entries + [e]) == CashTotal(entries) + CashIn(e)
  {
    hide SumOf;
    if entries == [] {
      assert [] + [e] == [e] && [e][1..] == [];
    } else {
      assert (entries + [e])[1..] == entries[1..] + [e];
      CashTotalAppend(entries[1..], e);
    }
  }

  /** The entries of a history carry its change of cash. */
  lemma {:induction false} RunCash(p: ContractPortfolio, events: seq<Event>)
    requires ValidPortfolio(p) && Run(p, events).Success?
    ensures Run(p, events).value.0.cash == p.cash + CashTotal(Run(p, events).value.1)
    decreases |events|
  {
    hide Step, SumOf, Equity, Agrees, ValidEntry, ValidPortfolio;
    if events != [] {
      var (q, entry) := Step(p, events[0]).value;
      StepIsSound(p, events[0], []);
      CashMoves(p, events[0]);
      RunCash(q, events[1..]);
      assert Run(p, events).value.1[1..] == Run(q, events[1..]).value.1;
    }
  }

  /** Distinct keys are needed. A replay of a history's entries, listed in any order
      and any number of times, is off by the cash of every repeated or missing
      entry, as often as it is repeated or missing; the version is off by their
      number. */
  lemma {:induction false} RepeatsAreCountedAgain(p: ContractPortfolio, events: seq<Event>, numbers: seq<nat>)
    requires ValidPortfolio(p) && Run(p, events).Success?
    requires forall j :: 0 <= j < |numbers| ==> numbers[j] < |Run(p, events).value.1|
    ensures var (q, entries) := Run(p, events).value;
            var r := ReplayOf(p, Listed(entries, numbers));
            r.Success? ==>
              && r.value.cash - q.cash == CopiedCash(entries, numbers, |entries|, 1)
              && r.value.version - q.version == |numbers| - |entries|
  {
    hide Step, SumOf, ReplayEntry, CopiedCash, Listed, CashTotal, Equity, Agrees, ValidEntry;
    var (q, entries) := Run(p, events).value;
    var all := Listed(entries, numbers);
    RunIsSound(p, events, []);
    RunCash(p, events);
    ListedCash(entries, numbers);
    OnceLess(entries, numbers, |entries|);
    assert entries[..|entries|] == entries && all[0..] == all;
    if ReplayOf(p, all).Success? {
      ReplayCountsCash(Initially(p), p.agent, all, 0);
    }
  }

  /** Every accepted event moves cash, by what its CASH postings add up to. */
  lemma {:induction false} CashMoves(p: ContractPortfolio, e: Event)
    requires ValidPortfolio(p) && Step(p, e).Success?
    ensures var (q, entry) := Step(p, e).value;
            SumOf(entry.postings, AmountIn(CashAccount)) == q.cash - p.cash != 0
  {
    var (q, entry) := Step(p, e).value;
    if e.Filled? {
      OrderDescribes(p, e);
      assert entry.postings[0].account == CashAccount && entry.postings[0].amount == q.cash - p.cash by {
        FillsTrack(p, e.trade, Start(p), e.fills);
      }
    } else {
      SettlementDescribes(p, e);
    }
    assert ValidPosting(entry.postings[0]);
  }
}
