/** Multi-fill order accounting: pro-rata cost removal, portfolio update and one
    balanced ledger entry per order (src/vtrade/portfolio.py). */
module Portfolio {
  import opened Domain
  import opened Ledger
  import opened Sums

  /** One long position; amounts in hundredths of a contract and micro-dollars. */
  datatype Position = Position(units: nat, basis: nat, fees: nat, realized: int)

  datatype ContractPortfolio = ContractPortfolio(
    agent: AgentId, cash: nat, positions: map<PositionKey, Position>, version: nat, blocked: bool, realizedPnl: int)

  /** One confirmed fill; the net cash delta is a value of its own. */
  datatype EconomicFill = EconomicFill(units: pos, gross: nat, fee: nat, net: int)

  /** The part of an order that accounting looks at. */
  datatype Trade = Trade(agent: AgentId, key: PositionKey, action: Side)

  datatype AccountingError = WrongAgent | NoFills | CashDeltaSign | ExceedsPosition | NegativeCash
                           | BadPosting | Unbalanced

  const NO_POSITION := Position(0, 0, 0, 0)

  predicate ValidPosition(p: Position) {
    p.units == 0 ==> p.basis == 0 && p.fees == 0
  }

  ghost predicate ValidPortfolio(p: ContractPortfolio) {
    forall k :: k in p.positions ==> ValidPosition(p.positions[k])
  }

  function At(p: ContractPortfolio, k: PositionKey): Position {
    if k in p.positions then p.positions[k] else NO_POSITION
  }

  // ----- pro-rata removal -----

  /** _pro_rata: part / whole of a total, rounded half up, all of it at the end. */
  function ProRata(total: nat, part: nat, whole: pos): nat
    requires part <= whole
  {
    if part == whole then total else (2 * Mul(total, part) + whole) / (2 * whole)
  }

  /** The removed amount is a nearest integer, never more than the total. */
  lemma {:induction false} ProRataIsNearest(total: nat, part: nat, whole: pos)
    requires part <= whole
    ensures 2 * Mul(total, part) < 2 * Mul(ProRata(total, part, whole), whole) + whole
    ensures 2 * Mul(ProRata(total, part, whole), whole) <= 2 * Mul(total, part) + whole
    ensures ProRata(total, part, whole) <= total
  {
    var removed := ProRata(total, part, whole);
    if part != whole {
      var n := 2 * Mul(total, part) + whole;
      assert n == n / (2 * whole) * (2 * whole) + n % (2 * whole);
      assert removed * (2 * whole) == 2 * Mul(removed, whole);
      MulMonotone(part, whole, total);
      assert Mul(total + 1, whole) == Mul(total, whole) + whole;
      assert Mul(total, part) == Mul(part, total) && Mul(total, whole) == Mul(whole, total);
      if removed > total {
        MulMonotone(total + 1, removed, whole);
        assert false;
      }
    }
  }

  // ----- one fill -----

  /** Running state of the fill loop: the portfolio so far and the deltas that
      become postings. */
  datatype Working = Working(
    portfolio: ContractPortfolio, cashDelta: int, costDelta: int, unitsDelta: int,
    feeExpense: int, realizedPosting: int, entryFees: int)

  function Replace(p: ContractPortfolio, k: PositionKey, q: Position, cash: nat, realizedPnl: int): ContractPortfolio {
    p.(positions := if q.units == 0 then p.positions - {k} else p.positions[k := q],
       cash := cash, realizedPnl := realizedPnl)
  }

  function ApplyFill(w: Working, t: Trade, f: EconomicFill): Result<Working, AccountingError> {
    var now := At(w.portfolio, t.key);
    var cash := w.portfolio.cash + f.net;
    match t.action
    case Buy =>
      if f.net >= 0 then Failure(CashDeltaSign)
      else if cash < 0 then Failure(NegativeCash)
      else
        var next := Position(now.units + f.units, now.basis + f.gross, now.fees + f.fee, now.realized);
        Success(Working(
          Replace(w.portfolio, t.key, next, cash, w.portfolio.realizedPnl),
          w.cashDelta + f.net, w.costDelta + f.gross, w.unitsDelta + f.units,
          w.feeExpense + f.fee, w.realizedPosting, w.entryFees + f.fee))
    case Sell =>
      if now.units < f.units then Failure(ExceedsPosition)
      else if f.net <= 0 then Failure(CashDeltaSign)
      else
        ProRataIsNearest(now.basis, f.units, now.units);
        ProRataIsNearest(now.fees, f.units, now.units);
        var basis := ProRata(now.basis, f.units, now.units);
        var fees := ProRata(now.fees, f.units, now.units);
        var realized := f.gross - basis - fees - f.fee;
        var next := Position(now.units - f.units, now.basis - basis, now.fees - fees, now.realized + realized);
        Success(Working(
          Replace(w.portfolio, t.key, next, cash, w.portfolio.realizedPnl + realized),
          w.cashDelta + f.net, w.costDelta - basis, w.unitsDelta - f.units,
          w.feeExpense + f.fee - fees, w.realizedPosting + basis + fees - f.gross, w.entryFees - fees))
  }

  function ApplyFills(w: Working, t: Trade, fills: seq<EconomicFill>): Result<Working, AccountingError>
    decreases |fills|
  {
    if fills == [] then Success(w)
    else
      var next := ApplyFill(w, t, fills[0]);
      if next.Failure? then next else ApplyFills(next.value, t, fills[1..])
  }

  // ----- the whole order -----

  function Start(p: ContractPortfolio): Working {
    Working(p, 0, 0, 0, 0, 0, 0)
  }

  /** Cash and position postings always; fee and P&L postings only when non-zero. */
  function OrderPostings(w: Working, key: PositionKey): seq<Posting> {
    [Posting(CashAccount, w.cashDelta, None, None, None),
     Posting(PositionCost, w.costDelta, Some(key), Some(w.unitsDelta), None)]
    + (if w.feeExpense != 0 then [Posting(Fees, w.feeExpense, Some(key), None, Some(w.entryFees))] else [])
    + (if w.realizedPosting != 0 then [Posting(RealizedPnl, w.realizedPosting, Some(key), None, None)] else [])
  }

  function Entered(p: ContractPortfolio, w: Working, t: Trade, operation: int)
    : Result<(ContractPortfolio, LedgerEntry), AccountingError>
  {
    var entry := LedgerEntry(p.agent, OrderAccounting(operation), OrderPostings(w, t.key));
    if !(forall i :: 0 <= i < |entry.postings| ==> ValidPosting(entry.postings[i])) then Failure(BadPosting)
    else if SumOf(entry.postings, Amount) != 0 then Failure(Unbalanced)
    else Success((w.portfolio.(version := p.version + 1), entry))
  }

  /** apply_order_fills as a value. */
  function ApplyOrder(p: ContractPortfolio, t: Trade, fills: seq<EconomicFill>, operation: int)
    : Result<(ContractPortfolio, LedgerEntry), AccountingError>
  {
    if t.agent != p.agent then Failure(WrongAgent)
    else if fills == [] then Failure(NoFills)
    else
      var w := ApplyFills(Start(p), t, fills);
      if w.Failure? then Failure(w.error) else Entered(p, w.value, t, operation)
  }

  /** apply_order_fills: one pass over the fills. */
  method ApplyOrderFills(p: ContractPortfolio, t: Trade, fills: seq<EconomicFill>, operation: int)
    returns (r: Result<(ContractPortfolio, LedgerEntry), AccountingError>)
    ensures r == ApplyOrder(p, t, fills, operation)
  {
    if t.agent != p.agent {
      return Failure(WrongAgent);
    }
    if fills == [] {
      return Failure(NoFills);
    }
    var working := Start(p);
    for i := 0 to |fills|
      invariant ApplyFills(Start(p), t, fills) == ApplyFills(working, t, fills[i..])
    {
      var next := ApplyFill(working, t, fills[i]);
      assert fills[i..][1..] == fills[i+1..];
      if next.Failure? {
        return Failure(next.error);
      }
      working := next.value;
    }
    r := Entered(p, working, t, operation);
  }

  // ----- what every order keeps -----

  function BasisOf(p: Position): int { p.basis }

  function FeesOf(p: Position): int { p.fees }

  ghost function OpenBasis(p: ContractPortfolio): int {
    Total(p.positions, BasisOf)
  }

  ghost function OpenFees(p: ContractPortfolio): int {
    Total(p.positions, FeesOf)
  }

  /** Cash, open cost and open entry fees, less the profit already booked. */
  ghost function Equity(p: ContractPortfolio): int {
    p.cash + OpenBasis(p) + OpenFees(p) - p.realizedPnl
  }

  lemma {:induction false} TotalReplace(p: ContractPortfolio, k: PositionKey, q: Position, cash: nat, pnl: int,
                                        f: Position -> int)
    requires f(NO_POSITION) == 0 && (q.units == 0 ==> f(q) == 0)
    ensures Total(Replace(p, k, q, cash, pnl).positions, f) == Total(p.positions, f) - f(At(p, k)) + f(q)
  {
    if k in p.positions {
      TotalRemove(p.positions, k, f);
    } else {
      assert p.positions - {k} == p.positions;
    }
    TotalSet(p.positions, k, q, f);
  }

  /** Everything the running deltas say about the portfolio they came from. */
  ghost predicate Tracks(p: ContractPortfolio, t: Trade, w: Working) {
    var q := w.portfolio;
    var was, now := At(p, t.key), At(q, t.key);
    && ValidPortfolio(q)
    && q.agent == p.agent && q.version == p.version && q.blocked == p.blocked
    && q.positions - {t.key} == p.positions - {t.key}
    && q.cash == p.cash + w.cashDelta
    && now.units == was.units + w.unitsDelta
    && now.basis == was.basis + w.costDelta
    && now.fees == was.fees + w.entryFees
    && OpenBasis(q) == OpenBasis(p) + w.costDelta
    && OpenFees(q) == OpenFees(p) + w.entryFees
    && q.realizedPnl == p.realizedPnl - w.realizedPosting - w.feeExpense + w.entryFees
    && (now.units != 0 ==> now.realized == was.realized + q.realizedPnl - p.realizedPnl)
    && (t.action.Buy? ==> 0 <= w.entryFees == w.feeExpense && w.realizedPosting == 0 && now.realized == was.realized)
    && (if t.action.Buy? then w.unitsDelta >= 0 else w.unitsDelta <= 0 && w.entryFees <= 0)
  }

  lemma {:induction false} FillTracks(p: ContractPortfolio, t: Trade, w: Working, f: EconomicFill)
    requires Tracks(p, t, w) && ApplyFill(w, t, f).Success?
    ensures Tracks(p, t, ApplyFill(w, t, f).value)
  {
    var v := ApplyFill(w, t, f).value;
    var next := At(v.portfolio, t.key);
    TotalReplace(w.portfolio, t.key, next, v.portfolio.cash, v.portfolio.realizedPnl, BasisOf);
    TotalReplace(w.portfolio, t.key, next, v.portfolio.cash, v.portfolio.realizedPnl, FeesOf);
  }

  function FeeTotal(fills: seq<EconomicFill>): nat {
    if fills == [] then 0 else fills[0].fee + FeeTotal(fills[1..])
  }

  function NetTotal(fills: seq<EconomicFill>): int {
    if fills == [] then 0 else fills[0].net + NetTotal(fills[1..])
  }

  lemma {:induction false} FillsTrack(p: ContractPortfolio, t: Trade, w: Working, fills: seq<EconomicFill>)
    requires Tracks(p, t, w) && ApplyFills(w, t, fills).Success?
    ensures var v := ApplyFills(w, t, fills).value;
            && Tracks(p, t, v)
            && (fills != [] ==> (t.key in v.portfolio.positions <==> At(v.portfolio, t.key).units != 0))
            && v.cashDelta == w.cashDelta + NetTotal(fills)
            && (t.action.Sell? ==> v.feeExpense - v.entryFees == w.feeExpense - w.entryFees + FeeTotal(fills))
    decreases |fills|
  {
    hide Tracks;
    if fills != [] {
      FillTracks(p, t, w, fills[0]);
      FillsTrack(p, t, ApplyFill(w, t, fills[0]).value, fills[1..]);
    }
  }

  /** Any sum over an order's postings is the sum over the four it may hold. */
  lemma {:induction false} OrderPostingSums(w: Working, key: PositionKey, m: Measure)
    ensures SumOf(OrderPostings(w, key), m)
         == Measured(Posting(CashAccount, w.cashDelta, None, None, None), m)
          + Measured(Posting(PositionCost, w.costDelta, Some(key), Some(w.unitsDelta), None), m)
          + (if w.feeExpense == 0 then 0
             else Measured(Posting(Fees, w.feeExpense, Some(key), None, Some(w.entryFees)), m))
          + (if w.realizedPosting == 0 then 0
             else Measured(Posting(RealizedPnl, w.realizedPosting, Some(key), None, None), m))
  {
    var head := [Posting(CashAccount, w.cashDelta, None, None, None),
                 Posting(PositionCost, w.costDelta, Some(key), Some(w.unitsDelta), None)];
    var fees := if w.feeExpense != 0 then [Posting(Fees, w.feeExpense, Some(key), None, Some(w.entryFees))] else [];
    var pnl := if w.realizedPosting != 0 then [Posting(RealizedPnl, w.realizedPosting, Some(key), None, None)] else [];
    SumOfConcat(head + fees, pnl, m);
    SumOfConcat(head, fees, m);
    assert head[1..] == [head[1]];
  }

  /** An accepted order keeps equity, touches one position only, moves the version
      by one, and enters balanced, valid postings whose account totals are the
      changes of the portfolio. */
  lemma {:induction false} OrderIsSound(p: ContractPortfolio, t: Trade, fills: seq<EconomicFill>, operation: int)
    requires ValidPortfolio(p) && ApplyOrder(p, t, fills, operation).Success?
    ensures var (q, e) := ApplyOrder(p, t, fills, operation).value;
            && ValidPortfolio(q) && ValidEntry(e)
            && e.agent == q.agent == p.agent && e.key == OrderAccounting(operation)
            && q.version == p.version + 1 && q.blocked == p.blocked
            && q.positions - {t.key} == p.positions - {t.key}
            && Equity(q) == Equity(p)
            && SumOf(e.postings, AmountIn(CashAccount)) == q.cash - p.cash == NetTotal(fills)
            && SumOf(e.postings, AmountIn(PositionCost)) == OpenBasis(q) - OpenBasis(p)
            && SumOf(e.postings, AmountIn(Fees)) + SumOf(e.postings, AmountIn(RealizedPnl))
               == OpenFees(q) - OpenFees(p) - (q.realizedPnl - p.realizedPnl)
  {
    var w := ApplyFills(Start(p), t, fills).value;
    assert p.positions - {t.key} == p.positions - {t.key};
    FillsTrack(p, t, Start(p), fills);
    OrderPostingSums(w, t.key, Amount);
    OrderPostingSums(w, t.key, AmountIn(CashAccount));
    OrderPostingSums(w, t.key, AmountIn(PositionCost));
    OrderPostingSums(w, t.key, AmountIn(Fees));
    OrderPostingSums(w, t.key, AmountIn(RealizedPnl));
  }

  // ----- what an order does to its position -----

  function GrossTotal(fills: seq<EconomicFill>): nat {
    if fills == [] then 0 else fills[0].gross + GrossTotal(fills[1..])
  }

  function UnitTotal(fills: seq<EconomicFill>): nat {
    if fills == [] then 0 else fills[0].units + UnitTotal(fills[1..])
  }

  /** Fills on their own, before the entry is balanced: a BUY adds what it bought
      and paid; a SELL takes units away and books as profit the proceeds, less
      their fees, less the cost and the entry fees it released. */
  lemma {:induction false} FillsEffect(w: Working, t: Trade, fills: seq<EconomicFill>)
    requires ValidPortfolio(w.portfolio) && ApplyFills(w, t, fills).Success?
    ensures var v := ApplyFills(w, t, fills).value;
            var was, now := At(w.portfolio, t.key), At(v.portfolio, t.key);
            && ValidPortfolio(v.portfolio)
            && (t.action.Buy? ==>
                  && now.units == was.units + UnitTotal(fills) && now.basis == was.basis + GrossTotal(fills)
                  && now.fees == was.fees + FeeTotal(fills) && v.portfolio.realizedPnl == w.portfolio.realizedPnl)
            && (t.action.Sell? ==>
                  && now.units == was.units - UnitTotal(fills) && now.basis <= was.basis && now.fees <= was.fees
                  && v.portfolio.realizedPnl - w.portfolio.realizedPnl
                     == GrossTotal(fills) - FeeTotal(fills) - (was.basis - now.basis) - (was.fees - now.fees))
    decreases |fills|
  {
    if fills != [] {
      hide ApplyFill;
      var v := ApplyFill(w, t, fills[0]).value;
      FillEffect(w, t, fills[0]);
      FillsEffect(v, t, fills[1..]);
    }
  }

  lemma {:induction false} FillEffect(w: Working, t: Trade, f: EconomicFill)
    requires ValidPortfolio(w.portfolio) && ApplyFill(w, t, f).Success?
    ensures var v := ApplyFill(w, t, f).value;
            var was, now := At(w.portfolio, t.key), At(v.portfolio, t.key);
            && ValidPortfolio(v.portfolio)
            && (t.action.Buy? ==>
                  && now.units == was.units + f.units && now.basis == was.basis + f.gross
                  && now.fees == was.fees + f.fee && v.portfolio.realizedPnl == w.portfolio.realizedPnl)
            && (t.action.Sell? ==>
                  && now.units == was.units - f.units && now.basis <= was.basis && now.fees <= was.fees
                  && v.portfolio.realizedPnl - w.portfolio.realizedPnl
                     == f.gross - f.fee - (was.basis - now.basis) - (was.fees - now.fees))
  {
    if t.action.Sell? {
      SellEffect(w, t, f);
    }
  }

  /** An accepted order moves exactly its totals. The net cash of its fills is a
      separate input, so balancing the entry is what ties it to gross and fees. */
  lemma {:induction false} OrderEffect(p: ContractPortfolio, t: Trade, fills: seq<EconomicFill>, operation: int)
    requires ValidPortfolio(p) && ApplyOrder(p, t, fills, operation).Success?
    ensures var q := ApplyOrder(p, t, fills, operation).value.0;
            var was, now := At(p, t.key), At(q, t.key);
            match t.action
            case Buy =>
              && now.units == was.units + UnitTotal(fills) && now.basis == was.basis + GrossTotal(fills)
              && now.fees == was.fees + FeeTotal(fills) && q.realizedPnl == p.realizedPnl
              && p.cash - q.cash == GrossTotal(fills) + FeeTotal(fills)
            case Sell =>
              && now.units == was.units - UnitTotal(fills) && now.basis <= was.basis && now.fees <= was.fees
              && q.cash - p.cash == GrossTotal(fills) - FeeTotal(fills)
              && q.realizedPnl - p.realizedPnl
                 == q.cash - p.cash - (was.basis - now.basis) - (was.fees - now.fees)
  {
    hide ApplyFills, Entered, Equity, OpenBasis, OpenFees, ValidEntry, SumOf;
    EnteredPortfolio(p, t, fills, operation);
    FillsEffect(Start(p), t, fills);
    BalanceFixesCash(p, t, fills, operation);
  }

  lemma {:induction false} EnteredPortfolio(p: ContractPortfolio, t: Trade, fills: seq<EconomicFill>, operation: int)
    requires ApplyOrder(p, t, fills, operation).Success?
    ensures ApplyFills(Start(p), t, fills).Success?
    ensures ApplyOrder(p, t, fills, operation).value.0
         == ApplyFills(Start(p), t, fills).value.portfolio.(version := p.version + 1)
  {
  }

  /** What is left after equity is kept and the position is accounted for. */
  lemma {:induction false} BalanceFixesCash(p: ContractPortfolio, t: Trade, fills: seq<EconomicFill>, operation: int)
    requires ValidPortfolio(p) && ApplyOrder(p, t, fills, operation).Success?
    ensures var q := ApplyOrder(p, t, fills, operation).value.0;
            var was, now := At(p, t.key), At(q, t.key);
            p.cash + was.basis + was.fees - p.realizedPnl == q.cash + now.basis + now.fees - q.realizedPnl
  {
    OrderIsSound(p, t, fills, operation);
    var q := ApplyOrder(p, t, fills, operation).value.0;
    SplitTotals(p, t.key, BasisOf);
    SplitTotals(q, t.key, BasisOf);
    SplitTotals(p, t.key, FeesOf);
    SplitTotals(q, t.key, FeesOf);
  }

  lemma {:induction false} SplitTotals(p: ContractPortfolio, k: PositionKey, f: Position -> int)
    requires f(NO_POSITION) == 0
    ensures Total(p.positions, f) == Total(p.positions - {k}, f) + f(At(p, k))
  {
    if k in p.positions {
      TotalRemove(p.positions, k, f);
    } else {
      assert p.positions - {k} == p.positions;
    }
  }

  // ----- exactly which orders are accepted -----

  /** Net cash as execution computes it from gross and fee. */
  predicate Priced(t: Trade, fills: seq<EconomicFill>) {
    forall i :: 0 <= i < |fills| ==>
      fills[i].net == if t.action.Buy? then -(fills[i].gross + fills[i].fee) else fills[i].gross - fills[i].fee
  }

  /** What is left of a position's basis, or of its entry fees, after selling some
      fills of it. */
  function ShareLeft(units: nat, total: nat, fills: seq<EconomicFill>): nat {
    if fills == [] || fills[0].units > units then total
    else
      ProRataIsNearest(total, fills[0].units, units);
      ShareLeft(units - fills[0].units, total - ProRata(total, fills[0].units, units), fills[1..])
  }

  /** The deltas that become postings, added up. */
  function Imbalance(w: Working): int {
    w.cashDelta + w.costDelta + w.feeExpense + w.realizedPosting
  }

  lemma {:induction false} BuyFillsAccepted(w: Working, t: Trade, fills: seq<EconomicFill>)
    requires t.action.Buy? && Priced(t, fills)
    ensures var r := ApplyFills(w, t, fills);
            && (r.Success? <==>
                  && (forall i :: 0 <= i < |fills| ==> 0 < fills[i].gross + fills[i].fee)
                  && (fills == [] || GrossTotal(fills) + FeeTotal(fills) <= w.portfolio.cash))
            && (r.Success? ==>
                  && Imbalance(r.value) == Imbalance(w)
                  && r.value.cashDelta == w.cashDelta - GrossTotal(fills) - FeeTotal(fills)
                  && r.value.unitsDelta == w.unitsDelta + UnitTotal(fills)
                  && r.value.feeExpense - r.value.entryFees == w.feeExpense - w.entryFees)
    decreases |fills|
  {
    if fills != [] {
      var first := ApplyFill(w, t, fills[0]);
      if first.Success? {
        BuyFillsAccepted(first.value, t, fills[1..]);
        assert fills[1..] == [] ==> GrossTotal(fills[1..]) == FeeTotal(fills[1..]) == 0;
      }
      assert forall i :: 1 <= i < |fills| ==> fills[i] == fills[1..][i-1];
    }
  }

  lemma {:induction false} SellDeltas(w: Working, t: Trade, f: EconomicFill)
    requires t.action.Sell? && ValidPortfolio(w.portfolio) && f.net == f.gross - f.fee
    ensures var r, was := ApplyFill(w, t, f), At(w.portfolio, t.key);
            && (r.Success? <==> f.units <= was.units && 0 < f.net)
            && (r.Success? ==>
                  var basis, fees := ProRata(was.basis, f.units, was.units), ProRata(was.fees, f.units, was.units);
                  var now := At(r.value.portfolio, t.key);
                  && ValidPortfolio(r.value.portfolio) && Imbalance(r.value) == Imbalance(w)
                  && now.units == was.units - f.units && now.basis == was.basis - basis && now.fees == was.fees - fees
                  && r.value.cashDelta == w.cashDelta + f.net && r.value.unitsDelta == w.unitsDelta - f.units
                  && r.value.entryFees == w.entryFees - fees && r.value.costDelta == w.costDelta - basis
                  && r.value.feeExpense - r.value.entryFees == w.feeExpense - w.entryFees + f.fee)
  {
    hide ProRata;
    if ApplyFill(w, t, f).Success? {
      SellEffect(w, t, f);
    }
  }

  lemma {:induction false} SellFillsAccepted(w: Working, t: Trade, fills: seq<EconomicFill>)
    requires t.action.Sell? && Priced(t, fills) && ValidPortfolio(w.portfolio)
    ensures var r, was := ApplyFills(w, t, fills), At(w.portfolio, t.key);
            && (r.Success? <==> (forall i :: 0 <= i < |fills| ==> 0 < fills[i].net) && UnitTotal(fills) <= was.units)
            && (r.Success? ==>
                  && Imbalance(r.value) == Imbalance(w)
                  && r.value.cashDelta == w.cashDelta + NetTotal(fills)
                  && r.value.unitsDelta == w.unitsDelta - UnitTotal(fills)
                  && r.value.entryFees == w.entryFees - was.fees + ShareLeft(was.units, was.fees, fills)
                  && r.value.costDelta == w.costDelta - was.basis + ShareLeft(was.units, was.basis, fills)
                  && r.value.feeExpense - r.value.entryFees == w.feeExpense - w.entryFees + FeeTotal(fills))
  {
    hide ShareLeft, ApplyFills, Imbalance, NetTotal, FeeTotal, UnitTotal, ValidPortfolio;
    SellFillsSucceed(w, t, fills);
    if ApplyFills(w, t, fills).Success? {
      SellFillsDeltas(w, t, fills);
    }
  }

  lemma {:induction false} SellFillsSucceed(w: Working, t: Trade, fills: seq<EconomicFill>)
    requires t.action.Sell? && Priced(t, fills) && ValidPortfolio(w.portfolio)
    ensures ApplyFills(w, t, fills).Success?
       <==> (forall i :: 0 <= i < |fills| ==> 0 < fills[i].net) && UnitTotal(fills) <= At(w.portfolio, t.key).units
    decreases |fills|
  {
    if fills != [] {
      hide ProRata, ValidPortfolio, ApplyFill, Imbalance;
      SellDeltas(w, t, fills[0]);
      if ApplyFill(w, t, fills[0]).Success? {
        SellFillsSucceed(ApplyFill(w, t, fills[0]).value, t, fills[1..]);
      }
      assert forall i :: 1 <= i < |fills| ==> fills[i] == fills[1..][i-1];
    }
  }

  lemma {:induction false} SellFillsDeltas(w: Working, t: Trade, fills: seq<EconomicFill>)
    requires t.action.Sell? && Priced(t, fills) && ValidPortfolio(w.portfolio) && ApplyFills(w, t, fills).Success?
    ensures var v, was := ApplyFills(w, t, fills).value, At(w.portfolio, t.key);
            && Imbalance(v) == Imbalance(w)
            && v.cashDelta == w.cashDelta + NetTotal(fills)
            && v.unitsDelta == w.unitsDelta - UnitTotal(fills)
            && v.entryFees == w.entryFees - was.fees + ShareLeft(was.units, was.fees, fills)
            && v.costDelta == w.costDelta - was.basis + ShareLeft(was.units, was.basis, fills)
            && v.feeExpense - v.entryFees == w.feeExpense - w.entryFees + FeeTotal(fills)
    decreases |fills|
  {
    if fills != [] {
      hide ProRata, ValidPortfolio, ApplyFill, Imbalance;
      SellDeltas(w, t, fills[0]);
      SellFillsDeltas(ApplyFill(w, t, fills[0]).value, t, fills[1..]);
    }
  }

  /** Accounting accepts an order exactly when every fill moves cash the right
      way and the account covers it: a BUY out of its cash, a SELL out of its
      position. One case more is refused: a SELL that is charged fees while
      releasing no entry fees, whose fee posting would carry a zero release. */
  lemma {:induction false} OrderAcceptedExactlyWhen(p: ContractPortfolio, t: Trade, fills: seq<EconomicFill>,
                                                    operation: int)
    requires ValidPortfolio(p) && Priced(t, fills)
    ensures var was := At(p, t.key);
            ApplyOrder(p, t, fills, operation).Success? <==>
              && t.agent == p.agent && fills != []
              && match t.action
                 case Buy =>
                   && (forall i :: 0 <= i < |fills| ==> 0 < fills[i].gross + fills[i].fee)
                   && GrossTotal(fills) + FeeTotal(fills) <= p.cash
                 case Sell =>
                   && (forall i :: 0 <= i < |fills| ==> 0 < fills[i].net)
                   && UnitTotal(fills) <= was.units
                   && (FeeTotal(fills) == 0 || ShareLeft(was.units, was.fees, fills) < was.fees)
  {
    if t.agent != p.agent || fills == [] {
      return;
    }
    hide ApplyFills, ProRata;
    match t.action {
      case Buy => BuyFillsAccepted(Start(p), t, fills);
      case Sell =>
        SellFillsAccepted(Start(p), t, fills);
        FeesOnlyFall(At(p, t.key).units, At(p, t.key).fees, fills);
    }
    var r := ApplyFills(Start(p), t, fills);
    if r.Success? {
      assert 0 < fills[0].units;
      FillsMoveCash(t, fills);
      PostingsAccepted(p, r.value, t, operation);
    }
  }

  /** A fill of the order that does not move cash the way its action says. */
  ghost predicate MovesCashWrong(t: Trade, fills: seq<EconomicFill>) {
    exists i :: 0 <= i < |fills| && if t.action.Buy? then fills[i].net >= 0 else fills[i].net <= 0
  }

  /** Why accounting refuses the fills of an order that the account covers: over
      cash if and only if a fill does not move cash the right way. */
  lemma {:induction false} RefusedOverCash(p: ContractPortfolio, t: Trade, fills: seq<EconomicFill>, operation: int)
    requires ValidPortfolio(p) && Priced(t, fills) && t.agent == p.agent && fills != []
    requires t.action.Buy? ==> GrossTotal(fills) + FeeTotal(fills) <= p.cash
    requires t.action.Sell? ==> UnitTotal(fills) <= At(p, t.key).units
    ensures var r := ApplyOrder(p, t, fills, operation);
            && (MovesCashWrong(t, fills) ==> r == Failure(CashDeltaSign))
            && (r.Failure? && !MovesCashWrong(t, fills) ==> r.error in {BadPosting, Unbalanced})
  {
    hide ApplyFills;
    if MovesCashWrong(t, fills) {
      WrongCashFails(Start(p), t, fills);
    } else if t.action.Buy? {
      BuyFillsAccepted(Start(p), t, fills);
    } else {
      SellFillsAccepted(Start(p), t, fills);
    }
  }

  lemma {:induction false} WrongCashFails(w: Working, t: Trade, fills: seq<EconomicFill>)
    requires ValidPortfolio(w.portfolio) && Priced(t, fills) && MovesCashWrong(t, fills)
    requires t.action.Buy? ==> GrossTotal(fills) + FeeTotal(fills) <= w.portfolio.cash
    requires t.action.Sell? ==> UnitTotal(fills) <= At(w.portfolio, t.key).units
    ensures ApplyFills(w, t, fills) == Failure(CashDeltaSign)
    decreases |fills|
  {
    hide ProRata;
    var first := ApplyFill(w, t, fills[0]);
    if first.Success? {
      FillEffect(w, t, fills[0]);
      assert forall i :: 1 <= i < |fills| ==> fills[i] == fills[1..][i-1];
      WrongCashFails(first.value, t, fills[1..]);
    }
  }

  lemma {:induction false} FeesOnlyFall(units: nat, fees: nat, fills: seq<EconomicFill>)
    ensures ShareLeft(units, fees, fills) <= fees
    decreases |fills|
  {
    if fills != [] && fills[0].units <= units {
      ProRataIsNearest(fees, fills[0].units, units);
      FeesOnlyFall(units - fills[0].units, fees - ProRata(fees, fills[0].units, units), fills[1..]);
    }
  }

  lemma {:induction false} FillsMoveCash(t: Trade, fills: seq<EconomicFill>)
    requires Priced(t, fills) && fills != []
    requires forall i :: 0 <= i < |fills| ==> if t.action.Buy? then fills[i].net < 0 else fills[i].net > 0
    ensures NetTotal(fills)
         == if t.action.Buy? then -(GrossTotal(fills) + FeeTotal(fills)) else GrossTotal(fills) - FeeTotal(fills)
    ensures if t.action.Buy? then NetTotal(fills) < 0 else NetTotal(fills) > 0
  {
    assert forall i :: 1 <= i < |fills| ==> fills[i] == fills[1..][i-1];
    if |fills| == 1 {
      assert fills[1..] == [];
    } else {
      FillsMoveCash(t, fills[1..]);
    }
  }

  /** The entry is refused only over a fee posting without a release. */
  lemma {:induction false} PostingsAccepted(p: ContractPortfolio, w: Working, t: Trade, operation: int)
    requires Imbalance(w) == 0 && w.cashDelta != 0 && w.unitsDelta != 0
    ensures Entered(p, w, t, operation).Success? <==> w.feeExpense == 0 || w.entryFees != 0
  {
    OrderPostingSums(w, t.key, Amount);
    var postings := OrderPostings(w, t.key);
    if w.feeExpense != 0 {
      assert postings[2] == Posting(Fees, w.feeExpense, Some(t.key), None, Some(w.entryFees));
    }
  }

  // ----- how far partial sells drift -----

  /** Distance, in units of 1 / (2 * units0), between the basis held and the
      exact proportional share basis0 * units / units0. */
  function Drift(units0: nat, basis0: nat, p: Position): int {
    2 * (units0 * p.basis - basis0 * p.units)
  }

  ghost predicate Within(units0: nat, basis0: nat, p: Position, steps: nat) {
    -(steps * units0) <= Drift(units0, basis0, p) <= steps * units0
  }

  lemma {:induction false} ScaleUp(a: int, b: int, k: nat)
    requires a <= b
    ensures k * a <= k * b
  {
    assert k * b == k * a + k * (b - a);
  }

  /** Scaled by the units held, the new deviation is the old one shrunk, plus the
      rounding error of this removal. */
  lemma {:induction false} DriftIdentity(u0: int, b0: int, u: int, b: int, sold: int, removed: int)
    ensures u * (2 * (u0 * (b - removed) - b0 * (u - sold)))
         == (u - sold) * (2 * (u0 * b - b0 * u)) - u0 * (2 * (removed * u) - 2 * (b * sold))
  {
    assert u * (u0 * (b - removed)) == u * u0 * b - u0 * (removed * u);
    assert u * (b0 * (u - sold)) == (u - sold) * (b0 * u);
    assert (u - sold) * (u0 * b) == u * u0 * b - u0 * (b * sold);
  }

  lemma {:induction false} Cancel(u: pos, x: int, y: int)
    requires u * x <= u * y
    ensures x <= y
  {
    assert u * (y + 1) == u * y + u;
    if y < x {
      ScaleUp(y + 1, x, u);
    }
  }

  /** A deviation of at most `bound`, shrunk, plus an error of at most u. */
  lemma {:induction false} DriftBound(u0: nat, u: pos, rest: nat, was: int, next: int, err: int, bound: nat)
    requires rest <= u && 0 <= err + u && was <= bound
    requires u * next == rest * was - u0 * err
    ensures next <= bound + u0
  {
    ScaleUp(was, bound, rest);
    ScaleUp(rest, u, bound);
    ScaleUp(0 - u, err, u0);
    assert u0 * (0 - u) == -(u * u0);
    assert u * (bound + u0) == bound * u + u * u0;
    assert rest * bound == bound * rest;
    Cancel(u, next, bound + u0);
  }

  /** One partial sell moves the basis by at most half a micro-dollar away from
      the proportional share, and never enlarges an earlier deviation. */
  lemma {:induction false} SellDrift(units0: nat, basis0: nat, p: Position, q: Position, sold: pos, steps: nat)
    requires sold <= p.units && q.units == p.units - sold
    requires q.basis == p.basis - ProRata(p.basis, sold, p.units)
    requires Within(units0, basis0, p, steps)
    ensures Within(units0, basis0, q, steps + 1)
  {
    hide ProRata;
    var removed := ProRata(p.basis, sold, p.units);
    ProRataIsNearest(p.basis, sold, p.units);
    DriftNext(units0, basis0, p.units, p.basis, sold, removed, steps * units0);
    assert (steps + 1) * units0 == steps * units0 + units0;
  }

  /** The same on numbers: removing a nearest integer to the sold share. */
  lemma {:induction false} DriftNext(u0: nat, b0: nat, u: pos, b: nat, sold: pos, removed: nat, bound: nat)
    requires sold <= u && removed <= b
    requires 0 - u <= 2 * Mul(removed, u) - 2 * Mul(b, sold) <= u
    requires 0 - bound <= 2 * (u0 * b - b0 * u) <= bound
    ensures 0 - bound - u0 <= 2 * (u0 * (b - removed) - b0 * (u - sold)) <= bound + u0
  {
    var err := 2 * Mul(removed, u) - 2 * Mul(b, sold);
    var was, next := 2 * (u0 * b - b0 * u), 2 * (u0 * (b - removed) - b0 * (u - sold));
    assert u * next == (u - sold) * was - u0 * err by {
      DriftIdentity(u0, b0, u, b, sold, removed);
    }
    DriftBound(u0, u, u - sold, was, next, err, bound);
    assert u * -next == (u - sold) * -was - u0 * -err;
    DriftBound(u0, u, u - sold, -was, -next, -err, bound);
  }

  /** What an accepted SELL fill leaves of the position. */
  lemma {:induction false} SellEffect(w: Working, t: Trade, f: EconomicFill)
    requires t.action.Sell? && ValidPortfolio(w.portfolio) && ApplyFill(w, t, f).Success?
    ensures var v, p := ApplyFill(w, t, f).value, At(w.portfolio, t.key);
            var q := At(v.portfolio, t.key);
            && ValidPortfolio(v.portfolio)
            && f.units <= p.units && q.units == p.units - f.units
            && q.basis == p.basis - ProRata(p.basis, f.units, p.units) <= p.basis
            && q.fees == p.fees - ProRata(p.fees, f.units, p.units) <= p.fees
  {
  }

  /** Sells of one position, however many orders they came in: after k fills the
      basis held is within k / 2 micro-dollars of its proportional share of the
      starting basis, and nothing is left once the units are gone. */
  lemma {:induction false} SellsDrift(w: Working, t: Trade, fills: seq<EconomicFill>, units0: nat, basis0: nat,
                                      steps: nat)
    requires t.action.Sell? && ValidPortfolio(w.portfolio) && ApplyFills(w, t, fills).Success?
    requires Within(units0, basis0, At(w.portfolio, t.key), steps)
    ensures var q := At(ApplyFills(w, t, fills).value.portfolio, t.key);
            && Within(units0, basis0, q, steps + |fills|)
            && q.basis <= At(w.portfolio, t.key).basis && q.fees <= At(w.portfolio, t.key).fees
            && (q.units == 0 ==> q.basis == 0 && q.fees == 0)
    decreases |fills|
  {
    if fills != [] {
      hide ApplyFill, ProRata, Within;
      var v := ApplyFill(w, t, fills[0]).value;
      SellEffect(w, t, fills[0]);
      SellDrift(units0, basis0, At(w.portfolio, t.key), At(v.portfolio, t.key), fills[0].units, steps);
      SellsDrift(v, t, fills[1..], units0, basis0, steps + 1);
    }
  }
}
