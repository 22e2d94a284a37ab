/** Paper execution of one order, and the broker that remembers results and
    blocks agents with an unresolved order (src/vtrade/broker.py). */
module Broker {
  import opened Domain
  import opened Fees
  import opened Fitting
  import opened Ledger
  import opened Liquidity
  import opened Planning
  import opened Portfolio

  // ----- inputs and results -----

  datatype OrderBook = OrderBook(yesBids: seq<Level>, yesAsks: seq<Level>, noBids: seq<Level>, noAsks: seq<Level>)

  function LadderFor(book: OrderBook, outcome: OutcomeSide, action: Side): seq<Level> {
    match (outcome, action)
    case (Yes, Buy) => book.yesAsks
    case (Yes, Sell) => book.yesBids
    case (No, Buy) => book.noAsks
    case (No, Sell) => book.noBids
  }

  ghost predicate ValidBook(book: OrderBook) {
    ValidLevels(book.yesBids) && ValidLevels(book.yesAsks) && ValidLevels(book.noBids) && ValidLevels(book.noAsks)
  }

  datatype ErrorCode = IdempotencyConflict | ReconciliationRequired | InvalidContext | StaleBook
                     | HaircutEvidenceInsufficient | FeePolicyRefused | InsufficientContracts | InsufficientCash
                     | InsufficientLiquidity | PriceLimit | ConcentrationLimit | ConflictingEvidence

  /** Verdict of the context checks, freshness included, and the book. */
  datatype MarketContext = MarketContext(refusal: Option<ErrorCode>, book: OrderBook)

  /** Verdict of the fee-policy checks. */
  datatype FeeGate = Refused | Usable(policy: FeePolicy)

  /** Everything execute is given besides the request. */
  datatype Inputs = Inputs(
    portfolio: ContractPortfolio, pending: bool, context: Option<MarketContext>, fees: FeeGate,
    accountValue: Option<nat>)

  /** Largest share of account value one market's cost basis may take. */
  datatype Concentration = Concentration(numerator: pos, denominator: pos)

  datatype OrderState = Rejected | Pending | PartiallyFilled | FullyFilled | Cancelled

  datatype ReconciliationState = NotRequired | Required | Resolved | Conflict

  datatype OrderResult = OrderResult(
    request: OrderRequest, state: OrderState, reconciliation: ReconciliationState,
    requested: int, filled: int, remaining: int, cancelled: int, fills: seq<EconomicFill>,
    grossDelta: int, fee: int, netDelta: int, error: Option<ErrorCode>,
    before: ContractPortfolio, after: ContractPortfolio, entries: seq<LedgerEntry>, audit: Option<HaircutAudit>)

  /** What OrderResult's constructor accepts. */
  predicate ConstructorAccepts(o: OrderResult) {
    && 0 <= o.requested && 0 <= o.filled && 0 <= o.remaining && 0 <= o.cancelled
    && (o.request.amount.Contracts? ==>
          o.requested == o.request.amount.units && o.filled + o.remaining + o.cancelled == o.requested)
    && o.filled == UnitTotal(o.fills)
    && 0 <= o.fee && o.netDelta == o.grossDelta - o.fee
    && (o.state.FullyFilled? && o.request.amount.Contracts? ==> o.filled == o.requested)
    && (o.state.PartiallyFilled? ==> o.filled > 0)
    && (o.state.Rejected? ==> o.fills == [])
  }

  function RequestedUnits(r: OrderRequest): nat {
    if r.amount.Contracts? then r.amount.units else 0
  }

  function Unfilled(r: OrderRequest, p: ContractPortfolio, state: OrderState, rec: ReconciliationState, code: ErrorCode)
    : OrderResult
  {
    OrderResult(r, state, rec, RequestedUnits(r), 0, RequestedUnits(r), 0, [], 0, 0, 0, Some(code), p, p, [], None)
  }

  function RejectedResult(r: OrderRequest, p: ContractPortfolio, code: ErrorCode): OrderResult {
    Unfilled(r, p, Rejected, NotRequired, code)
  }

  function PendingResult(r: OrderRequest, p: ContractPortfolio): OrderResult {
    Unfilled(r, p, Pending, Required, ReconciliationRequired)
  }

  /** Execution either returns a result or raises out of the broker. */
  datatype Outcome = Returned(result: OrderResult) | Raised

  // ----- from a fresh context to fills -----

  /** Fills of the planned lots, priced by their fee records. */
  function FillsOf(lots: seq<Lot>, calculations: seq<FeeCalculation>, action: Side): seq<EconomicFill>
    requires ValidLots(lots) && |lots| == |calculations|
    requires forall i :: 0 <= i < |lots| ==> 0 <= calculations[i].netFee
  {
    if lots == [] then []
    else
      var c := calculations[0];
      [EconomicFill(lots[0].units, c.gross, c.netFee, Signed(c.gross, action) - c.netFee)]
      + FillsOf(lots[1..], calculations[1..], action)
  }

  /** What the accounting's refusal is reported as. */
  function AccountingCode(e: AccountingError): ErrorCode {
    match e
    case CashDeltaSign => InsufficientCash
    case NegativeCash => InsufficientCash
    case _ => InsufficientContracts
  }

  function TradeOf(r: OrderRequest): Trade {
    Trade(r.agent, r.Key(), r.action)
  }

  function MarketBasis(p: ContractPortfolio, m: MarketRef): nat {
    At(p, PositionKey(m, Yes)).basis + At(p, PositionKey(m, No)).basis
  }

  predicate Approved(limit: Concentration, accountValue: nat, existing: nat, proposed: int) {
    (existing + proposed) * limit.denominator <= accountValue * limit.numerator
  }

  /** A FOK order must be complete: all units, or for CASH all of the amount. */
  predicate Complete(r: OrderRequest, lots: seq<Lot>, gross: int) {
    match r.amount
    case Contracts(units) => TotalUnits(lots) == units
    case Cash(micros) => gross == micros
  }

  /** Checks passed, accounting done; or a rejection with its reason. */
  datatype Stage = Stopped(code: ErrorCode)
                 | Ready(lots: seq<Lot>, calculations: seq<FeeCalculation>, fills: seq<EconomicFill>,
                         updated: ContractPortfolio, entry: LedgerEntry)

  /** Risk checks and accounting of a fitted plan. */
  function Assess(limit: Concentration, r: OrderRequest, inp: Inputs, lots: seq<Lot>, policy: FeePolicy, operation: int)
    : Stage
    requires ValidLots(lots)
  {
    var p := inp.portfolio;
    var calculations := FeeRun(lots, policy, r.action, 0);
    var gross, fee := SumGross(calculations), SumNet(calculations);
    if r.timeInForce.Fok? && !Complete(r, lots, gross) then
      Stopped(if r.limit.Some? && TotalUnits(lots) == 0 then PriceLimit else InsufficientLiquidity)
    else if r.amount.Contracts? && r.action.Sell? && TotalUnits(lots) > At(p, r.Key()).units then
      Stopped(InsufficientContracts)
    else if r.action.Buy? && gross + fee > p.cash then Stopped(InsufficientCash)
    else if r.action.Buy? && inp.accountValue.None? then Stopped(InvalidContext)
    else if r.action.Buy? && !Approved(limit, inp.accountValue.value, MarketBasis(p, r.market), gross) then
      Stopped(ConcentrationLimit)
    else
      RecordsAreSound(lots, policy, r.action, 0);
      var fills := FillsOf(lots, calculations, r.action);
      var applied := ApplyOrder(p, TradeOf(r), fills, operation);
      if applied.Failure? then Stopped(AccountingCode(applied.error))
      else Ready(lots, calculations, fills, applied.value.0, applied.value.1)
  }

  /** Haircut, greedy plan, cash fit, then accounting. */
  function Prepare(limit: Concentration, r: OrderRequest, inp: Inputs, context: MarketContext, operation: int): Stage
    requires ValidBook(context.book)
  {
    var p := inp.portfolio;
    if context.refusal.Some? then Stopped(context.refusal.value)
    else if inp.fees.Refused? then Stopped(FeePolicyRefused)
    else
      var haircut := ApplyHaircut(LadderFor(context.book, r.outcome, r.action));
      if haircut.Failure? then Stopped(HaircutEvidenceInsufficient)
      else if r.action.Sell? && r.Key() !in p.positions then Stopped(InsufficientContracts)
      else
        HaircutKeepsHalf(LadderFor(context.book, r.outcome, r.action));
        var owned := if r.Key() in p.positions then Some(p.positions[r.Key()].units) else None;
        var planned := PlanOf(r, haircut.value.0, owned);
        PlanIsGreedy(r, haircut.value.0, owned);
        if planned == [] then Stopped(if r.limit.Some? then PriceLimit else InsufficientLiquidity)
        else Assess(limit, r, inp, FitOf(planned, inp.fees.policy, r.action, p.cash), inp.fees.policy, operation)
  }

  function MaxZero(x: int): nat {
    if x < 0 then 0 else x
  }

  /** The accepted result: the same number of units goes into both remaining and
      cancelled, and the constructor checks their sum. */
  function Conclude(r: OrderRequest, inp: Inputs, audit: HaircutAudit, s: Stage): Outcome
    requires s.Ready? && ValidLots(s.lots)
  {
    var filled := TotalUnits(s.lots);
    var requested := if r.amount.Contracts? then r.amount.units else filled;
    var after := AfterFills(audit, ConsumedBy(s.lots), requested);
    var unfilled := MaxZero(requested - filled);
    var gross, fee := Signed(SumGross(s.calculations), r.action), SumNet(s.calculations);
    if after.Failure? then Raised
    else
      var result := OrderResult(
        r, if unfilled == 0 then FullyFilled else PartiallyFilled, NotRequired,
        requested, filled, unfilled, unfilled, s.fills, gross, fee, gross - fee, None,
        inp.portfolio, s.updated, [s.entry], Some(after.value));
      if ConstructorAccepts(result) then Returned(result) else Raised
  }

  lemma {:induction false} ReadyLotsAreValid(limit: Concentration, r: OrderRequest, inp: Inputs,
                                             context: MarketContext, operation: int)
    requires ValidBook(context.book) && Prepare(limit, r, inp, context, operation).Ready?
    ensures ValidLots(Prepare(limit, r, inp, context, operation).lots)
  {
  }

  /** The part of execute that trades: a fresh, accepted context is at hand. */
  function Evaluate(limit: Concentration, r: OrderRequest, inp: Inputs, context: MarketContext, operation: int): Outcome
    requires ValidBook(context.book)
  {
    var s := Prepare(limit, r, inp, context, operation);
    if s.Stopped? then Returned(RejectedResult(r, inp.portfolio, s.code))
    else
      ReadyLotsAreValid(limit, r, inp, context, operation);
      Conclude(r, inp, ApplyHaircut(LadderFor(context.book, r.outcome, r.action)).value.1, s)
  }

  // ----- what execution guarantees -----

  lemma {:induction false} FillsAddUp(lots: seq<Lot>, calculations: seq<FeeCalculation>, action: Side)
    requires ValidLots(lots) && |lots| == |calculations|
    requires forall i :: 0 <= i < |lots| ==> 0 <= calculations[i].netFee
    ensures var fills := FillsOf(lots, calculations, action);
            && |fills| == |lots|
            && UnitTotal(fills) == TotalUnits(lots)
            && NetTotal(fills) == Signed(SumGross(calculations), action) - SumNet(calculations)
            && GrossTotal(fills) == SumGross(calculations) && FeeTotal(fills) == SumNet(calculations)
  {
    if lots != [] {
      FillsAddUp(lots[1..], calculations[1..], action);
      assert FillsOf(lots, calculations, action)[1..] == FillsOf(lots[1..], calculations[1..], action);
    }
  }

  /** Two guards of execute never fire: a fitted BUY never costs more than the
      cash, and a planned SELL never exceeds the position. */
  lemma {:induction false} FittedWithinMeans(r: OrderRequest, levels: seq<Level>, owned: Option<nat>,
                                             policy: FeePolicy, cash: nat)
    requires ValidLevels(levels)
    ensures var planned := PlanOf(r, levels, owned);
            && FromLadder(r, planned, levels, 0)
            && var lots := FitOf(planned, policy, r.action, cash);
               var run := FeeRun(lots, policy, r.action, 0);
               && FromLadder(r, lots, levels, 0)
               && (r.action.Buy? ==> SumGross(run) + SumNet(run) <= cash)
               && (r.action.Sell? && owned.Some? ==> TotalUnits(lots) <= owned.value)
               && (r.amount.Contracts? ==> TotalUnits(lots) <= r.amount.units)
  {
    hide PlanFrom, FeeRun, BuyCost, FromLadder;
    PlanIsGreedy(r, levels, owned);
    var planned := PlanOf(r, levels, owned);
    assert ValidLots(planned) by { LadderLotsAreValid(r, planned, levels); }
    FitStaysOnLadder(r, planned, levels, policy, cash);
    if r.action.Buy? {
      FitIsExact(planned, policy, cash);
      BuyAllIsFeeRun(Spend(0, 0), FitOf(planned, policy, r.action, cash), policy);
      CostIsSpend(FitOf(planned, policy, r.action, cash), policy);
    }
  }

  lemma {:induction false} LadderLotsAreValid(r: OrderRequest, lots: seq<Lot>, levels: seq<Level>)
    requires FromLadder(r, lots, levels, 0)
    ensures ValidLots(lots)
  {
  }

  lemma {:induction false} CostIsSpend(lots: seq<Lot>, policy: FeePolicy)
    requires ValidLots(lots)
    ensures BuyCost(lots, policy) == BuyAll(Spend(0, 0), lots, policy).cost
  {
  }

  /** What a stage that reaches fills has established. */
  ghost predicate Filling(r: OrderRequest, inp: Inputs, effective: seq<Level>, s: Stage, operation: int)
    requires s.Ready?
  {
    var p := inp.portfolio;
    && FromLadder(r, s.lots, effective, 0)
    && 0 < TotalUnits(s.lots) && (r.amount.Contracts? ==> TotalUnits(s.lots) <= r.amount.units)
    && UnitTotal(s.fills) == TotalUnits(s.lots) && s.fills != []
    && 0 <= SumNet(s.calculations)
    && (r.timeInForce.Fok? ==> Complete(r, s.lots, SumGross(s.calculations)))
    && ApplyOrder(p, TradeOf(r), s.fills, operation) == Success((s.updated, s.entry))
    && NetTotal(s.fills) == Signed(SumGross(s.calculations), r.action) - SumNet(s.calculations)
    && GrossTotal(s.fills) == SumGross(s.calculations) && FeeTotal(s.fills) == SumNet(s.calculations)
  }

  lemma {:induction false} NetFeesNotNegative(run: seq<FeeCalculation>)
    requires forall i :: 0 <= i < |run| ==> 0 <= run[i].netFee
    ensures 0 <= SumNet(run)
  {
    if run != [] {
      NetFeesNotNegative(run[1..]);
    }
  }

  lemma {:induction false} AssessFacts(limit: Concentration, r: OrderRequest, inp: Inputs, effective: seq<Level>,
                                       lots: seq<Lot>,
                     policy: FeePolicy, operation: int)
    requires FromLadder(r, lots, effective, 0)
    requires r.amount.Contracts? ==> TotalUnits(lots) <= r.amount.units
    requires Assess(limit, r, inp, lots, policy, operation).Ready?
    ensures Filling(r, inp, effective, Assess(limit, r, inp, lots, policy, operation), operation)
  {
    hide FeeRun, ApplyFills, Entered, FillsOf;
    var s := Assess(limit, r, inp, lots, policy, operation);
    RecordsAreSound(lots, policy, r.action, 0);
    FillsAddUp(lots, s.calculations, r.action);
    NetFeesNotNegative(s.calculations);
    assert lots != [] && lots[0].units > 0;
    assert TotalUnits(lots[1..]) >= 0;
  }

  lemma {:induction false} PrepareFacts(limit: Concentration, r: OrderRequest, inp: Inputs, context: MarketContext,
                                        operation: int)
    requires ValidBook(context.book) && Prepare(limit, r, inp, context, operation).Ready?
    ensures var found := ApplyHaircut(LadderFor(context.book, r.outcome, r.action));
            && found.Success?
            && Filling(r, inp, found.value.0, Prepare(limit, r, inp, context, operation), operation)
  {
    hide Assess, Filling, PlanOf, FitOf, FromLadder, ApplyHaircut;
    var found := ApplyHaircut(LadderFor(context.book, r.outcome, r.action));
    HaircutKeepsHalf(LadderFor(context.book, r.outcome, r.action));
    var p, policy := inp.portfolio, inp.fees.policy;
    var owned := if r.Key() in p.positions then Some(p.positions[r.Key()].units) else None;
    var planned := PlanOf(r, found.value.0, owned);
    FittedWithinMeans(r, found.value.0, owned, policy, p.cash);
    LadderLotsAreValid(r, planned, found.value.0);
    AssessFacts(limit, r, inp, found.value.0, FitOf(planned, policy, r.action, p.cash), policy, operation);
  }

  /** An accepted result, as a caller sees it: the whole request is filled, the cash
      change is the net delta, the position of the order's market and outcome moves by
      the units and no other does, equity is kept, and one balanced entry made. */
  ghost predicate Accepted(r: OrderRequest, inp: Inputs, o: OrderResult) {
    var p, q, key := inp.portfolio, o.after, PositionKey(r.market, r.outcome);
    && o.state.FullyFilled? && o.reconciliation.NotRequired? && o.error.None? && o.request == r && o.before == p
    && o.filled == o.requested > 0 && o.remaining == o.cancelled == 0 && UnitTotal(o.fills) == o.filled
    && (r.amount.Contracts? ==> o.filled == r.amount.units)
    && (r.timeInForce.Fok? && r.amount.Cash? ==> o.grossDelta == Signed(r.amount.micros, r.action))
    && o.netDelta == o.grossDelta - o.fee == q.cash - p.cash && 0 <= o.fee
    && o.grossDelta == Signed(GrossTotal(o.fills), r.action) && o.fee == FeeTotal(o.fills)
    && Equity(q) == Equity(p) && ValidPortfolio(q) && q.version == p.version + 1
    && At(q, key).units == At(p, key).units + (if r.action.Buy? then o.filled else 0 - o.filled)
    && q.positions - {key} == p.positions - {key}
    && |o.entries| == 1 && ValidEntry(o.entries[0])
    && SumOf(o.entries[0].postings, AmountIn(CashAccount)) == o.netDelta
    && o.audit.Some? && o.audit.value.consumed == o.filled && o.audit.value.cancelled == 0
  }

  /** A rejection or pending result leaves everything as it was. */
  ghost predicate Unchanged(inp: Inputs, o: OrderResult) {
    && o.state in {Rejected, Pending} && o.fills == [] && o.entries == [] && o.netDelta == o.grossDelta == o.fee == 0
    && o.filled == 0 && o.remaining == o.requested && o.cancelled == 0
    && o.before == o.after == inp.portfolio
  }

  /** Every order that trades ends in one of three ways: a rejection that changes
      nothing, an accepted result that fills the whole request, or, exactly when
      the checks pass and the fit covers only part of a contract order, an
      exception out of the result's own constructor. The audit never raises. */
  lemma {:induction false} EvaluateIsSound(limit: Concentration, r: OrderRequest, inp: Inputs, context: MarketContext,
                                           operation: int)
    requires ValidBook(context.book) && ValidPortfolio(inp.portfolio)
    ensures var s := Prepare(limit, r, inp, context, operation);
            match Evaluate(limit, r, inp, context, operation)
            case Raised => s.Ready? && r.amount.Contracts? && 0 < TotalUnits(s.lots) < r.amount.units
            case Returned(o) =>
              && ConstructorAccepts(o)
              && (s.Stopped? ==> o == RejectedResult(r, inp.portfolio, s.code) && Unchanged(inp, o))
              && (s.Ready? ==> Accepted(r, inp, o) && (r.amount.Contracts? ==> TotalUnits(s.lots) == r.amount.units))
  {
    hide Prepare, ApplyHaircut, AfterFills, ApplyOrder, ValidPortfolio, ValidEntry, Equity, ConsumedBy, FromLadder;
    var s := Prepare(limit, r, inp, context, operation);
    if s.Ready? {
      var source := LadderFor(context.book, r.outcome, r.action);
      PrepareFacts(limit, r, inp, context, operation);
      ReadyLotsAreValid(limit, r, inp, context, operation);
      var requested := if r.amount.Contracts? then r.amount.units else TotalUnits(s.lots);
      FillsAlwaysPassAudit(source, r, s.lots, requested);
      OrderIsSound(inp.portfolio, TradeOf(r), s.fills, operation);
      OrderEffect(inp.portfolio, TradeOf(r), s.fills, operation);
    }
  }

  // ----- exactly which orders trade -----

  lemma {:induction false} FillsArePriced(lots: seq<Lot>, calculations: seq<FeeCalculation>, r: OrderRequest)
    requires ValidLots(lots) && |lots| == |calculations|
    requires forall i :: 0 <= i < |lots| ==> 0 <= calculations[i].netFee
    ensures var fills := FillsOf(lots, calculations, r.action);
            && |fills| == |lots| && Priced(TradeOf(r), fills)
            && forall i :: 0 <= i < |lots| ==>
                 && fills[i].units == lots[i].units
                 && fills[i].gross == calculations[i].gross && fills[i].fee == calculations[i].netFee
  {
    if lots != [] {
      FillsArePriced(lots[1..], calculations[1..], r);
      var fills := FillsOf(lots, calculations, r.action);
      assert forall i :: 1 <= i < |fills| ==> fills[i] == FillsOf(lots[1..], calculations[1..], r.action)[i-1];
    }
  }

  /** Lots that the account can carry out: a FOK order gets all its contracts or all
      its cash amount, each lot moves cash the right way, a BUY keeps the cost basis
      of both outcomes of its market within its share of a known account value, and
      a SELL that pays fees also releases entry fees. */
  ghost predicate Carries(limit: Concentration, r: OrderRequest, inp: Inputs, lots: seq<Lot>, policy: FeePolicy)
    requires ValidLots(lots)
  {
    var p, run := inp.portfolio, FeeRun(lots, policy, r.action, 0);
    && r.agent == p.agent && lots != []
    && (r.timeInForce.Fok? ==>
          if r.amount.Contracts? then TotalUnits(lots) == r.amount.units else SumGross(run) == r.amount.micros)
    && match r.action
       case Buy =>
         && (forall i :: 0 <= i < |run| ==> 0 < run[i].gross + run[i].netFee)
         && inp.accountValue.Some?
         && var held := At(p, PositionKey(r.market, Yes)).basis + At(p, PositionKey(r.market, No)).basis;
            (held + SumGross(run)) * limit.denominator <= inp.accountValue.value * limit.numerator
       case Sell =>
         && (forall i :: 0 <= i < |run| ==> run[i].netFee < run[i].gross)
         && (SumNet(run) == 0 || EntryFeesLeft(p, r, lots, policy) < At(p, r.Key()).fees)
  }

  ghost function EntryFeesLeft(p: ContractPortfolio, r: OrderRequest, lots: seq<Lot>, policy: FeePolicy): nat
    requires ValidLots(lots)
  {
    RecordsAreSound(lots, policy, r.action, 0);
    ShareLeft(At(p, r.Key()).units, At(p, r.Key()).fees, FillsOf(lots, FeeRun(lots, policy, r.action, 0), r.action))
  }

  lemma {:induction false} AssessExactlyWhen(limit: Concentration, r: OrderRequest, inp: Inputs, lots: seq<Lot>,
                                             policy: FeePolicy, operation: int)
    requires ValidLots(lots) && ValidPortfolio(inp.portfolio)
    requires var run := FeeRun(lots, policy, r.action, 0);
             && (r.action.Buy? ==> SumGross(run) + SumNet(run) <= inp.portfolio.cash)
             && (r.action.Sell? ==> TotalUnits(lots) <= At(inp.portfolio, r.Key()).units)
    ensures Assess(limit, r, inp, lots, policy, operation).Ready? <==> Carries(limit, r, inp, lots, policy)
  {
    hide FeeRun, ApplyOrder, FillsOf, ShareLeft, TotalUnits, SumGross, SumNet, SoundRecord, Approved, Complete;
    var p, run := inp.portfolio, FeeRun(lots, policy, r.action, 0);
    RecordsAreSound(lots, policy, r.action, 0);
    assert forall i :: 0 <= i < |run| ==> 0 <= run[i].netFee by { NetFeesOfRun(lots, policy, r.action); }
    FillsArePriced(lots, run, r);
    FillsAddUp(lots, run, r.action);
    var fills := FillsOf(lots, run, r.action);
    OrderAcceptedExactlyWhen(p, TradeOf(r), fills, operation);
    ChecksPlainly(limit, r, inp, lots, SumGross(run));
    assert forall i :: 0 <= i < |fills| ==>
             fills[i].net == if r.action.Buy? then -(run[i].gross + run[i].netFee) else run[i].gross - run[i].netFee;
  }

  /** The two checks that look at amounts, in plain terms. */
  lemma {:induction false} ChecksPlainly(limit: Concentration, r: OrderRequest, inp: Inputs, lots: seq<Lot>, gross: int)
    ensures Complete(r, lots, gross) <==>
              if r.amount.Contracts? then TotalUnits(lots) == r.amount.units else gross == r.amount.micros
    ensures inp.accountValue.Some? ==>
              var p := inp.portfolio;
              var held := At(p, PositionKey(r.market, Yes)).basis + At(p, PositionKey(r.market, No)).basis;
              Approved(limit, inp.accountValue.value, MarketBasis(p, r.market), gross) <==>
                (held + gross) * limit.denominator <= inp.accountValue.value * limit.numerator
  {
  }

  lemma {:induction false} NetFeesOfRun(lots: seq<Lot>, policy: FeePolicy, action: Side)
    requires ValidLots(lots)
    ensures forall i :: 0 <= i < |lots| ==> 0 <= FeeRun(lots, policy, action, 0)[i].netFee
  {
    RecordsAreSound(lots, policy, action, 0);
  }

  /** What an order needs to trade: a usable context and fee policy, a ladder that
      survives the haircut, a position to SELL from, and a plan that, within the
      cash, can be carried out. */
  ghost predicate Trades(limit: Concentration, r: OrderRequest, inp: Inputs, context: MarketContext)
    requires ValidBook(context.book)
  {
    var found := ApplyHaircut(LadderFor(context.book, r.outcome, r.action));
    && context.refusal.None? && inp.fees.Usable? && found.Success?
    && (r.action.Sell? ==> Owned(r, inp).Some?)
    && ValidLevels(found.value.0) && ValidLots(PlanOf(r, found.value.0, Owned(r, inp)))
    && Carries(limit, r, inp,
               FitOf(PlanOf(r, found.value.0, Owned(r, inp)), inp.fees.policy, r.action, inp.portfolio.cash),
               inp.fees.policy)
  }

  /** Size of the position the order is about. */
  function Owned(r: OrderRequest, inp: Inputs): Option<nat> {
    if r.Key() in inp.portfolio.positions then Some(inp.portfolio.positions[r.Key()].units) else None
  }

  /** An order reaches fills exactly when it trades. Neither the cash guard nor
      the unit guard of execute adds to these conditions. */
  lemma {:induction false} TradesExactlyWhen(limit: Concentration, r: OrderRequest, inp: Inputs,
                                             context: MarketContext, operation: int)
    requires ValidBook(context.book) && ValidPortfolio(inp.portfolio)
    ensures Prepare(limit, r, inp, context, operation).Ready? <==> Trades(limit, r, inp, context)
  {
    hide Assess, Carries, PlanOf, FitOf, FromLadder, ApplyHaircut, ValidPortfolio, FeeRun;
    var p, found := inp.portfolio, ApplyHaircut(LadderFor(context.book, r.outcome, r.action));
    HaircutKeepsHalf(LadderFor(context.book, r.outcome, r.action));
    if context.refusal.None? && inp.fees.Usable? && found.Success? && (r.action.Sell? ==> Owned(r, inp).Some?) {
      var policy, planned := inp.fees.policy, PlanOf(r, found.value.0, Owned(r, inp));
      FittedWithinMeans(r, found.value.0, Owned(r, inp), policy, p.cash);
      LadderLotsAreValid(r, planned, found.value.0);
      var lots := FitOf(planned, policy, r.action, p.cash);
      AssessExactlyWhen(limit, r, inp, lots, policy, operation);
      if planned == [] {
        NothingFits(policy, r.action, p.cash);
        NothingIsCarried(limit, r, inp, policy);
      }
    }
  }

  /** The ladder an order that trades is planned on. */
  function Effective(r: OrderRequest, context: MarketContext): seq<Level>
    requires ValidBook(context.book) && ApplyHaircut(LadderFor(context.book, r.outcome, r.action)).Success?
  {
    ApplyHaircut(LadderFor(context.book, r.outcome, r.action)).value.0
  }

  /** All three outcomes by conditions on the inputs: an order that does not trade
      is rejected; one that trades is accepted if it asks for cash or its contracts
      can all be filled; and a contract order that trades but cannot be filled
      whole, because of the ladder, the position or the cash, raises. */
  lemma {:induction false} OutcomeExactlyWhen(limit: Concentration, r: OrderRequest, inp: Inputs,
                                              context: MarketContext, operation: int)
    requires ValidBook(context.book) && ValidPortfolio(inp.portfolio)
    ensures var trades := Trades(limit, r, inp, context);
            var whole := trades && (r.amount.Contracts? ==>
                  Fillable(r, Effective(r, context), Owned(r, inp), inp.fees.policy, inp.portfolio.cash));
            match Evaluate(limit, r, inp, context, operation)
            case Raised => trades && !whole
            case Returned(o) =>
              && (trades ==> whole && Accepted(r, inp, o) && o.state.FullyFilled?)
              && (!trades ==> o.state.Rejected? && Unchanged(inp, o))
  {
    hide Evaluate, Accepted, Unchanged, Fillable, FitOf, PlanOf, ApplyHaircut, Assess, Carries;
    var s := Prepare(limit, r, inp, context, operation);
    TradesExactlyWhen(limit, r, inp, context, operation);
    EvaluateIsSound(limit, r, inp, context, operation);
    if s.Ready? {
      ReadyLots(limit, r, inp, context, operation);
      if r.amount.Contracts? {
        FillsWholeExactlyWhen(r, Effective(r, context), Owned(r, inp), inp.fees.policy, inp.portfolio.cash);
      }
    }
    AcceptedIsFilled(r, inp, Evaluate(limit, r, inp, context, operation));
  }

  lemma {:induction false} AcceptedIsFilled(r: OrderRequest, inp: Inputs, o: Outcome)
    ensures o.Returned? && Accepted(r, inp, o.result) ==> o.result.state.FullyFilled?
  {
  }

  /** A FOK order is all or nothing: it never raises over a partial fill. */
  lemma {:induction false} FokNeverRaises(limit: Concentration, r: OrderRequest, inp: Inputs, context: MarketContext,
                                          operation: int)
    requires ValidBook(context.book) && ValidPortfolio(inp.portfolio) && r.timeInForce.Fok?
    ensures Evaluate(limit, r, inp, context, operation).Returned?
  {
    hide Evaluate, Prepare, Accepted, Unchanged, ApplyHaircut, ApplyOrder, FromLadder;
    EvaluateIsSound(limit, r, inp, context, operation);
    if Prepare(limit, r, inp, context, operation).Ready? {
      PrepareFacts(limit, r, inp, context, operation);
    }
  }

  /** The best captured level holds more than half of the captured depth, or there
      is no level at all. */
  ghost predicate TooThin(side: seq<Level>) {
    side == [] || 2 * side[0].quantity > Depth(if |side| <= 6 then side else side[..6])
  }

  /** A lot of the order that would not move cash the right way. */
  ghost predicate MovesNoCash(r: OrderRequest, run: seq<FeeCalculation>) {
    exists i :: 0 <= i < |run| &&
      if r.action.Buy? then run[i].gross + run[i].netFee <= 0 else run[i].gross <= run[i].netFee
  }

  /** The reason a rejected order is given: the first of these that applies. The
      guards that never fire are not among them. */
  ghost function Reason(limit: Concentration, r: OrderRequest, inp: Inputs, context: MarketContext): ErrorCode
    requires ValidBook(context.book)
  {
    var p, found := inp.portfolio, ApplyHaircut(LadderFor(context.book, r.outcome, r.action));
    HaircutKeepsHalf(LadderFor(context.book, r.outcome, r.action));
    if context.refusal.Some? then context.refusal.value
    else if inp.fees.Refused? then FeePolicyRefused
    else if TooThin(LadderFor(context.book, r.outcome, r.action)) then HaircutEvidenceInsufficient
    else if r.action.Sell? && r.Key() !in p.positions then InsufficientContracts
    else
      var plan := PlanOf(r, found.value.0, Owned(r, inp));
      PlanIsGreedy(r, found.value.0, Owned(r, inp));
      if plan == [] then (if r.limit.Some? then PriceLimit else InsufficientLiquidity)
      else ReasonFitted(limit, r, inp, FitOf(plan, inp.fees.policy, r.action, p.cash), inp.fees.policy)
  }

  ghost function ReasonFitted(limit: Concentration, r: OrderRequest, inp: Inputs, lots: seq<Lot>, policy: FeePolicy)
    : ErrorCode
    requires ValidLots(lots)
  {
    var p, run := inp.portfolio, FeeRun(lots, policy, r.action, 0);
    var held := At(p, PositionKey(r.market, Yes)).basis + At(p, PositionKey(r.market, No)).basis;
    if r.timeInForce.Fok?
       && (if r.amount.Contracts? then TotalUnits(lots) != r.amount.units else SumGross(run) != r.amount.micros)
    then (if r.limit.Some? && lots == [] then PriceLimit else InsufficientLiquidity)
    else if r.action.Buy? && inp.accountValue.None? then InvalidContext
    else if r.action.Buy? && (held + SumGross(run)) * limit.denominator > inp.accountValue.value * limit.numerator
    then ConcentrationLimit
    else if r.agent == p.agent && MovesNoCash(r, run) then InsufficientCash
    else InsufficientContracts
  }

  lemma {:induction false} AssessReason(limit: Concentration, r: OrderRequest, inp: Inputs, lots: seq<Lot>,
                                        policy: FeePolicy, operation: int)
    requires ValidLots(lots) && ValidPortfolio(inp.portfolio)
    requires var run := FeeRun(lots, policy, r.action, 0);
             && (r.action.Buy? ==> SumGross(run) + SumNet(run) <= inp.portfolio.cash)
             && (r.action.Sell? ==> TotalUnits(lots) <= At(inp.portfolio, r.Key()).units)
    requires Assess(limit, r, inp, lots, policy, operation).Stopped?
    ensures Assess(limit, r, inp, lots, policy, operation) == Stopped(ReasonFitted(limit, r, inp, lots, policy))
  {
    hide FeeRun, ApplyOrder, FillsOf, ShareLeft, TotalUnits, SumGross, SumNet, SoundRecord, Approved, Complete,
      ValidPortfolio, MovesCashWrong, MovesNoCash;
    var p, run := inp.portfolio, FeeRun(lots, policy, r.action, 0);
    RecordsAreSound(lots, policy, r.action, 0);
    assert forall i :: 0 <= i < |run| ==> 0 <= run[i].netFee by { NetFeesOfRun(lots, policy, r.action); }
    FillsArePriced(lots, run, r);
    FillsAddUp(lots, run, r.action);
    ChecksPlainly(limit, r, inp, lots, SumGross(run));
    NoUnitsNoLots(lots);
    var fills := FillsOf(lots, run, r.action);
    SameCash(r, lots, run);
    if r.agent == p.agent && fills != [] {
      RefusedOverCash(p, TradeOf(r), fills, operation);
    } else {
      assert fills == [] ==> !MovesNoCash(r, run) by { NoRunNoCash(r, run); }
      NobodyOrNothing(p, TradeOf(r), fills, operation);
    }
  }

  lemma {:induction false} NobodyOrNothing(p: ContractPortfolio, t: Trade, fills: seq<EconomicFill>, operation: int)
    requires t.agent != p.agent || fills == []
    ensures ApplyOrder(p, t, fills, operation) == Failure(if t.agent != p.agent then WrongAgent else NoFills)
  {
  }

  lemma {:induction false} NoRunNoCash(r: OrderRequest, run: seq<FeeCalculation>)
    ensures run == [] ==> !MovesNoCash(r, run)
  {
  }

  lemma {:induction false} NoUnitsNoLots(lots: seq<Lot>)
    requires ValidLots(lots)
    ensures TotalUnits(lots) == 0 <==> lots == []
  {
    if lots != [] {
      assert lots[0].units > 0 && forall i :: 0 <= i < |lots[1..]| ==> lots[1..][i].units >= 0;
    }
  }

  lemma {:induction false} SameCash(r: OrderRequest, lots: seq<Lot>, run: seq<FeeCalculation>)
    requires ValidLots(lots) && |lots| == |run| && forall i :: 0 <= i < |lots| ==> 0 <= run[i].netFee
    ensures MovesCashWrong(TradeOf(r), FillsOf(lots, run, r.action)) <==> MovesNoCash(r, run)
  {
    hide FillsOf;
    FillsArePriced(lots, run, r);
    var t, fills := TradeOf(r), FillsOf(lots, run, r.action);
    assert forall i :: 0 <= i < |run| ==>
             fills[i].net == if r.action.Buy? then -(run[i].gross + run[i].netFee) else run[i].gross - run[i].netFee;
    if MovesNoCash(r, run) {
      var i :| 0 <= i < |run| &&
        if r.action.Buy? then run[i].gross + run[i].netFee <= 0 else run[i].gross <= run[i].netFee;
      assert if t.action.Buy? then fills[i].net >= 0 else fills[i].net <= 0;
    }
  }

  /** Every order that does not trade is told the first reason that applies. */
  lemma {:induction false} RejectionReason(limit: Concentration, r: OrderRequest, inp: Inputs, context: MarketContext,
                                           operation: int)
    requires ValidBook(context.book) && ValidPortfolio(inp.portfolio) && !Trades(limit, r, inp, context)
    ensures Evaluate(limit, r, inp, context, operation)
         == Returned(RejectedResult(r, inp.portfolio, Reason(limit, r, inp, context)))
  {
    hide Assess, Carries, PlanOf, FitOf, FromLadder, ApplyHaircut, ValidPortfolio, FeeRun, ReasonFitted, Trades, Depth,
      Conclude;
    TradesExactlyWhen(limit, r, inp, context, operation);
    var p, found := inp.portfolio, ApplyHaircut(LadderFor(context.book, r.outcome, r.action));
    HaircutKeepsHalf(LadderFor(context.book, r.outcome, r.action));
    if context.refusal.None? && inp.fees.Usable? && found.Success? && (r.action.Sell? ==> Owned(r, inp).Some?) {
      var policy, planned := inp.fees.policy, PlanOf(r, found.value.0, Owned(r, inp));
      FittedWithinMeans(r, found.value.0, Owned(r, inp), policy, p.cash);
      LadderLotsAreValid(r, planned, found.value.0);
      if planned != [] {
        AssessReason(limit, r, inp, FitOf(planned, policy, r.action, p.cash), policy, operation);
      }
    }
  }

  /** Every lot of an order that trades is taken from the side it asks for, asks for
      a BUY and bids for a SELL of its own outcome, below the best level and at most
      five levels further; its fill has its units and its cash. */
  lemma {:induction false} FillsComeFromTheBook(limit: Concentration, r: OrderRequest, inp: Inputs,
                                                context: MarketContext, operation: int)
    requires ValidBook(context.book) && Prepare(limit, r, inp, context, operation).Ready?
    ensures var s, b := Prepare(limit, r, inp, context, operation), context.book;
            var side := if r.action.Buy? then (if r.outcome.Yes? then b.yesAsks else b.noAsks)
                        else (if r.outcome.Yes? then b.yesBids else b.noBids);
            && ValidLots(s.lots) && |s.fills| == |s.lots|
            && forall k :: 0 <= k < |s.lots| ==>
                 && 1 <= s.lots[k].level <= 5 && s.lots[k].level < |side|
                 && s.lots[k].price == side[s.lots[k].level].price
                 && s.lots[k].units <= side[s.lots[k].level].quantity
                 && s.fills[k].units == s.lots[k].units
                 && s.fills[k].gross == GrossCash(s.lots[k].units, s.lots[k].price)
                 && (r.limit.Some? ==> if r.action.Buy? then s.lots[k].price <= r.limit.value
                                       else r.limit.value <= s.lots[k].price)
  {
    hide Assess, FitOf, PlanOf, ApplyHaircut, ApplyOrder, FeeRun, FillsOf, SumGross, SumNet, Complete, GrossCash, Depth;
    var s := Prepare(limit, r, inp, context, operation);
    PrepareFacts(limit, r, inp, context, operation);
    HaircutKeepsHalf(LadderFor(context.book, r.outcome, r.action));
    PreparedFills(limit, r, inp, context, operation);
    var found := ApplyHaircut(LadderFor(context.book, r.outcome, r.action));
    assert forall k :: 0 <= k < |s.lots| ==> Admits(r, s.lots[k].price);
  }

  lemma {:induction false} PreparedFills(limit: Concentration, r: OrderRequest, inp: Inputs, context: MarketContext,
                                         operation: int)
    requires ValidBook(context.book) && Prepare(limit, r, inp, context, operation).Ready?
    ensures var s := Prepare(limit, r, inp, context, operation);
            && ValidLots(s.lots) && |s.fills| == |s.lots|
            && forall k :: 0 <= k < |s.lots| ==>
                 s.fills[k].units == s.lots[k].units && s.fills[k].gross == GrossCash(s.lots[k].units, s.lots[k].price)
  {
    hide FitOf, PlanOf, ApplyHaircut, FromLadder, ApplyOrder, FeeRun, FillsOf, GrossCash;
    var s := Prepare(limit, r, inp, context, operation);
    ReadyLotsAreValid(limit, r, inp, context, operation);
    RecordsAreSound(s.lots, inp.fees.policy, r.action, 0);
    NetFeesOfRun(s.lots, inp.fees.policy, r.action);
    FillsArePriced(s.lots, FeeRun(s.lots, inp.fees.policy, r.action, 0), r);
    GrossOfRun(s.lots, inp.fees.policy, r.action, 0);
  }

  lemma {:induction false} GrossOfRun(lots: seq<Lot>, policy: FeePolicy, action: Side, before: nat)
    requires ValidLots(lots) && before < CENT_MICROS
    ensures forall k :: 0 <= k < |lots| ==>
              FeeRun(lots, policy, action, before)[k].gross == GrossCash(lots[k].units, lots[k].price)
  {
    hide GrossCash, TradeFee, RawNanos;
    if lots != [] {
      var c := Charge(lots[0].units, lots[0].price, policy, action, before);
      ChargeIsSound(lots[0].units, lots[0].price, policy, action, before);
      GrossOfRun(lots[1..], policy, action, c.accumulatorAfter);
      var run := FeeRun(lots, policy, action, before);
      assert run == [c] + FeeRun(lots[1..], policy, action, c.accumulatorAfter);
      assert forall k :: 1 <= k < |run| ==> run[k] == FeeRun(lots[1..], policy, action, c.accumulatorAfter)[k-1];
    }
  }

  /** An order depends on one side of the book only. */
  lemma {:induction false} OnlyItsSideMatters(limit: Concentration, r: OrderRequest, inp: Inputs, a: MarketContext,
                                              b: MarketContext, operation: int)
    requires ValidBook(a.book) && ValidBook(b.book) && a.refusal == b.refusal
    requires r.action.Buy? && r.outcome.Yes? ==> a.book.yesAsks == b.book.yesAsks
    requires r.action.Buy? && r.outcome.No? ==> a.book.noAsks == b.book.noAsks
    requires r.action.Sell? && r.outcome.Yes? ==> a.book.yesBids == b.book.yesBids
    requires r.action.Sell? && r.outcome.No? ==> a.book.noBids == b.book.noBids
    ensures Evaluate(limit, r, inp, a, operation) == Evaluate(limit, r, inp, b, operation)
  {
    hide Assess, Conclude, FitOf, PlanOf, ApplyHaircut;
  }

  lemma {:induction false} ReadyLots(limit: Concentration, r: OrderRequest, inp: Inputs, context: MarketContext,
                                     operation: int)
    requires ValidBook(context.book) && Prepare(limit, r, inp, context, operation).Ready?
    ensures var found := ApplyHaircut(LadderFor(context.book, r.outcome, r.action));
            && found.Success? && ValidLevels(found.value.0) && ValidLots(PlanOf(r, found.value.0, Owned(r, inp)))
            && Prepare(limit, r, inp, context, operation).lots
               == FitOf(PlanOf(r, found.value.0, Owned(r, inp)), inp.fees.policy, r.action, inp.portfolio.cash)
  {
    hide FitOf, PlanOf, ApplyHaircut, FromLadder;
    HaircutKeepsHalf(LadderFor(context.book, r.outcome, r.action));
    PlanIsGreedy(r, ApplyHaircut(LadderFor(context.book, r.outcome, r.action)).value.0, Owned(r, inp));
    LadderLotsAreValid(r, PlanOf(r, ApplyHaircut(LadderFor(context.book, r.outcome, r.action)).value.0, Owned(r, inp)),
                       ApplyHaircut(LadderFor(context.book, r.outcome, r.action)).value.0);
  }

  /** A partial fill that raises: 200 contract units are asked for, 150 are left on
      the ladder by the haircut, and cash, account value and fees are no obstacle. */
  lemma {:induction false} PartialFillRaises(operation: int)
    ensures exists limit, r: OrderRequest, inp: Inputs, context: MarketContext ::
              && ValidBook(context.book) && ValidPortfolio(inp.portfolio)
              && r.action.Buy? && r.amount == Contracts(200)
              && Evaluate(limit, r, inp, context, operation) == Raised
  {
    hide Evaluate, Trades, Fillable, Accepted, Unchanged, ApplyHaircut;
    var r := OrderRequest(0, 0, Yes, Side.Buy, Contracts(200), 1, None, Ioc);
    var p := ContractPortfolio(0, 10_000_000, map[], 0, false, 0);
    var asks := [Level(510_000, 100), Level(520_000, 150)];
    var context := MarketContext(None, OrderBook([], asks, [], []));
    var inp := Inputs(p, false, Some(context), Usable(FeePolicy(0, 1, 0, 1, true)), Some(10_000_000));
    HaircutOfTwo(asks);
    PartialFillTrades(r, inp, context);
    OutcomeExactlyWhen(Concentration(1, 1), r, inp, context, operation);
  }

  lemma {:induction false} PartialFillTrades(r: OrderRequest, inp: Inputs, context: MarketContext)
    requires r == OrderRequest(0, 0, Yes, Side.Buy, Contracts(200), 1, None, Ioc)
    requires context.refusal.None? && ValidBook(context.book) && inp.accountValue == Some(10_000_000)
    requires inp.fees == Usable(FeePolicy(0, 1, 0, 1, true))
    requires inp.portfolio == ContractPortfolio(0, 10_000_000, map[], 0, false, 0)
    requires ApplyHaircut(LadderFor(context.book, r.outcome, r.action)).Success?
    requires Effective(r, context) == [Level(520_000, 150)]
    ensures Trades(Concentration(1, 1), r, inp, context)
    ensures !Fillable(r, Effective(r, context), Owned(r, inp), inp.fees.policy, inp.portfolio.cash)
  {
    hide ApplyHaircut, SumGross, SumNet, PlanOf, FeeRun, FitOf, AdmissibleDepth, BuyCost;
    var lots, policy := [Lot(1, 520_000, 150)], inp.fees.policy;
    PlanOfOne(r, Level(520_000, 150));
    WaivedRun(lots[0], policy);
    WaivedFit(lots, policy, inp.portfolio.cash);
    OneLevelDepth(r, Level(520_000, 150));
    assert Carries(Concentration(1, 1), r, inp, lots, policy);
  }

  lemma {:induction false} WaivedFit(lots: seq<Lot>, policy: FeePolicy, cash: nat)
    requires ValidLots(lots) && SumGross(FeeRun(lots, policy, Side.Buy, 0)) == 780_000 <= cash
    requires SumNet(FeeRun(lots, policy, Side.Buy, 0)) == 0
    ensures FitOf(lots, policy, Side.Buy, cash) == lots
  {
    hide SumGross, SumNet, FeeRun, FitOf, BuyAll;
    BuyAllIsFeeRun(Spend(0, 0), lots, policy);
    NothingToCut(lots, policy, cash);
  }

  lemma {:induction false} OneLevelDepth(r: OrderRequest, level: Level)
    requires Admits(r, level.price)
    ensures AdmissibleDepth(r, [level], 0) == level.quantity
  {
    assert AdmissibleDepth(r, [level], 1) == 0;
  }

  // ----- what is stored of an executed order -----

  /** What an executed order hands to persistence: fills that accounting accepted at
      their net cash, the fee they sum to, and an audit with the level counts of
      the haircut. */
  lemma {:induction false} ExecutedFacts(limit: Concentration, r: OrderRequest, inp: Inputs, context: MarketContext,
                                         operation: int)
    requires ValidBook(context.book) && ValidPortfolio(inp.portfolio)
    requires var o := Evaluate(limit, r, inp, context, operation); o.Returned? && o.result.fills != []
    ensures var o := Evaluate(limit, r, inp, context, operation).result;
            var found := ApplyHaircut(LadderFor(context.book, r.outcome, r.action));
            && ApplyOrder(inp.portfolio, TradeOf(r), o.fills, operation).Success?
            && Priced(TradeOf(r), o.fills) && o.fee == FeeTotal(o.fills)
            && found.Success? && o.audit.Some?
            && o.audit.value.capturedCount == found.value.1.capturedCount
            && o.audit.value.effectiveCount == found.value.1.effectiveCount
  {
    hide Prepare, ApplyHaircut, ApplyOrder, Accepted, ConsumedBy;
    var s := Prepare(limit, r, inp, context, operation);
    assert s.Ready?;
    PrepareFacts(limit, r, inp, context, operation);
    ReadyFillsArePriced(limit, r, inp, context, operation);
    FilledFacts(r, inp, Effective(r, context), s, operation);
  }

  lemma {:induction false} FilledFacts(r: OrderRequest, inp: Inputs, effective: seq<Level>, s: Stage, operation: int)
    requires s.Ready? && Filling(r, inp, effective, s, operation)
    ensures ApplyOrder(inp.portfolio, TradeOf(r), s.fills, operation) == Success((s.updated, s.entry))
    ensures FeeTotal(s.fills) == SumNet(s.calculations) && ValidLots(s.lots)
  {
    hide ApplyOrder;
  }

  lemma {:induction false} ReadyFillsArePriced(limit: Concentration, r: OrderRequest, inp: Inputs,
                                               context: MarketContext, operation: int)
    requires ValidBook(context.book) && Prepare(limit, r, inp, context, operation).Ready?
    ensures Priced(TradeOf(r), Prepare(limit, r, inp, context, operation).fills)
  {
    hide FitOf, PlanOf, ApplyHaircut, FromLadder, ApplyOrder, FeeRun, FillsOf, Priced;
    var s := Prepare(limit, r, inp, context, operation);
    ReadyLotsAreValid(limit, r, inp, context, operation);
    RecordsAreSound(s.lots, inp.fees.policy, r.action, 0);
    NetFeesOfRun(s.lots, inp.fees.policy, r.action);
    FillsArePriced(s.lots, FeeRun(s.lots, inp.fees.policy, r.action, 0), r);
  }

  /** An order that is filled whole without fees, on any book whose asks begin at
      0.51 and 0.52: it takes the 150 units of the second level. */
  lemma {:induction false} WholeFillAt52(r: OrderRequest, inp: Inputs, context: MarketContext, operation: int)
    requires r == OrderRequest(0, 0, Yes, Side.Buy, Contracts(150), 1, None, Ioc)
    requires inp.fees == Usable(FeePolicy(0, 1, 0, 1, true)) && inp.accountValue == Some(10_000_000)
    requires inp.portfolio == ContractPortfolio(0, 10_000_000, map[], 0, false, 0)
    requires context.refusal.None? && ValidBook(context.book) && |context.book.yesAsks| >= 2
    requires context.book.yesAsks[0] == Level(510_000, 100) && context.book.yesAsks[1] == Level(520_000, 150)
    ensures var o := Evaluate(Concentration(1, 1), r, inp, context, operation);
            && o.Returned? && o.result.state.FullyFilled? && o.result.fills != [] && o.result.fee == 0
  {
    hide ApplyHaircut, SumGross, SumNet, PlanOf, FeeRun, FitOf, AdmissibleDepth, BuyCost, Evaluate, Accepted, Unchanged,
      Prepare;
    var lots, policy := [Lot(1, 520_000, 150)], inp.fees.policy;
    HaircutOfSome(context.book.yesAsks);
    var levels := Effective(r, context);
    PlanOfFirst(r, levels);
    WaivedRun(lots[0], policy);
    WaivedFit(lots, policy, inp.portfolio.cash);
    WaivedCost(lots, policy);
    assert Carries(Concentration(1, 1), r, inp, lots, policy);
    FirstLevelDepth(r, levels);
    OutcomeExactlyWhen(Concentration(1, 1), r, inp, context, operation);
    TradesExactlyWhen(Concentration(1, 1), r, inp, context, operation);
    ReadyLots(Concentration(1, 1), r, inp, context, operation);
    FeeOfLots(r, inp, context, operation, lots);
  }

  lemma {:induction false} WaivedCost(lots: seq<Lot>, policy: FeePolicy)
    requires ValidLots(lots) && SumGross(FeeRun(lots, policy, Side.Buy, 0)) == 780_000
    requires SumNet(FeeRun(lots, policy, Side.Buy, 0)) == 0
    ensures BuyCost(lots, policy) == 780_000
  {
    hide SumGross, SumNet, FeeRun, BuyAll;
    BuyAllIsFeeRun(Spend(0, 0), lots, policy);
  }

  lemma {:induction false} HaircutOfSome(asks: seq<Level>)
    requires ValidLevels(asks) && |asks| >= 2 && asks[0] == Level(510_000, 100) && asks[1] == Level(520_000, 150)
    ensures ApplyHaircut(asks).Success? && ValidLevels(ApplyHaircut(asks).value.0)
    ensures |ApplyHaircut(asks).value.0| >= 1 && ApplyHaircut(asks).value.0[0] == Level(520_000, 150)
  {
    hide ApplyHaircut;
    HaircutKeepsHalf(asks);
    var captured := Upto(asks, 6);
    var rest := captured[1..];
    Liquidity.DepthNotNegative(rest[1..]);
    assert Depth(rest) == 150 + Depth(rest[1..]);
    assert Depth(captured) == 100 + Depth(rest);
  }

  lemma {:induction false} PlanOfFirst(r: OrderRequest, levels: seq<Level>)
    requires r == OrderRequest(0, 0, Yes, Side.Buy, Contracts(150), 1, None, Ioc)
    requires ValidLevels(levels) && |levels| >= 1 && levels[0] == Level(520_000, 150)
    ensures PlanOf(r, levels, None) == [Lot(1, 520_000, 150)]
  {
    assert Take(r, levels[0], Some(150), 0) == 150;
  }

  lemma {:induction false} FirstLevelDepth(r: OrderRequest, levels: seq<Level>)
    requires ValidLevels(levels) && |levels| >= 1 && levels[0] == Level(520_000, 150) && Admits(r, 520_000)
    ensures AdmissibleDepth(r, levels, 0) >= 150
  {
    Planning.DepthNotNegative(r, levels, 1);
  }

  lemma {:induction false} FeeOfLots(r: OrderRequest, inp: Inputs, context: MarketContext, operation: int,
                                     lots: seq<Lot>)
    requires ValidBook(context.book) && ValidPortfolio(inp.portfolio) && ValidLots(lots) && inp.fees.Usable?
    requires SumNet(FeeRun(lots, inp.fees.policy, r.action, 0)) == 0
    requires var s := Prepare(Concentration(1, 1), r, inp, context, operation); s.Ready? && s.lots == lots
    requires Evaluate(Concentration(1, 1), r, inp, context, operation).Returned?
    ensures var o := Evaluate(Concentration(1, 1), r, inp, context, operation).result; o.fee == 0 && o.fills != []
  {
    hide FitOf, PlanOf, ApplyHaircut, FromLadder, ApplyOrder, FeeRun, FillsOf, SumNet, SumGross, ConsumedBy, AfterFills;
    PrepareFacts(Concentration(1, 1), r, inp, context, operation);
  }

  lemma {:induction false} HaircutOfTwo(asks: seq<Level>)
    requires asks == [Level(510_000, 100), Level(520_000, 150)]
    ensures ApplyHaircut(asks).Success? && ApplyHaircut(asks).value.0 == [Level(520_000, 150)]
  {
    HaircutKeepsHalf(asks);
    var tail := asks[1..];
    assert tail == [Level(520_000, 150)] && tail[1..] == [];
    assert Depth(tail) == 150 + Depth(tail[1..]) == 150;
    assert Depth(asks) == 100 + Depth(tail);
  }

  lemma {:induction false} PlanOfOne(r: OrderRequest, level: Level)
    requires r.action.Buy? && r.amount == Contracts(200) && r.limit.None? && level == Level(520_000, 150)
    ensures PlanOf(r, [level], None) == [Lot(1, 520_000, 150)]
  {
    assert Take(r, level, Some(200), 0) == 150;
    assert PlanFrom(r, [level], 1, Some(50), 0) == [];
  }

  lemma {:induction false} WaivedRun(l: Lot, policy: FeePolicy)
    requires l == Lot(1, 520_000, 150) && policy == FeePolicy(0, 1, 0, 1, true)
    ensures var run := FeeRun([l], policy, Side.Buy, 0);
            && |run| == 1 && run[0].gross == 780_000 && run[0].netFee == 0
            && SumGross(run) == 780_000 && SumNet(run) == 0
  {
    var run := FeeRun([l], policy, Side.Buy, 0);
    assert run[1..] == [];
    var c := Charge(150, 520_000, policy, Side.Buy, 0);
    assert run == [c];
    assert c.gross == 780_000;
    AlignBuy(780_000, 0, RawNanos(150, 520_000, policy), 0);
  }

  lemma {:induction false} NothingFits(policy: FeePolicy, action: Side, cash: nat)
    ensures FitOf([], policy, action, cash) == []
  {
  }

  lemma {:induction false} NothingIsCarried(limit: Concentration, r: OrderRequest, inp: Inputs, policy: FeePolicy)
    ensures !Carries(limit, r, inp, [], policy)
  {
  }

  /** An IOC BUY whose cash does not cover one unit of the first lot of its plan is
      reported as lacking contracts rather than cash: nothing is left for the cash
      guard, and it is the accounting that refuses an empty fill list. */
  lemma {:induction false} UnaffordableReportsContracts(limit: Concentration, r: OrderRequest, inp: Inputs,
                                                        context: MarketContext, operation: int)
    requires ValidBook(context.book) && context.refusal.None? && inp.fees.Usable?
    requires r.action.Buy? && r.timeInForce.Ioc? && r.agent == inp.portfolio.agent
    requires inp.accountValue.Some?
    requires Approved(limit, inp.accountValue.value, MarketBasis(inp.portfolio, r.market), 0)
    requires ApplyHaircut(LadderFor(context.book, r.outcome, r.action)).Success?
    requires var levels := Effective(r, context);
             && ValidLevels(levels)
             && var plan := PlanOf(r, levels, Owned(r, inp));
                && ValidLots(plan) && plan != []
                && inp.portfolio.cash < BuyCost([plan[0].(units := 1)], inp.fees.policy)
    ensures Evaluate(limit, r, inp, context, operation)
         == Returned(RejectedResult(r, inp.portfolio, InsufficientContracts))
  {
    hide PlanOf, FitOf, ApplyHaircut, FromLadder, BuyCost;
    FitIsEmptyExactlyWhen(PlanOf(r, Effective(r, context), Owned(r, inp)), inp.fees.policy, inp.portfolio.cash);
    assert FeeRun([], inp.fees.policy, r.action, 0) == [];
  }

  // ----- the broker: results are remembered, pending orders block -----

  /** Identity of an order operation; the source hashes it into one id. */
  datatype OperationKey = OperationKey(agent: AgentId, idempotencyKey: int)

  datatype BrokerState = BrokerState(results: map<OperationKey, OrderResult>, blocked: set<AgentId>)

  const NEW_BROKER := BrokerState(map[], {})

  function OperationOf(r: OrderRequest): OperationKey {
    OperationKey(r.agent, r.idempotencyKey)
  }

  ghost predicate ValidInputs(inp: Inputs) {
    ValidPortfolio(inp.portfolio) && (inp.context.Some? ==> ValidBook(inp.context.value.book))
  }

  /** BinaryPaperBroker.execute as a transition; `operation` stands for the id of
      the order's ledger entry. */
  function ExecuteStep(s: BrokerState, limit: Concentration, r: OrderRequest, inp: Inputs, operation: int)
    : (BrokerState, Outcome)
    requires ValidInputs(inp)
  {
    var key := OperationOf(r);
    if key in s.results then
      (s, Returned(if s.results[key].request == r then s.results[key]
                   else RejectedResult(r, inp.portfolio, IdempotencyConflict)))
    else if r.agent in s.blocked || inp.portfolio.blocked then
      var o := RejectedResult(r, inp.portfolio, ReconciliationRequired);
      (s.(results := s.results[key := o]), Returned(o))
    else if inp.pending || inp.context.None? then
      var o := PendingResult(r, inp.portfolio);
      (BrokerState(s.results[key := o], s.blocked + {r.agent}), Returned(o))
    else
      var outcome := Evaluate(limit, r, inp, inp.context.value, operation);
      if outcome.Raised? then (s, Raised) else (s.(results := s.results[key := outcome.result]), outcome)
  }

  /** The record that replaces a result on reconciliation. */
  function Reconciled(o: OrderResult, to: ReconciliationState): OrderResult {
    match to
    case Conflict => o.(reconciliation := Conflict, error := Some(ConflictingEvidence))
    case Resolved => o.(state := Cancelled, reconciliation := Resolved, remaining := 0,
                        cancelled := o.requested - o.filled)
    case _ => o.(reconciliation := to)
  }

  /** BinaryPaperBroker.reconcile as a transition; an unknown operation raises. */
  function ReconcileStep(s: BrokerState, key: OperationKey, to: ReconciliationState): BrokerState {
    if key !in s.results then s
    else BrokerState(
      s.results[key := Reconciled(s.results[key], to)],
      if to.Conflict? then s.blocked + {key.agent} else if to.Resolved? then s.blocked - {key.agent} else s.blocked)
  }

  class BinaryPaperBroker {
    const limit: Concentration
    var results: map<OperationKey, OrderResult>
    var blockedAgents: set<AgentId>

    function State(): BrokerState
      reads this
    {
      BrokerState(results, blockedAgents)
    }

    constructor (limit: Concentration)
      ensures State() == NEW_BROKER && this.limit == limit
    {
      this.limit := limit;
      results, blockedAgents := map[], {};
    }

    method Execute(r: OrderRequest, inp: Inputs, operation: int) returns (outcome: Outcome)
      requires ValidInputs(inp)
      modifies this
      ensures (State(), outcome) == ExecuteStep(old(State()), limit, r, inp, operation)
    {
      var key := OperationOf(r);
      if key in results {
        return Returned(if results[key].request == r then results[key]
                        else RejectedResult(r, inp.portfolio, IdempotencyConflict));
      }
      if r.agent in blockedAgents || inp.portfolio.blocked {
        var rejected := RejectedResult(r, inp.portfolio, ReconciliationRequired);
        results := results[key := rejected];
        return Returned(rejected);
      }
      if inp.pending || inp.context.None? {
        var pending := PendingResult(r, inp.portfolio);
        results := results[key := pending];
        blockedAgents := blockedAgents + {r.agent};
        return Returned(pending);
      }
      outcome := TradeOn(r, inp, inp.context.value, operation);
      if outcome.Returned? {
        results := results[key := outcome.result];
      }
    }

    /** Plan, fit and account for an order on a fresh context. */
    method TradeOn(r: OrderRequest, inp: Inputs, context: MarketContext, operation: int) returns (outcome: Outcome)
      requires ValidBook(context.book)
      ensures outcome == Evaluate(limit, r, inp, context, operation)
    {
      hide FeeRun, ApplyHaircut, PlanOf, FitOf, ApplyOrder, ConsumedBy, AfterFills;
      var p, source := inp.portfolio, LadderFor(context.book, r.outcome, r.action);
      var stopped := (code: ErrorCode) => Returned(RejectedResult(r, p, code));
      if context.refusal.Some? {
        return stopped(context.refusal.value);
      }
      if inp.fees.Refused? {
        return stopped(FeePolicyRefused);
      }
      var policy := inp.fees.policy;
      var haircut := ApplyHaircut(source);
      if haircut.Failure? {
        return stopped(HaircutEvidenceInsufficient);
      }
      HaircutKeepsHalf(source);
      var owned := if r.Key() in p.positions then Some(p.positions[r.Key()].units) else None;
      if r.action.Sell? && owned.None? {
        return stopped(InsufficientContracts);
      }
      var planned := Plan(r, haircut.value.0, owned);
      PlanIsGreedy(r, haircut.value.0, owned);
      if planned == [] {
        return stopped(if r.limit.Some? then PriceLimit else InsufficientLiquidity);
      }
      var lots, calculations := FitCashBudget(planned, policy, r.action, p.cash);
      var stage := Assess(limit, r, inp, lots, policy, operation);
      if stage.Stopped? {
        return stopped(stage.code);
      }
      ReadyLotsAreValid(limit, r, inp, context, operation);
      outcome := Conclude(r, inp, haircut.value.1, stage);
    }

    method Reconcile(key: OperationKey, to: ReconciliationState) returns (updated: Option<OrderResult>)
      modifies this
      ensures State() == ReconcileStep(old(State()), key, to)
      ensures updated == if key in old(results) then Some(Reconciled(old(results)[key], to)) else None
    {
      if key !in results {
        return None;
      }
      var target := results[key];
      if to.Conflict? {
        blockedAgents := blockedAgents + {key.agent};
      } else if to.Resolved? {
        blockedAgents := blockedAgents - {key.agent};
      }
      results := results[key := Reconciled(target, to)];
      return Some(results[key]);
    }
  }

  // ----- what any sequence of calls keeps -----

  datatype BrokerCall = Execute(r: OrderRequest, inp: Inputs, operation: int)
                      | Reconcile(key: OperationKey, to: ReconciliationState)

  ghost predicate ValidCall(c: BrokerCall) {
    c.Execute? ==> ValidInputs(c.inp)
  }

  function CallStep(s: BrokerState, limit: Concentration, c: BrokerCall): BrokerState
    requires ValidCall(c)
  {
    match c
    case Execute(r, inp, operation) => ExecuteStep(s, limit, r, inp, operation).0
    case Reconcile(key, to) => ReconcileStep(s, key, to)
  }

  ghost predicate IsPending(s: BrokerState, k: OperationKey) {
    k in s.results && s.results[k].state.Pending?
  }

  ghost predicate HasPending(s: BrokerState, a: AgentId) {
    exists k :: IsPending(s, k) && k.agent == a
  }

  /** An agent is blocked exactly while it has a PENDING result, and has at most one. */
  ghost predicate BlocksPending(s: BrokerState) {
    && (forall a :: a in s.blocked <==> HasPending(s, a))
    && (forall k, l :: IsPending(s, k) && IsPending(s, l) && k.agent == l.agent ==> k == l)
  }

  lemma {:induction false} ExecuteKeepsBlocks(s: BrokerState, limit: Concentration, r: OrderRequest, inp: Inputs,
                                              operation: int)
    requires ValidInputs(inp) && BlocksPending(s)
    ensures BlocksPending(ExecuteStep(s, limit, r, inp, operation).0)
  {
    hide Evaluate, Prepare;
    var t, key := ExecuteStep(s, limit, r, inp, operation).0, OperationOf(r);
    if key !in s.results && inp.context.Some? {
      EvaluateIsSound(limit, r, inp, inp.context.value, operation);
    }
    assert forall k :: k != key ==> (IsPending(t, k) <==> IsPending(s, k));
    forall a ensures a in t.blocked <==> HasPending(t, a) {
      if HasPending(s, a) {
        var k :| IsPending(s, k) && k.agent == a;
        assert IsPending(t, k);
      }
      if a == r.agent && IsPending(t, key) {
        assert HasPending(t, a);
      }
      if HasPending(t, a) {
        var k :| IsPending(t, k) && k.agent == a;
        assert k != key ==> IsPending(s, k);
      }
    }
  }

  /** Reconciliation keeps the block discipline exactly when a RESOLVED names the
      agent's pending order or an unblocked agent, and a CONFLICT names an agent
      that is blocked already. */
  lemma {:induction false} ReconcileKeepsBlocksExactlyWhen(s: BrokerState, key: OperationKey, to: ReconciliationState)
    requires BlocksPending(s) && key in s.results
    ensures BlocksPending(ReconcileStep(s, key, to)) <==>
              match to
              case Conflict => key.agent in s.blocked
              case Resolved => IsPending(s, key) || key.agent !in s.blocked
              case _ => true
  {
    var t := ReconcileStep(s, key, to);
    assert forall k :: k != key ==> (IsPending(t, k) <==> IsPending(s, k));
    assert IsPending(t, key) <==> IsPending(s, key) && !to.Resolved?;
    assert forall a, k :: IsPending(t, k) && k.agent == a ==> IsPending(s, k) && HasPending(s, a);
    forall a ensures HasPending(t, a) <==> HasPending(s, a) && !(to.Resolved? && IsPending(s, key) && a == key.agent) {
      if HasPending(s, a) {
        var k :| IsPending(s, k) && k.agent == a;
        assert k != key || !to.Resolved? ==> IsPending(t, k);
      }
      if HasPending(t, a) {
        var k :| IsPending(t, k) && k.agent == a;
        assert IsPending(s, k);
      }
    }
  }

  /** Results are never rewritten in what they filled: request, fills, entries and
      portfolio stay. */
  ghost predicate KeepsFills(s: BrokerState, t: BrokerState) {
    forall k :: k in s.results ==>
      && k in t.results && t.results[k].request == s.results[k].request && t.results[k].fills == s.results[k].fills
      && t.results[k].entries == s.results[k].entries && t.results[k].after == s.results[k].after
  }

  /** The call puts fills under a key. */
  ghost predicate Fills(s: BrokerState, limit: Concentration, c: BrokerCall, k: OperationKey)
    requires ValidCall(c)
  {
    var t := CallStep(s, limit, c);
    k in t.results && t.results[k].fills != [] && (k in s.results ==> s.results[k].fills != t.results[k].fills)
  }

  lemma {:induction false} CallKeepsFills(s: BrokerState, limit: Concentration, c: BrokerCall, k: OperationKey)
    requires ValidCall(c)
    ensures KeepsFills(s, CallStep(s, limit, c))
    ensures c.Execute? ==> forall l :: l in s.results ==> CallStep(s, limit, c).results[l] == s.results[l]
    ensures Fills(s, limit, c, k) ==> k !in s.results && k in CallStep(s, limit, c).results
  {
    hide Evaluate, RejectedResult, PendingResult;
  }

  /** Reconcile calls name an order that is pending when they are made. */
  ghost predicate NamesPending(s: BrokerState, limit: Concentration, calls: seq<BrokerCall>)
    decreases |calls|
  {
    calls != [] ==>
      && ValidCall(calls[0])
      && (calls[0].Reconcile? ==> IsPending(s, calls[0].key))
      && NamesPending(CallStep(s, limit, calls[0]), limit, calls[1..])
  }

  ghost function RunCalls(s: BrokerState, limit: Concentration, calls: seq<BrokerCall>): BrokerState
    requires forall i :: 0 <= i < |calls| ==> ValidCall(calls[i])
    decreases |calls|
  {
    if calls == [] then s else RunCalls(CallStep(s, limit, calls[0]), limit, calls[1..])
  }

  /** How many calls of a run put fills under a key. */
  ghost function FillCount(s: BrokerState, limit: Concentration, calls: seq<BrokerCall>, k: OperationKey): nat
    requires forall i :: 0 <= i < |calls| ==> ValidCall(calls[i])
    decreases |calls|
  {
    if calls == [] then 0
    else (if Fills(s, limit, calls[0], k) then 1 else 0) + FillCount(CallStep(s, limit, calls[0]), limit, calls[1..], k)
  }

  /** Over every run, whatever reconcile calls it holds, a key fills at most once
      and what a result filled is never rewritten. */
  lemma {:induction false} EachKeyFillsOnce(s: BrokerState, limit: Concentration, calls: seq<BrokerCall>,
                                            k: OperationKey)
    requires forall i :: 0 <= i < |calls| ==> ValidCall(calls[i])
    ensures FillCount(s, limit, calls, k) <= if k in s.results then 0 else 1
    ensures KeepsFills(s, RunCalls(s, limit, calls))
    decreases |calls|
  {
    hide CallStep, Fills;
    if calls != [] {
      CallKeepsFills(s, limit, calls[0], k);
      EachKeyFillsOnce(CallStep(s, limit, calls[0]), limit, calls[1..], k);
    }
  }

  /** Which calls fill: an execute under a key of its own, for an agent and on a
      portfolio that are not blocked, with a context at hand, of an order that
      trades and, if it asks for contracts, can be filled whole. */
  lemma {:induction false} FillsExactlyWhen(s: BrokerState, limit: Concentration, c: BrokerCall, k: OperationKey)
    requires ValidCall(c)
    ensures Fills(s, limit, c, k) <==>
              && c.Execute? && k.agent == c.r.agent && k.idempotencyKey == c.r.idempotencyKey && k !in s.results
              && c.r.agent !in s.blocked && !c.inp.portfolio.blocked && !c.inp.pending && c.inp.context.Some?
              && var context := c.inp.context.value;
                 && Trades(limit, c.r, c.inp, context)
                 && (c.r.amount.Contracts? ==> Fillable(c.r, Effective(c.r, context), Owned(c.r, c.inp),
                                                        c.inp.fees.policy, c.inp.portfolio.cash))
  {
    hide Evaluate, Prepare, Trades, Fillable, ValidBook, ValidPortfolio;
    if c.Execute? && c.inp.context.Some? {
      OutcomeExactlyWhen(limit, c.r, c.inp, c.inp.context.value, c.operation);
      AcceptedFills(c.r, c.inp, Evaluate(limit, c.r, c.inp, c.inp.context.value, c.operation));
    }
  }

  lemma {:induction false} AcceptedFills(r: OrderRequest, inp: Inputs, o: Outcome)
    ensures o.Returned? && Accepted(r, inp, o.result) ==> o.result.fills != []
    ensures o.Returned? && Unchanged(inp, o.result) ==> o.result.fills == []
  {
  }

  /** A new key that is not evaluated: the agent or its portfolio is blocked, and the
      order is rejected for that, or its context is not there, and it is left pending
      and blocks the agent. Either result is remembered and changes no money. */
  lemma {:induction false} NewKeyBarred(s: BrokerState, limit: Concentration, r: OrderRequest, inp: Inputs,
                                        operation: int)
    requires ValidInputs(inp) && OperationKey(r.agent, r.idempotencyKey) !in s.results
    requires r.agent in s.blocked || inp.portfolio.blocked || inp.pending || inp.context.None?
    ensures var (t, outcome) := ExecuteStep(s, limit, r, inp, operation);
            var barred := r.agent in s.blocked || inp.portfolio.blocked;
            && outcome.Returned? && outcome.result.request == r && Unchanged(inp, outcome.result)
            && outcome.result.error == Some(ReconciliationRequired)
            && outcome.result.state == (if barred then Rejected else Pending)
            && outcome.result.reconciliation == (if barred then NotRequired else Required)
            && t.results == s.results[OperationKey(r.agent, r.idempotencyKey) := outcome.result]
            && t.blocked == if barred then s.blocked else s.blocked + {r.agent}
  {
  }

  // ----- keys used again -----

  lemma {:induction false} ResultNamesRequest(limit: Concentration, r: OrderRequest, inp: Inputs,
                                              context: MarketContext, operation: int)
    requires ValidBook(context.book)
    ensures var o := Evaluate(limit, r, inp, context, operation); o.Returned? ==> o.result.request == r
  {
    hide Prepare, ApplyHaircut, AfterFills, ConstructorAccepts;
  }

  lemma {:induction false} ExecutedIsStored(s: BrokerState, limit: Concentration, r: OrderRequest, inp: Inputs,
                                            operation: int)
    requires ValidInputs(inp) && ExecuteStep(s, limit, r, inp, operation).1.Returned?
    requires OperationOf(r) in s.results ==> s.results[OperationOf(r)].request == r
    ensures var (t, outcome) := ExecuteStep(s, limit, r, inp, operation);
            OperationOf(r) in t.results && t.results[OperationOf(r)] == outcome.result && outcome.result.request == r
  {
    hide Evaluate;
    if inp.context.Some? {
      ResultNamesRequest(limit, r, inp, inp.context.value, operation);
    }
  }

  /** Over every run, a result no reconcile call names stays as it is. */
  lemma {:induction false} UnnamedResultStays(s: BrokerState, limit: Concentration, calls: seq<BrokerCall>,
                                              key: OperationKey)
    requires key in s.results
    requires forall i :: 0 <= i < |calls| ==> ValidCall(calls[i]) && (calls[i].Reconcile? ==> calls[i].key != key)
    ensures key in RunCalls(s, limit, calls).results && RunCalls(s, limit, calls).results[key] == s.results[key]
    decreases |calls|
  {
    hide CallStep;
    if calls != [] {
      UnnamedStays(s, limit, calls[0], key);
      UnnamedResultStays(CallStep(s, limit, calls[0]), limit, calls[1..], key);
    }
  }

  lemma {:induction false} UnnamedStays(s: BrokerState, limit: Concentration, c: BrokerCall, key: OperationKey)
    requires key in s.results && ValidCall(c) && (c.Reconcile? ==> c.key != key)
    ensures key in CallStep(s, limit, c).results && CallStep(s, limit, c).results[key] == s.results[key]
  {
    hide Evaluate, RejectedResult, PendingResult;
  }

  /** After execute returned a result for an order, and any further calls: the same
      order gets back the result stored under its key, which is the first one itself
      unless a reconcile call named the key, and always has its fills; another order
      under that key is refused, without fills. Neither changes anything. */
  lemma {:induction false} RepeatedKey(s: BrokerState, limit: Concentration, r: OrderRequest, inp: Inputs,
                                       operation: int, calls: seq<BrokerCall>, again: Inputs, other: OrderRequest,
                                       next: int)
    requires ValidInputs(inp) && ValidInputs(again) && forall i :: 0 <= i < |calls| ==> ValidCall(calls[i])
    requires ExecuteStep(s, limit, r, inp, operation).1.Returned?
    requires OperationOf(r) in s.results ==> s.results[OperationOf(r)].request == r
    ensures var first := ExecuteStep(s, limit, r, inp, operation);
            var t, key := RunCalls(first.0, limit, calls), OperationKey(r.agent, r.idempotencyKey);
            && key in t.results && t.results[key].request == r
            && t.results[key].fills == first.1.result.fills && t.results[key].after == first.1.result.after
            && ((forall i :: 0 <= i < |calls| && calls[i].Reconcile? ==> calls[i].key != key) ==>
                  t.results[key] == first.1.result)
            && ExecuteStep(t, limit, r, again, next) == (t, Returned(t.results[key]))
    ensures other != r && other.agent == r.agent && other.idempotencyKey == r.idempotencyKey ==>
              var t := RunCalls(ExecuteStep(s, limit, r, inp, operation).0, limit, calls);
              var (u, outcome) := ExecuteStep(t, limit, other, again, next);
              && u == t && outcome.Returned?
              && outcome.result.request == other && outcome.result.error == Some(IdempotencyConflict)
              && outcome.result.state.Rejected? && Unchanged(again, outcome.result)
  {
    hide Evaluate, RunCalls, PendingResult;
    ExecutedIsStored(s, limit, r, inp, operation);
    var first, key := ExecuteStep(s, limit, r, inp, operation), OperationOf(r);
    EachKeyFillsOnce(first.0, limit, calls, key);
    if forall i :: 0 <= i < |calls| && calls[i].Reconcile? ==> calls[i].key != key {
      UnnamedResultStays(first.0, limit, calls, key);
    }
  }

  // ----- what reconciliation writes -----

  /** RESOLVED closes an order: nothing of it remains, and what it did not fill is
      cancelled. CONFLICT marks it with an error. Nothing else of it changes, and
      nothing of any other order. */
  lemma {:induction false} ReconcileIsExact(s: BrokerState, key: OperationKey, to: ReconciliationState)
    requires key in s.results
    ensures var (t, o) := (ReconcileStep(s, key, to), s.results[key]);
            && t.results.Keys == s.results.Keys
            && (forall k :: k in s.results && k != key ==> t.results[k] == s.results[k])
            && var u := t.results[key];
               && u.reconciliation == to
               && u.state == (if to.Resolved? then OrderState.Cancelled else o.state)
               && u.error == (if to.Conflict? then Some(ConflictingEvidence) else o.error)
               && (if to.Resolved? then u.remaining == 0 && u.filled + u.cancelled == o.requested
                   else u.remaining == o.remaining && u.cancelled == o.cancelled)
               && (u.request, u.requested, u.filled, u.fills) == (o.request, o.requested, o.filled, o.fills)
               && (u.grossDelta, u.fee, u.netDelta) == (o.grossDelta, o.fee, o.netDelta)
               && (u.before, u.after, u.entries, u.audit) == (o.before, o.after, o.entries, o.audit)
  {
  }

  /** Units of a result add up to what was asked for, and its constructor takes it. */
  ghost predicate AddsUp(k: OperationKey, o: OrderResult) {
    && ConstructorAccepts(o) && OperationOf(o.request) == k
    && o.filled + o.remaining + o.cancelled == o.requested
  }

  /** Over every run from a new broker, whatever reconcile calls it holds, the units
      of every stored result add up and its constructor would take it again. */
  lemma {:induction false} ResultsAddUp(s: BrokerState, limit: Concentration, calls: seq<BrokerCall>, k: OperationKey)
    requires forall l :: l in s.results ==> AddsUp(l, s.results[l])
    requires forall i :: 0 <= i < |calls| ==> ValidCall(calls[i])
    ensures k in RunCalls(s, limit, calls).results ==> AddsUp(k, RunCalls(s, limit, calls).results[k])
    decreases |calls|
  {
    hide CallStep, AddsUp;
    if calls != [] {
      forall l | l in CallStep(s, limit, calls[0]).results ensures AddsUp(l, CallStep(s, limit, calls[0]).results[l]) {
        ResultAddsUp(s, limit, calls[0], l);
      }
      ResultsAddUp(CallStep(s, limit, calls[0]), limit, calls[1..], k);
    }
  }

  lemma {:induction false} ResultAddsUp(s: BrokerState, limit: Concentration, c: BrokerCall, k: OperationKey)
    requires ValidCall(c) && (k in s.results ==> AddsUp(k, s.results[k])) && k in CallStep(s, limit, c).results
    ensures AddsUp(k, CallStep(s, limit, c).results[k])
  {
    hide Evaluate, Accepted, Prepare, ValidBook, ValidPortfolio;
    if c.Execute? && c.inp.context.Some? {
      EvaluateIsSound(limit, c.r, c.inp, c.inp.context.value, c.operation);
      ResultNamesRequest(limit, c.r, c.inp, c.inp.context.value, c.operation);
      AcceptedAddsUp(c.r, c.inp, Evaluate(limit, c.r, c.inp, c.inp.context.value, c.operation));
    }
  }

  lemma {:induction false} AcceptedAddsUp(r: OrderRequest, inp: Inputs, o: Outcome)
    ensures o.Returned? && (Accepted(r, inp, o.result) || Unchanged(inp, o.result)) ==>
              o.result.filled + o.result.remaining + o.result.cancelled == o.result.requested
  {
  }

  /** Over every run whose reconcile calls name a pending order, agents are blocked
      exactly while they have their one pending order. */
  lemma {:induction false} RunsKeepBlocks(s: BrokerState, limit: Concentration, calls: seq<BrokerCall>)
    requires BlocksPending(s) && NamesPending(s, limit, calls)
    requires forall i :: 0 <= i < |calls| ==> ValidCall(calls[i])
    ensures BlocksPending(RunCalls(s, limit, calls))
    decreases |calls|
  {
    hide ExecuteStep, ReconcileStep, BlocksPending, ValidInputs;
    if calls != [] {
      match calls[0] {
        case Execute(r, inp, operation) => ExecuteKeepsBlocks(s, limit, r, inp, operation);
        case Reconcile(key, to) => PendingReconcileKeepsBlocks(s, key, to);
      }
      RunsKeepBlocks(CallStep(s, limit, calls[0]), limit, calls[1..]);
    }
  }

  lemma {:induction false} PendingReconcileKeepsBlocks(s: BrokerState, key: OperationKey, to: ReconciliationState)
    requires BlocksPending(s) && IsPending(s, key)
    ensures BlocksPending(ReconcileStep(s, key, to))
  {
    assert HasPending(s, key.agent);
    ReconcileKeepsBlocksExactlyWhen(s, key, to);
  }

  /** From a state in which an agent is blocked with a pending order, no run of
      calls fills anything for that agent until one resolves an order of its own,
      and the order stays pending. */
  lemma {:induction false} NothingFillsWhilePending(s: BrokerState, limit: Concentration, calls: seq<BrokerCall>,
                                                    pending: OperationKey, k: OperationKey)
    requires IsPending(s, pending) && pending.agent in s.blocked && k.agent == pending.agent
    requires forall i :: 0 <= i < |calls| ==>
               ValidCall(calls[i])
               && !(calls[i].Reconcile? && calls[i].to.Resolved? && calls[i].key.agent == pending.agent)
    ensures FillCount(s, limit, calls, k) == 0
    ensures IsPending(RunCalls(s, limit, calls), pending) && pending.agent in RunCalls(s, limit, calls).blocked
    decreases |calls|
  {
    hide CallStep, Fills, IsPending;
    if calls != [] {
      BlockedDoesNotFill(s, limit, calls[0], pending, k);
      NothingFillsWhilePending(CallStep(s, limit, calls[0]), limit, calls[1..], pending, k);
    }
  }

  lemma {:induction false} BlockedDoesNotFill(s: BrokerState, limit: Concentration, c: BrokerCall,
                                              pending: OperationKey, k: OperationKey)
    requires IsPending(s, pending) && pending.agent in s.blocked && k.agent == pending.agent && ValidCall(c)
    requires !(c.Reconcile? && c.to.Resolved? && c.key.agent == pending.agent)
    ensures var t := CallStep(s, limit, c);
            IsPending(t, pending) && pending.agent in t.blocked && !Fills(s, limit, c, k)
  {
    hide Evaluate;
  }

  /** The restriction on reconcile calls matters: two executes and one resolve of
      the second, rejected order unblock an agent whose first order is pending. */
  lemma {:induction false} ResolvingAnotherOrderUnblocks(limit: Concentration, p: ContractPortfolio)
    requires ValidPortfolio(p) && !p.blocked
    ensures exists calls: seq<BrokerCall>, key ::
              && |calls| == 2 && calls[0].Execute? && calls[1].Execute?
              && (forall i :: 0 <= i < |calls| ==> ValidCall(calls[i]))
              && var s := RunCalls(NEW_BROKER, limit, calls);
                 var t := ReconcileStep(s, key, Resolved);
                 && BlocksPending(s) && key in s.results && HasPending(s, key.agent)
                 && key.agent !in t.blocked && HasPending(t, key.agent)
  {
    var first := OrderRequest(0, 0, Yes, Side.Buy, Contracts(1), 1, None, Ioc);
    var second := first.(idempotencyKey := 2);
    var inp := Inputs(p, true, None, Refused, None);
    var calls := [Execute(first, inp, 0), Execute(second, inp, 0)];
    var s1 := ExecuteStep(NEW_BROKER, limit, first, inp, 0).0;
    var s2 := ExecuteStep(s1, limit, second, inp, 0).0;
    assert RunCalls(NEW_BROKER, limit, calls) == s2 by {
      assert calls[1..] == [Execute(second, inp, 0)] && calls[1..][1..] == [];
      assert RunCalls(s1, limit, calls[1..]) == RunCalls(s2, limit, []);
    }
    assert forall a :: !HasPending(NEW_BROKER, a);
    ExecuteKeepsBlocks(NEW_BROKER, limit, first, inp, 0);
    ExecuteKeepsBlocks(s1, limit, second, inp, 0);
    var key := OperationOf(second);
    assert IsPending(s2, OperationOf(first));
    assert HasPending(s2, 0);
    assert IsPending(ReconcileStep(s2, key, Resolved), OperationOf(first));
    assert HasPending(ReconcileStep(s2, key, Resolved), key.agent);
  }
}
