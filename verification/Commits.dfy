/** Who gets to write: exactly when an undisturbed worker commits an order or a
    settlement, and what is never written again (src/vtrade/broker_repository.py). */
module Commits {
  import Charges = Fees
  import Execution = Broker
  import opened Arithmetic
  import opened Domain
  import opened Histories
  import opened Ledger
  import Haircut = Liquidity
  import opened Persistence
  import opened Planning
  import opened Portfolio
  import opened Settlement
  import opened StoredLedger

  // ----- who does get to write -----

  function OrderSteps(w: int, e: Event, audit: Option<AuditRow>): seq<Action>
    requires e.Filled?
  {
    [ReadAccount(w), ReadPositions(w), PrepareOrder(w, e.trade, e.fills, e.operation, audit), Persist(w)]
  }

  /** What an order needs to be committed by a worker nobody interferes with. */
  ghost predicate Committable(s: System, cash: pos, e: Event, audit: Option<AuditRow>)
    requires Sequential(s, cash) && e.Filled?
  {
    && AuditAdmitted(audit) && e.operation !in s.db.operations && !s.db.barred
    && Step(Current(s, cash), e).Success? && Priced(e.trade, e.fills) && FeeFree(Current(s, cash), e)
  }

  /** An undisturbed worker, reading, computing and persisting in a row, commits its
      order if and only if its key is new, the agent is not barred, the stored audit
      has six captured and five effective levels, the accounting accepts the fills,
      and they carry no fee at all and, on a SELL, release some basis. Otherwise
      nothing is committed. */
  lemma {:induction false} UndisturbedWorkerCommits(s: System, cash: pos, w: int, e: Event, audit: Option<AuditRow>)
    requires Invariant(s, cash) && e.Filled?
    ensures var t := RunSystem(s, OrderSteps(w, e, audit));
            && t.committed == (if Committable(s, cash, e, audit) then s.committed + [e] else s.committed)
            && Invariant(t, cash)
            && (Committable(s, cash, e, audit) ==> Blind(Current(t, cash)) == Blind(Step(Current(s, cash), e).value.0))
  {
    hide Step, Sequential, ApplyOrder, Invariant, SoundWork, StoredCash, Priced, FeeFree, Storable,
      AuditAdmitted;
    var prepare := PrepareOrder(w, e.trade, e.fills, e.operation, audit);
    var a := Next(s, ReadAccount(w));
    var b := Next(a, ReadPositions(w));
    var c := Next(b, prepare);
    FourSteps(s, ReadAccount(w), ReadPositions(w), prepare, Persist(w));
    NextKeeps(s, cash, ReadAccount(w));
    NextKeeps(a, cash, ReadPositions(w));
    NextKeeps(b, cash, prepare);
    NextKeeps(c, cash, Persist(w));
    FreshRead(s, cash, w);
    InvariantRuns(s, cash);
    var p, q := WorkOf(b, w).portfolio, Current(s, cash);
    AcceptedAlike(q, p, e);
    if Step(p, e).Success? {
      OrderStep(p, e);
      FreshIdAndRows(s, cash, e);
      RunAppend(Empty(s.agent, cash), s.committed, e);
    } else {
      RefusedStep(p, e);
    }
  }

  /** Portfolios alike in what accounting looks at accept the same events. */
  lemma {:induction false} AcceptedAlike(p: ContractPortfolio, q: ContractPortfolio, e: Event)
    requires Blind(p) == Blind(q)
    ensures Step(p, e).Success? <==> Step(q, e).Success?
    ensures Step(p, e).Success? ==> Step(q, e).value.1 == Step(p, e).value.1
                                    && Blind(Step(q, e).value.0) == Blind(Step(p, e).value.0)
  {
    hide Step;
    if Step(p, e).Success? {
      StepIsBlind(p, q, e);
    } else if Step(q, e).Success? {
      StepIsBlind(q, p, e);
    }
  }

  lemma {:induction false} RefusedStep(p: ContractPortfolio, e: Event)
    requires e.Filled? && Step(p, e).Failure?
    ensures ApplyOrder(p, e.trade, e.fills, e.operation).Failure?
  {
    hide ApplyOrder;
  }

  /** For a new operation the entry's id is new, and storability is freedom of fees. */
  lemma {:induction false} FreshIdAndRows(s: System, cash: pos, e: Event)
    requires Sequential(s, cash) && e.Filled? && Step(Current(s, cash), e).Success?
    ensures var entry := Step(Current(s, cash), e).value.1;
            && (e.operation !in s.db.operations ==> !IdTaken(s.db.ledger, IdOf(entry.key)))
            && (Priced(e.trade, e.fills) ==> (Storable(entry) <==> FeeFree(Current(s, cash), e)))
  {
    hide Step, Run, Storable, FeeFree, NoFees, StoreAll;
    CurrentIsSound(s, cash);
    EntryNamesEvent(Current(s, cash), e);
    if Priced(e.trade, e.fills) {
      StorableExactlyWhen(Current(s, cash), e);
    }
  }

  /** An order that accounting refuses is recorded by that worker as one that filled
      nothing, if its key is new and the agent not barred, and that is all it writes. */
  lemma {:induction false} RefusedOrderIsRecorded(s: System, cash: pos, w: int, e: Event, audit: Option<AuditRow>)
    requires Invariant(s, cash) && e.Filled? && Sequential(s, cash) && Step(Current(s, cash), e).Failure?
    ensures var t := RunSystem(s, OrderSteps(w, e, audit));
            t.db == if e.operation in s.db.operations || s.db.barred then s.db
                    else s.db.(operations := s.db.operations[e.operation := Operation(e.trade, [])])
  {
    hide Step, Sequential, ApplyOrder, Invariant, SoundWork, StoredCash, Priced, Storable, AuditAdmitted;
    var prepare := PrepareOrder(w, e.trade, e.fills, e.operation, audit);
    var b := Next(Next(s, ReadAccount(w)), ReadPositions(w));
    FourSteps(s, ReadAccount(w), ReadPositions(w), prepare, Persist(w));
    FreshRead(s, cash, w);
    AcceptedAlike(Current(s, cash), WorkOf(b, w).portfolio, e);
    RefusedStep(WorkOf(b, w).portfolio, e);
  }

  /** Under a policy that charges anything at the price of its first fill, no order
      that execution could have made is ever committed. */
  lemma {:induction false} ChargedOrdersNeverCommit(s: System, cash: pos, w: int, e: Event, audit: Option<AuditRow>,
                                                    lots: seq<Charges.Lot>, policy: Charges.FeePolicy)
    requires Invariant(s, cash) && e.Filled? && Charges.ValidLots(lots) && lots != []
    requires Charges.Charged(lots[0].price, policy)
    requires var run := Charges.FeeRun(lots, policy, e.trade.action, 0);
             && (forall i :: 0 <= i < |run| ==> 0 <= run[i].netFee)
             && e.fills == Execution.FillsOf(lots, run, e.trade.action)
    ensures RunSystem(s, OrderSteps(w, e, audit)).committed == s.committed
  {
    hide RunSystem, Invariant, Step, Charges.Charge;
    UndisturbedWorkerCommits(s, cash, w, e, audit);
    ChargedFillPays(lots[0], policy, e.trade.action);
    var run := Charges.FeeRun(lots, policy, e.trade.action, 0);
    assert e.fills[0].fee == run[0].netFee > 0;
    assert FeeTotal(e.fills) > 0;
  }

  lemma {:induction false} ChargedFillPays(l: Charges.Lot, policy: Charges.FeePolicy, action: Side)
    requires Charges.ValidLot(l) && Charges.Charged(l.price, policy)
    ensures Charges.Charge(l.units, l.price, policy, action, 0).netFee > 0
  {
    hide Charges.Charge, Charges.TradeFee, Charges.FeeFactor;
    Charges.NumeratorZero(l.units, l.price, policy);
    Charges.TradeFeeBounds(l.units, l.price, policy);
    Charges.ChargeIsSound(l.units, l.price, policy, action, 0);
    Charges.ChargeUsesTradeFee(l.units, l.price, policy, action, 0);
    CeilDivBounds(Charges.Numerator(l.units, l.price, policy), Charges.Denominator(policy));
  }

  /** An order that pays a fee is never committed, whatever its audit: here the first
      order of a new account, 100 units at 0.06 with the fee the calculator charges. */
  lemma {:induction false} FeePayingOrderNeverCommits(w: int, audit: Option<AuditRow>)
    ensures exists e: Event, policy: Charges.FeePolicy ::
              && e.Filled? && |e.fills| == 1 && e.trade.action.Buy?
              && var c := Charges.Charge(100, 60_000, policy, Side.Buy, 0);
                 && 0 < c.netFee && e.fills[0] == EconomicFill(100, c.gross, c.netFee, -(c.gross + c.netFee))
                 && Step(Empty(0, 1_000_000), e).Success?
                 && RunSystem(Opened(0, 1_000_000), OrderSteps(w, e, audit)).committed == []
  {
    var policy := Charges.FeePolicy(1, 1, 7, 100, false);
    var f := EconomicFill(100, 60_000, 10_000, -70_000);
    var e := Filled(Trade(0, PositionKey(0, Yes), Buy), [f], 7);
    BuyAtSixCents(policy);
    var s, p := Opened(0, 1_000_000), Empty(0, 1_000_000);
    var fills := [f];
    assert fills[1..] == [];
    assert GrossTotal(fills) == 60_000 + GrossTotal(fills[1..]) && FeeTotal(fills) == 10_000 + FeeTotal(fills[1..]);
    assert Priced(e.trade, e.fills);
    OrderAcceptedExactlyWhen(p, e.trade, e.fills, e.operation);
    OpenedIsSequential(0, 1_000_000);
    UndisturbedWorkerCommits(s, 1_000_000, w, e, audit);
  }

  lemma {:induction false} BuyAtSixCents(policy: Charges.FeePolicy)
    requires policy == Charges.FeePolicy(1, 1, 7, 100, false)
    ensures var c := Charges.Charge(100, 60_000, policy, Side.Buy, 0); c.gross == 60_000 && c.netFee == 10_000
  {
    assert Charges.Numerator(100, 60_000, policy) == 100 * (7 * (60_000 * 940_000));
    assert Charges.Denominator(policy) == 100 * 100 * 1_000_000;
    assert Charges.TradeFee(100, 60_000, policy) == 10_000;
  }

  // ----- orders as execution makes them -----

  function RowOf(audit: Haircut.HaircutAudit): AuditRow {
    AuditRow(audit.capturedCount, audit.effectiveCount)
  }

  /** The audit of a haircut is admitted exactly when the side the order trades
      against has at least six levels, although two are enough for the haircut. */
  lemma {:induction false} AuditAdmittedExactlyWhen(source: seq<Level>)
    requires ValidLevels(source) && Haircut.ApplyHaircut(source).Success?
    ensures AuditAdmitted(Some(RowOf(Haircut.ApplyHaircut(source).value.1))) <==> 6 <= |source|
  {
  }

  /** The event and the audit row that an executed order is persisted as. */
  function Executed(r: OrderRequest, o: Execution.OrderResult, operation: int): Event {
    Filled(Execution.TradeOf(r), o.fills, operation)
  }

  function AuditOf(o: Execution.OrderResult): Option<AuditRow> {
    if o.audit.Some? then Some(RowOf(o.audit.value)) else None
  }

  /** From execution to the tables: an order that was executed on the current
      portfolio and filled is committed by an undisturbed worker if and only if its
      key is new, the agent is not barred, it paid no fee, a SELL released some
      basis, and the book side it traded against had at least six levels. */
  lemma {:induction false} ExecutedOrderCommitsExactlyWhen(
      s: System, cash: pos, w: int, limit: Execution.Concentration, r: OrderRequest, inp: Execution.Inputs,
      context: Execution.MarketContext, operation: int)
    requires Invariant(s, cash) && Execution.ValidBook(context.book) && ValidPortfolio(inp.portfolio)
    requires Blind(inp.portfolio) == Blind(Current(s, cash))
    requires var o := Execution.Evaluate(limit, r, inp, context, operation); o.Returned? && o.result.fills != []
    ensures var o := Execution.Evaluate(limit, r, inp, context, operation).result;
            var e, was := Executed(r, o, operation), At(inp.portfolio, r.Key());
            RunSystem(s, OrderSteps(w, e, AuditOf(o))).committed ==
              if operation !in s.db.operations && !s.db.barred && o.fee == 0
                 && (r.action.Sell? ==> ShareLeft(was.units, was.basis, o.fills) < was.basis)
                 && 6 <= |Execution.LadderFor(context.book, r.outcome, r.action)|
              then s.committed + [e] else s.committed
  {
    hide Execution.Evaluate, RunSystem, Invariant, ApplyOrder, Haircut.ApplyHaircut, Priced, AuditAdmitted, ShareLeft;
    InvariantRuns(s, cash);
    var o, now := Execution.Evaluate(limit, r, inp, context, operation).result, Current(s, cash);
    var e := Executed(r, o, operation);
    Execution.ExecutedFacts(limit, r, inp, context, operation);
    UndisturbedWorkerCommits(s, cash, w, e, AuditOf(o));
    AcceptedAlike(inp.portfolio, now, e);
    assert inp.portfolio.positions == now.positions by {
      assert Blind(inp.portfolio).positions == Blind(now).positions;
    }
    AuditAdmittedExactlyWhen(Execution.LadderFor(context.book, r.outcome, r.action));
  }

  /** The condition on the levels decides: the same fee-free order, filled whole, is
      never committed when the asks it traded against are two levels, and is
      committed when they go on to six. */
  lemma {:induction false} LevelsDecide(w: int, operation: int)
    ensures exists r: OrderRequest, inp: Execution.Inputs,
                   short: Execution.MarketContext, long: Execution.MarketContext ::
              && Execution.ValidBook(short.book) && Execution.ValidBook(long.book)
              && |short.book.yesAsks| == 2 && |long.book.yesAsks| == 6 && short.book.yesAsks <= long.book.yesAsks
              && var a := Execution.Evaluate(Execution.Concentration(1, 1), r, inp, short, operation);
                 var b := Execution.Evaluate(Execution.Concentration(1, 1), r, inp, long, operation);
                 && a.Returned? && a.result.state.FullyFilled? && a.result.fee == 0
                 && b.Returned? && b.result.state.FullyFilled? && b.result.fee == 0
                 && var s := Opened(0, 10_000_000);
                    var e, f := Executed(r, a.result, operation), Executed(r, b.result, operation);
                    && RunSystem(s, OrderSteps(w, e, AuditOf(a.result))).committed == []
                    && RunSystem(s, OrderSteps(w, f, AuditOf(b.result))).committed == [f]
  {
    hide Execution.Evaluate, RunSystem, Invariant, ShareLeft;
    var r := OrderRequest(0, 0, Yes, Side.Buy, Contracts(150), 1, None, Ioc);
    var p := Empty(0, 10_000_000);
    var two := [Level(510_000, 100), Level(520_000, 150)];
    var six := two + [Level(530_000, 10), Level(540_000, 10), Level(550_000, 10), Level(560_000, 10)];
    var short := Execution.MarketContext(None, Execution.OrderBook([], two, [], []));
    var long := Execution.MarketContext(None, Execution.OrderBook([], six, [], []));
    var policy := Charges.FeePolicy(0, 1, 0, 1, true);
    var inp := Execution.Inputs(p, false, None, Execution.Usable(policy), Some(10_000_000));
    OpenedIsSequential(0, 10_000_000);
    InvariantRuns(Opened(0, 10_000_000), 10_000_000);
    assert Current(Opened(0, 10_000_000), 10_000_000) == p;
    Execution.WholeFillAt52(r, inp, short, operation);
    Execution.WholeFillAt52(r, inp, long, operation);
    var s, limit := Opened(0, 10_000_000), Execution.Concentration(1, 1);
    ExecutedOrderCommitsExactlyWhen(s, 10_000_000, w, limit, r, inp, short, operation);
    ExecutedOrderCommitsExactlyWhen(s, 10_000_000, w, limit, r, inp, long, operation);
  }

  lemma {:induction false} OrderStep(p: ContractPortfolio, e: Event)
    requires e.Filled? && Step(p, e).Success?
    ensures ApplyOrder(p, e.trade, e.fills, e.operation) == Success(Step(p, e).value) && e.fills != []
    ensures Step(p, e).value.1.key == OrderAccounting(e.operation)
  {
  }

  lemma {:induction false} InvariantRuns(s: System, cash: pos)
    requires Invariant(s, cash)
    ensures Sequential(s, cash) && Run(Empty(s.agent, cash), s.committed).Success?
  {
  }

  lemma {:induction false} FourSteps(s: System, a: Action, b: Action, c: Action, d: Action)
    ensures RunSystem(s, [a, b, c, d]) == Next(Next(Next(Next(s, a), b), c), d)
  {
    hide Next;
    var t := Next(Next(s, a), b);
    assert [a, b, c, d][1..] == [b, c, d] && [b, c, d][1..] == [c, d] && [c, d][1..] == [d] && [d][1..] == [];
    assert RunSystem(s, [a, b, c, d]) == RunSystem(t, [c, d]);
    assert RunSystem(t, [c, d]) == RunSystem(Next(t, c), [d]);
    assert RunSystem(Next(t, c), [d]) == RunSystem(Next(Next(t, c), d), []);
  }

  /** A snapshot read without a commit in between is the current portfolio. */
  lemma {:induction false} FreshRead(s: System, cash: pos, w: int)
    requires Invariant(s, cash)
    ensures var b := Next(Next(s, ReadAccount(w)), ReadPositions(w));
            && b.db == s.db && b.committed == s.committed && b.agent == s.agent
            && WorkOf(b, w).Loaded? && WorkOf(b, w).portfolio.version == s.db.version
            && WorkOf(b, w).portfolio.agent == s.agent
            && Sequential(s, cash) && Blind(WorkOf(b, w).portfolio) == Blind(Current(s, cash))
  {
    CurrentIsSound(s, cash);
  }

  /** The same for a settlement: it needs a winning position with some basis that
      the payout does not just equal, and no earlier settlement at that time, under
      that key, or of that position by that resolution. */
  lemma {:induction false} UndisturbedSettlementCommits(s: System, cash: pos, w: int, e: Event, resolution: int)
    requires Invariant(s, cash) && e.Settled?
    ensures var p, settled := Current(s, cash), SettlementOf(s.agent, e.key.market, e.settledAt);
            var t := RunSystem(s, [ReadAccount(w), ReadPositions(w),
                                   PrepareSettlement(w, e.key, e.result, e.settledAt, resolution), Persist(w)]);
            t.committed == s.committed + [e] <==>
              && e.key in p.positions && e.key.outcome == e.result && 0 < At(p, e.key).basis
              && At(p, e.key).basis != At(p, e.key).units * PAYOUT_PER_UNIT
              && !IdTaken(s.db.ledger, IdOf(settled)) && settled !in s.db.settlements
              && !(exists k :: k in s.db.settlements && s.db.settlements[k].position == e.key
                            && s.db.settlements[k].resolution == resolution)
  {
    hide Sequential, Invariant, SoundWork, StoredCash, SettlePosition, Storable, Step;
    var a := Next(s, ReadAccount(w));
    var b := Next(a, ReadPositions(w));
    FourSteps(s, ReadAccount(w), ReadPositions(w),
              PrepareSettlement(w, e.key, e.result, e.settledAt, resolution), Persist(w));
    FreshRead(s, cash, w);
    InvariantRuns(s, cash);
    var p := WorkOf(b, w).portfolio;
    assert p.positions == Current(s, cash).positions by {
      assert Blind(p).positions == Blind(Current(s, cash)).positions;
    }
    if e.key in p.positions {
      SettlementNeeds(s, cash, p, e);
    }
  }

  lemma {:induction false} SettlementNeeds(s: System, cash: pos, p: ContractPortfolio, e: Event)
    requires Sequential(s, cash) && e.Settled? && e.key in p.positions && p.agent == s.agent
    requires p.positions == Current(s, cash).positions
    ensures var q, paid := p.positions[e.key], SettlePosition(p, e.key, e.result, e.settledAt);
            && (paid.Success? <==> e.key.outcome == e.result && q.units * PAYOUT_PER_UNIT != q.basis)
            && (paid.Success? ==>
                  && (Storable(paid.value.1.entry) <==> 0 < q.basis) && e.key in s.db.rows
                  && paid.value.1.entry.key == SettlementOf(s.agent, e.key.market, e.settledAt))
  {
    hide Sequential, Storable, Run;
    var now := Current(s, cash);
    CurrentIsSound(s, cash);
    assert At(now, e.key).fees == 0;
    OpenRowsAreOpen(s, cash, e.key);
    SettlesExactlyWhen(p, e.key, e.result, e.settledAt);
    if SettlePosition(p, e.key, e.result, e.settledAt).Success? {
      SameFees(p, now);
      SettlementStorableExactlyWhen(p, e.key, e.result, e.settledAt);
    }
  }

  lemma {:induction false} SameFees(p: ContractPortfolio, q: ContractPortfolio)
    requires p.positions == q.positions && NoFees(q) && ValidPortfolio(q)
    ensures NoFees(p) && ValidPortfolio(p)
  {
    assert forall k :: At(p, k) == At(q, k);
  }

  lemma {:induction false} OpenRowsAreOpen(s: System, cash: pos, k: PositionKey)
    requires Sequential(s, cash) && k in Current(s, cash).positions
    ensures k in s.db.rows && Current(s, cash).positions[k].units > 0
  {
    assert k in OpenRows(s.db.rows);
  }

  /** Once an operation is stored it is never rewritten, and persisting it again,
      by any worker after any further steps, writes nothing. */
  lemma {:induction false} OperationsStay(s: System, actions: seq<Action>, operation: int)
    requires operation in s.db.operations
    ensures var t := RunSystem(s, actions);
            && operation in t.db.operations && t.db.operations[operation] == s.db.operations[operation]
            && forall w: int :: WorkOf(t, w).OrderReady? && WorkOf(t, w).order.operation == operation ==>
                 && PersistOrder(t.db, WorkOf(t, w).order)
                    == (t.db, if WorkOf(t, w).order.stored == s.db.operations[operation] then Replayed else Aborted)
                 && Next(t, Persist(w)) == t
    decreases |actions|
  {
    if actions != [] {
      OperationStays(s, actions[0], operation);
      OperationsStay(Next(s, actions[0]), actions[1..], operation);
    }
  }

  lemma {:induction false} OperationStays(s: System, a: Action, operation: int)
    requires operation in s.db.operations
    ensures var t := Next(s, a);
            operation in t.db.operations && t.db.operations[operation] == s.db.operations[operation]
  {
    hide ApplyOrder, SettlePosition, Balance;
  }

  /** An order that filled nothing is recorded whatever version it was computed on,
      unless its key is taken or the agent barred, and moves nothing. */
  lemma {:induction false} UnfilledIsRecorded(db: Tables, w: OrderWork)
    requires w.stored.fills == []
    ensures var (next, outcome) := PersistOrder(db, w);
            && (outcome.Written? <==> w.operation !in db.operations && !db.barred)
            && next == if outcome.Written? then db.(operations := db.operations[w.operation := w.stored]) else db
  {
  }

  /** A settlement once stored is never rewritten. Persisting under its key again, after
      any further steps, writes nothing: the same record is recognised, another one
      aborts. Its position cannot be settled by the same resolution under any key. */
  lemma {:induction false} SettlementsStay(s: System, actions: seq<Action>, key: EntryKey, w: SettlementWork)
    requires key in s.db.settlements
    ensures var t, was := RunSystem(s, actions), s.db.settlements[key];
            && key in t.db.settlements && t.db.settlements[key] == was
            && (w.row.record.entry.key == key ==>
                  PersistSettlement(t.db, w) == (t.db, if w.row.record == was.record then Replayed else Aborted))
            && (w.row.position == was.position && w.row.resolution == was.resolution ==>
                  PersistSettlement(t.db, w).0 == t.db && !PersistSettlement(t.db, w).1.Written?)
    decreases |actions|
  {
    hide Insertable, Next;
    if actions != [] {
      SettlementStays(s, actions[0], key);
      SettlementsStay(Next(s, actions[0]), actions[1..], key, w);
    }
  }

  lemma {:induction false} SettlementStays(s: System, a: Action, key: EntryKey)
    requires key in s.db.settlements
    ensures var t := Next(s, a); key in t.db.settlements && t.db.settlements[key] == s.db.settlements[key]
  {
    hide ApplyOrder, SettlePosition, Balance, Insertable;
  }

  /** A settlement that is written is recorded under the key of its entry, empties the
      row of its position and adds its profit to what that row had booked. */
  lemma {:induction false} SettlementWrites(db: Tables, w: SettlementWork)
    requires PersistSettlement(db, w).1.Written?
    ensures var t, key := PersistSettlement(db, w).0, w.row.position;
            && key in db.rows && key in t.rows && t.rows - {key} == db.rows - {key}
            && t.rows[key].units == t.rows[key].basis == t.rows[key].fees == 0
            && t.rows[key].realized - db.rows[key].realized == w.row.record.realized
            && t.settlements == db.settlements[w.row.record.entry.key := w.row]
            && t.operations == db.operations && t.barred == db.barred
  {
    hide Insertable;
  }

  // ----- settlements at the same time -----

  /** The id of a settlement's entry does not name its market. Once one settlement
      of an agent is stored for some time, no settlement of any market at that time
      is ever written, by any worker after any further steps. */
  lemma {:induction false} SameTimeNeverStored(s: System, actions: seq<Action>, settledAt: int)
    requires IdTaken(s.db.ledger, SettlementId(s.agent, settledAt))
    ensures var t := RunSystem(s, actions);
            && IdTaken(t.db.ledger, SettlementId(s.agent, settledAt))
            && forall w: int | WorkOf(t, w).SettlementReady? ::
                 IdOf(WorkOf(t, w).settlement.row.record.entry.key) == SettlementId(s.agent, settledAt) ==>
                   !PersistSettlement(t.db, WorkOf(t, w).settlement).1.Written? && Next(t, Persist(w)) == t
    decreases |actions|
  {
    if actions != [] {
      IdStaysTaken(s, actions[0], SettlementId(s.agent, settledAt));
      SameTimeNeverStored(Next(s, actions[0]), actions[1..], settledAt);
    }
  }

  lemma {:induction false} IdStaysTaken(s: System, a: Action, id: EntryId)
    requires IdTaken(s.db.ledger, id)
    ensures IdTaken(Next(s, a).db.ledger, id) && Next(s, a).agent == s.agent
  {
    hide ApplyOrder, SettlePosition, StoredCash, Store, Storable;
    var i :| 0 <= i < |s.db.ledger| && s.db.ledger[i].id == id;
    assert |Next(s, a).db.ledger| >= |s.db.ledger| && Next(s, a).db.ledger[i] == s.db.ledger[i];
  }

  /** So no two committed settlements of an agent have the same time. */
  lemma {:induction false} OneSettlementPerTime(agent: AgentId, cash: pos, actions: seq<Action>, i: nat, j: nat)
    requires var committed := RunSystem(Opened(agent, cash), actions).committed;
             i < j < |committed| && committed[i].Settled? && committed[j].Settled?
    ensures var committed := RunSystem(Opened(agent, cash), actions).committed;
            committed[i].settledAt != committed[j].settledAt
  {
    hide RunSystem, Run, ReadAll;
    var s := RunSystem(Opened(agent, cash), actions);
    CommittedIsSequential(agent, cash, actions);
    EntriesNameEvents(Empty(agent, cash), s.committed);
    var entries := Run(Empty(agent, cash), s.committed).value.1;
    assert s.db.ledger[i + 1].id == IdOf(entries[i].key) && s.db.ledger[j + 1].id == IdOf(entries[j].key);
  }
}
