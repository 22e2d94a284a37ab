/** The ledger as its tables hold it: which entries they admit, what a stored
    posting still says, and what a replay of stored entries rebuilds
    (src/vtrade/broker_repository.py, migrations/0001, migrations/0003). */
module StoredLedger {
  import opened Domain
  import opened Histories
  import opened Ledger
  import opened Portfolio
  import opened Replay
  import opened Settlement

  // ----- rows -----

  /** Market and outcome are written only next to a unit delta, and there is no
      column for a change of entry fees. */
  datatype StoredPosting = StoredPosting(account: Account, amount: int, moved: Option<Move>)

  datatype Move = Move(key: PositionKey, units: int)

  /** Primary key of an entry. The id of a settlement names its agent and time, not
      its market. */
  datatype EntryId = OpeningId(agent: AgentId) | OrderId(operation: int) | SettlementId(agent: AgentId, settledAt: int)

  datatype StoredEntry = StoredEntry(id: EntryId, agent: AgentId, key: EntryKey, postings: seq<StoredPosting>)

  function IdOf(k: EntryKey): EntryId {
    match k
    case Opening(agent) => OpeningId(agent)
    case OrderAccounting(operation) => OrderId(operation)
    case SettlementOf(agent, _, settledAt) => SettlementId(agent, settledAt)
  }

  function StorePosting(p: Posting): StoredPosting {
    StoredPosting(p.account, p.amount,
                  if p.unitsDelta.Some? && p.key.Some? then Some(Move(p.key.value, p.unitsDelta.value)) else None)
  }

  /** _insert_contract_ledger. */
  function Store(e: LedgerEntry): StoredEntry {
    StoredEntry(IdOf(e.key), e.agent, e.key,
                seq(|e.postings|, i requires 0 <= i < |e.postings| => StorePosting(e.postings[i])))
  }

  /** What the CHECK constraints admit: a known account name, and never no money.
      The name of the fee account is not one of them. */
  predicate Admitted(p: StoredPosting) {
    p.account in {CashAccount, OwnerEquity, PositionCost, SettlementPayout, RealizedPnl} && p.amount != 0
  }

  predicate Storable(e: LedgerEntry) {
    forall i :: 0 <= i < |e.postings| ==> Admitted(StorePosting(e.postings[i]))
  }

  predicate IdTaken(ledger: seq<StoredEntry>, id: EntryId) {
    exists i :: 0 <= i < |ledger| && ledger[i].id == id
  }

  ghost predicate DistinctIds(ledger: seq<StoredEntry>) {
    forall i, j :: 0 <= i < j < |ledger| ==> ledger[i].id != ledger[j].id
  }

  function StoreAll(entries: seq<LedgerEntry>): seq<StoredEntry> {
    seq(|entries|, i requires 0 <= i < |entries| => Store(entries[i]))
  }

  // ----- reading the rows back -----

  function ReadPosting(p: StoredPosting): Posting {
    if p.moved.None? then Posting(p.account, p.amount, None, None, None)
    else Posting(p.account, p.amount, Some(p.moved.value.key), Some(p.moved.value.units), None)
  }

  function ReadEntry(e: StoredEntry): LedgerEntry {
    LedgerEntry(e.agent, e.key, seq(|e.postings|, i requires 0 <= i < |e.postings| => ReadPosting(e.postings[i])))
  }

  function ReadAll(ledger: seq<StoredEntry>): seq<LedgerEntry> {
    seq(|ledger|, i requires 0 <= i < |ledger| => ReadEntry(ledger[i]))
  }

  /** A posting once it has been stored and read back. */
  function Stripped(p: Posting): Posting {
    ReadPosting(StorePosting(p))
  }

  ghost predicate ReadsAs(stored: seq<Posting>, postings: seq<Posting>) {
    |stored| == |postings| && forall i :: 0 <= i < |stored| ==> stored[i] == Stripped(postings[i])
  }

  /** Money by account survives storage; entry fees do not, nor does the position
      behind any posting but a cost posting. */
  lemma {:induction false} StrippedSums(stored: seq<Posting>, postings: seq<Posting>, m: Measure)
    requires ReadsAs(stored, postings) && forall i :: 0 <= i < |postings| ==> ValidPosting(postings[i])
    requires forall i :: 0 <= i < |postings| ==> (postings[i].account == PositionCost ==> postings[i].unitsDelta.Some?)
    ensures SumOf(stored, m)
         == if m.EntryFeesAt? || (m.AmountAt? && m.account != PositionCost) then 0 else SumOf(postings, m)
  {
    if postings != [] {
      assert stored[0] == Stripped(postings[0]) && ValidPosting(postings[0]);
      assert forall i :: 1 <= i < |stored| ==> stored[1..][i-1] == stored[i] && postings[1..][i-1] == postings[i];
      StrippedSums(stored[1..], postings[1..], m);
    }
  }

  /** Every entry of a history has one cost posting, and it moves units. */
  lemma {:induction false} CostPostingsMove(p: ContractPortfolio, e: Event)
    requires ValidPortfolio(p) && Step(p, e).Success?
    ensures var postings := Step(p, e).value.1.postings;
            forall i :: 0 <= i < |postings| ==>
              ValidPosting(postings[i]) && (postings[i].account == PositionCost ==> postings[i].unitsDelta.Some?)
  {
    hide ApplyFills;
  }

  lemma {:induction false} ReadBack(e: LedgerEntry)
    ensures ReadsAs(ReadEntry(Store(e)).postings, e.postings)
    ensures ReadEntry(Store(e)).agent == e.agent && ReadEntry(Store(e)).key == e.key
  {
  }

  // ----- what the stored ledger rebuilds -----

  /** A portfolio with what the stored ledger does not carry set to nothing. */
  function Bare(p: ContractPortfolio): ContractPortfolio {
    p.(positions := map k | k in p.positions :: p.positions[k].(fees := 0, realized := 0), realizedPnl := 0)
  }

  /** Replaying the stored entry of one event. */
  lemma {:induction false} StoredStep(p: ContractPortfolio, e: Event)
    requires ValidPortfolio(p) && Step(p, e).Success?
    ensures var (q, entry) := Step(p, e).value;
            ReplayEntry(Initially(Bare(p)), ReadEntry(Store(entry))) == Success(Initially(Bare(q)))
  {
    hide Step, ReplayPosting;
    var (q, entry) := Step(p, e).value;
    var key, excess := Touched(e), if e.Filled? then Excess(p, e) else 0;
    if e.Filled? {
      OrderDescribes(p, e);
    } else {
      SettlementDescribes(p, e);
    }
    var stored := ReadEntry(Store(entry));
    ReadBack(entry);
    CostPostingsMove(p, e);
    forall m: Measure {
      StrippedSums(stored.postings, entry.postings, m);
    }
    MovesOnce(p, q, entry, key, excess, stored);
  }

  lemma {:induction false} MovesOnce(p: ContractPortfolio, q: ContractPortfolio, entry: LedgerEntry, key: PositionKey,
                                     excess: int, stored: LedgerEntry)
    requires Describes(p, q, entry, key, excess) && ReadsAs(stored.postings, entry.postings) && ValidPortfolio(p)
    requires ValidPosting(entry.postings[1])
    requires SumOf(stored.postings, AmountIn(CashAccount)) == SumOf(entry.postings, AmountIn(CashAccount))
    requires SumOf(stored.postings, EntryFeesAt(key)) == 0
    requires SumOf(stored.postings, AmountAt(RealizedPnl, key)) == SumOf(stored.postings, AmountAt(Fees, key)) == 0
    ensures ReplayEntry(Initially(Bare(p)), stored) == Success(Initially(Bare(q)))
  {
    hide ReplayPostings, SumOf;
    assert OneMove(stored.postings);
    var s := Initially(Bare(p));
    var paid := s.(cash := s.cash + SumOf(stored.postings, AmountIn(CashAccount)));
    OneMoveReplays(paid, stored.postings);
    var b, c := Bare(p).positions, Bare(q).positions;
    assert c == if key in q.positions then b[key := At(Bare(q), key)] else b - {key} by {
      assert forall k :: k != key ==> (k in q.positions <==> k in q.positions - {key});
      assert forall k :: k != key ==> (k in p.positions <==> k in p.positions - {key});
      forall k | k in q.positions && k != key ensures q.positions[k] == p.positions[k] {
        assert (q.positions - {key})[k] == (p.positions - {key})[k];
      }
    }
  }

  lemma {:induction false} ReadTail(entries: seq<LedgerEntry>)
    requires entries != []
    ensures ReadAll(StoreAll(entries)) == [ReadEntry(Store(entries[0]))] + ReadAll(StoreAll(entries[1..]))
  {
  }

  lemma {:induction false} StoredRest(p: ContractPortfolio, events: seq<Event>, all: seq<LedgerEntry>, i: nat)
    requires ValidPortfolio(p) && Run(p, events).Success? && i <= |all| && DistinctKeys(all)
    requires all[i..] == ReadAll(StoreAll(Run(p, events).value.1))
    ensures ReplayFrom(Initially(Bare(p)), p.agent, all, i) == Success(Initially(Bare(Run(p, events).value.0)))
    decreases |events|
  {
    hide Step, ReplayEntry, ValidPortfolio, ValidEntry, Equity, Agrees, Bare, Store, ReadEntry, StoreAll, ReadAll;
    if events == [] {
      NothingStored();
    } else {
      var (p', entry) := Step(p, events[0]).value;
      StepIsSound(p, events[0], []);
      StoredStep(p, events[0]);
      ReadBack(entry);
      ReadTail(Run(p, events).value.1);
      assert Run(p, events).value.1[1..] == Run(p', events[1..]).value.1;
      assert all[i] == all[i..][0] == ReadEntry(Store(entry));
      assert all[i+1..] == all[i..][1..];
      StoredRest(p', events[1..], all, i + 1);
    }
  }

  lemma {:induction false} NothingStored()
    ensures ReadAll(StoreAll([])) == []
  {
  }

  /** For every history the stored ledger rebuilds exactly cash, version, units and
      basis; entry fees and realized profit it does not carry at all. */
  lemma {:induction false} StoredReplayIsBare(p: ContractPortfolio, events: seq<Event>)
    requires ValidPortfolio(p) && Run(p, events).Success? && DistinctKeys(Run(p, events).value.1)
    ensures var (q, entries) := Run(p, events).value;
            ReplayOf(Bare(p), ReadAll(StoreAll(entries))) == Success(Bare(q))
  {
    hide Run, ReplayFrom, ValidEntry, Equity, Agrees;
    var (q, entries) := Run(p, events).value;
    var all := ReadAll(StoreAll(entries));
    RunIsSound(p, events, []);
    assert forall j :: 0 <= j < |entries| ==> all[j].key == entries[j].key;
    assert all[0..] == all;
    StoredRest(p, events, all, 0);
  }

  /** An order that leaves nothing behind the stored ledger would have to carry: a
      BUY without fees, or a SELL whose net proceeds are just the basis released. */
  ghost predicate Quiet(p: ContractPortfolio, e: Event)
    requires Step(p, e).Success?
  {
    e.Filled? &&
    match e.trade.action
    case Buy => FeeTotal(e.fills) == 0
    case Sell => NetTotal(e.fills) == At(p, e.trade.key).basis - At(Step(p, e).value.0, e.trade.key).basis
  }

  lemma {:induction false} QuietExactlyWhen(p: ContractPortfolio, e: Event)
    requires ValidPortfolio(p) && p == Bare(p) && Step(p, e).Success?
    ensures Step(p, e).value.0 == Bare(Step(p, e).value.0) <==> Quiet(p, e)
  {
    hide ApplyFills, SettlePosition, Equity, ValidEntry, SumOf, OpenBasis, OpenFees;
    var q, key := Step(p, e).value.0, Touched(e);
    forall k | k != key ensures At(q, k) == At(p, k) {
      StepFrame(p, e, k);
    }
    assert forall k :: k in p.positions ==> p.positions[k] == Bare(p).positions[k];
    match e {
      case Filled(t, fills, operation) =>
        OrderIsSound(p, t, fills, operation);
        OrderEffect(p, t, fills, operation);
        RealizedFollows(p, e);
        BareExactlyWhen(p, q, key);
      case Settled(_, result, settledAt) =>
        SettlesExactlyWhen(p, key, result, settledAt);
        SettlementIsSound(p, key, result, settledAt);
        assert q.realizedPnl != 0;
    }
  }

  /** After an order the position's own profit moves with the portfolio's. */
  lemma {:induction false} RealizedFollows(p: ContractPortfolio, e: Event)
    requires ValidPortfolio(p) && e.Filled? && Step(p, e).Success?
    ensures var q, key := Step(p, e).value.0, e.trade.key;
            && (key in q.positions <==> At(q, key).units != 0)
            && (At(q, key).units != 0 ==> At(q, key).realized - At(p, key).realized == q.realizedPnl - p.realizedPnl)
            && q.cash - p.cash == NetTotal(e.fills)
            && (e.trade.action.Buy? ==> At(q, key).units > 0)
  {
    hide Equity, ValidEntry, SumOf;
    OrderDescribes(p, e);
    OrderIsSound(p, e.trade, e.fills, e.operation);
    if e.trade.action.Buy? {
      OrderEffect(p, e.trade, e.fills, e.operation);
      assert e.fills != [] && UnitTotal(e.fills) > 0;
    }
  }

  lemma {:induction false} BareExactlyWhen(p: ContractPortfolio, q: ContractPortfolio, key: PositionKey)
    requires p == Bare(p) && q.positions - {key} == p.positions - {key}
    ensures q == Bare(q) <==>
              && q.realizedPnl == 0
              && (key in q.positions ==> q.positions[key].fees == q.positions[key].realized == 0)
  {
    assert forall k :: k in p.positions ==> p.positions[k] == Bare(p).positions[k];
    forall k | k in q.positions && k != key ensures q.positions[k].fees == q.positions[k].realized == 0 {
      assert k in q.positions - {key} && (q.positions - {key})[k] == (p.positions - {key})[k];
    }
    if q.realizedPnl == 0 && (key in q.positions ==> q.positions[key].fees == q.positions[key].realized == 0) {
      assert forall k :: k in q.positions ==> q.positions[k] == Bare(q).positions[k];
      assert q.positions == Bare(q).positions;
    }
    if q == Bare(q) && key in q.positions {
      assert q.positions[key] == Bare(q).positions[key];
    }
  }

  /** After n events the stored ledger replays to the portfolio. */
  ghost predicate Faithful(p: ContractPortfolio, events: seq<Event>, n: nat)
    requires n <= |events|
  {
    var run := Run(p, events[..n]);
    run.Success? && ReplayOf(p, ReadAll(StoreAll(run.value.1))) == Success(run.value.0)
  }

  /** Event number n is quiet where it happens. */
  ghost predicate QuietAt(p: ContractPortfolio, events: seq<Event>, n: nat)
    requires n < |events|
  {
    var run := Run(p, events[..n]);
    run.Success? && Step(run.value.0, events[n]).Success? && Quiet(run.value.0, events[n])
  }

  /** The stored ledger replays to the whole portfolio at every point of a history if
      and only if every event of it is quiet: no fees paid on a BUY, nothing but
      the basis received on a SELL, and no settlement at all. */
  lemma {:induction false} FaithfulExactlyWhen(p: ContractPortfolio, events: seq<Event>)
    requires ValidPortfolio(p) && p == Bare(p) && Run(p, events).Success? && DistinctKeys(Run(p, events).value.1)
    ensures (forall n: nat :: n <= |events| ==> Faithful(p, events, n))
       <==> (forall n: nat :: n < |events| ==> QuietAt(p, events, n))
  {
    FaithfulUpTo(p, events, |events|);
  }

  lemma {:induction false} FaithfulUpTo(p: ContractPortfolio, events: seq<Event>, m: nat)
    requires ValidPortfolio(p) && p == Bare(p) && Run(p, events).Success? && DistinctKeys(Run(p, events).value.1)
    requires m <= |events|
    ensures (forall n: nat :: n <= m ==> Faithful(p, events, n)) <==> (forall n: nat :: n < m ==> QuietAt(p, events, n))
  {
    hide Faithful, QuietAt, Run, Bare, DistinctKeys;
    if m == 0 {
      FaithfulIsBare(p, events, 0);
      NothingYet(p, events);
    } else {
      FaithfulUpTo(p, events, m - 1);
      FaithfulIsBare(p, events, m - 1);
      FaithfulIsBare(p, events, m);
      OneEventFurther(p, events, m - 1);
    }
  }

  ghost predicate BareAfter(p: ContractPortfolio, events: seq<Event>, n: nat)
    requires n <= |events|
  {
    var run := Run(p, events[..n]);
    run.Success? && run.value.0 == Bare(run.value.0)
  }

  lemma {:induction false} NothingYet(p: ContractPortfolio, events: seq<Event>)
    requires p == Bare(p)
    ensures BareAfter(p, events, 0)
  {
    assert events[..0] == [];
  }

  lemma {:induction false} FaithfulIsBare(p: ContractPortfolio, events: seq<Event>, n: nat)
    requires ValidPortfolio(p) && p == Bare(p) && Run(p, events).Success? && DistinctKeys(Run(p, events).value.1)
    requires n <= |events|
    ensures Faithful(p, events, n) <==> BareAfter(p, events, n)
  {
    hide Run, Bare, ReplayOf, StoreAll, ReadAll;
    RunPrefix(p, events, n);
    var (mid, entries) := Run(p, events[..n]).value;
    assert forall i :: 0 <= i < |entries| ==> Run(p, events).value.1[i] == entries[i];
    StoredReplayIsBare(p, events[..n]);
  }

  lemma {:induction false} OneEventFurther(p: ContractPortfolio, events: seq<Event>, n: nat)
    requires ValidPortfolio(p) && p == Bare(p) && Run(p, events).Success? && n < |events|
    ensures BareAfter(p, events, n) ==> (BareAfter(p, events, n + 1) <==> QuietAt(p, events, n))
  {
    hide Bare, Quiet, Equity, Agrees, ValidEntry, ValidPortfolio, Step;
    RunPrefix(p, events, n);
    var (mid, entries) := Run(p, events[..n]).value;
    RunIsSound(p, events[..n], []);
    assert events[n..][0] == events[n] && events[..n+1] == events[..n] + [events[n]];
    RunAppend(p, events[..n], events[n]);
    if BareAfter(p, events, n) {
      QuietExactlyWhen(mid, events[n]);
    }
  }

  // ----- which events can be stored at all -----

  ghost predicate NoFees(p: ContractPortfolio) {
    forall k :: At(p, k).fees == 0
  }

  /** An event paid for without any fee, that moves the cost of its position. */
  ghost predicate FeeFree(p: ContractPortfolio, e: Event)
    requires Step(p, e).Success?
  {
    match e
    case Filled(t, fills, _) =>
      && FeeTotal(fills) == 0
      && (t.action.Sell? ==> ShareLeft(At(p, t.key).units, At(p, t.key).basis, fills) < At(p, t.key).basis)
    case Settled(key, _, _) => At(p, key).basis > 0
  }

  /** Out of an account without entry fees, an entry can be stored if and only if its
      event is free of fees and moves basis. */
  lemma {:induction false} StorableExactlyWhen(p: ContractPortfolio, e: Event)
    requires ValidPortfolio(p) && NoFees(p) && Step(p, e).Success?
    requires e.Filled? ==> Priced(e.trade, e.fills)
    ensures Storable(Step(p, e).value.1) <==> FeeFree(p, e)
  {
    hide ApplyFills, Equity, OpenBasis, OpenFees, SumOf;
    match e {
      case Filled(t, fills, operation) => OrderStorableExactlyWhen(p, t, fills, operation);
      case Settled(key, result, settledAt) => SettlementStorableExactlyWhen(p, key, result, settledAt);
    }
  }

  lemma {:induction false} OrderStorableExactlyWhen(p: ContractPortfolio, t: Trade, fills: seq<EconomicFill>,
                                                    operation: int)
    requires ValidPortfolio(p) && NoFees(p) && Priced(t, fills) && ApplyOrder(p, t, fills, operation).Success?
    ensures Storable(ApplyOrder(p, t, fills, operation).value.1) <==>
              && FeeTotal(fills) == 0
              && (t.action.Sell? ==> ShareLeft(At(p, t.key).units, At(p, t.key).basis, fills) < At(p, t.key).basis)
  {
    hide ApplyFills, Equity, OpenBasis, OpenFees, SumOf, ShareLeft;
    var w := ApplyFills(Start(p), t, fills).value;
    assert p.positions - {t.key} == p.positions - {t.key};
    FillsTrack(p, t, Start(p), fills);
    FillsEffect(Start(p), t, fills);
    match t.action {
      case Buy => BuyFillsAccepted(Start(p), t, fills);
      case Sell =>
        SellFillsAccepted(Start(p), t, fills);
        FeesOnlyFall(At(p, t.key).units, At(p, t.key).basis, fills);
    }
    var entry := ApplyOrder(p, t, fills, operation).value.1;
    assert entry.postings == OrderPostings(w, t.key);
    PostingsAdmitted(w, t.key);
  }

  lemma {:induction false} PostingsAdmitted(w: Working, key: PositionKey)
    requires forall i :: 0 <= i < |OrderPostings(w, key)| ==> ValidPosting(OrderPostings(w, key)[i])
    ensures (forall i :: 0 <= i < |OrderPostings(w, key)| ==> Admitted(StorePosting(OrderPostings(w, key)[i])))
       <==> w.feeExpense == 0 && w.costDelta != 0
  {
    var ps := OrderPostings(w, key);
    assert ValidPosting(ps[0]);
    assert StorePosting(ps[1]).amount == w.costDelta;
    if w.feeExpense != 0 {
      assert StorePosting(ps[2]).account == Account.Fees;
    }
  }

  lemma {:induction false} SettlementStorableExactlyWhen(p: ContractPortfolio, key: PositionKey, result: OutcomeSide,
                                                         settledAt: int)
    requires ValidPortfolio(p) && NoFees(p) && key in p.positions && SettlePosition(p, key, result, settledAt).Success?
    ensures Storable(SettlePosition(p, key, result, settledAt).value.1.entry) <==> At(p, key).basis > 0
  {
    SettlesExactlyWhen(p, key, result, settledAt);
    var q, won := p.positions[key], key.outcome == result;
    assert At(p, key).fees == 0;
    var ps := SettlementPostings(q, key, won);
    assert ps == [CashPaid(q, won), CostClosed(q, key), ProfitBooked(q, key, won)];
    assert StorePosting(ps[1]).amount == 0 - q.basis;
  }

  /** Storable events never put entry fees into an account. */
  lemma {:induction false} StorableKeepsNoFees(p: ContractPortfolio, e: Event)
    requires ValidPortfolio(p) && NoFees(p) && Step(p, e).Success? && Storable(Step(p, e).value.1)
    ensures NoFees(Step(p, e).value.0)
    ensures e.Filled? ==> FeeTotal(e.fills) == 0
  {
    hide ApplyFills, Equity, OpenBasis, OpenFees, SumOf, SettlePosition;
    var q := Step(p, e).value.0;
    forall k ensures At(q, k).fees == 0 {
      if k != Touched(e) {
        StepFrame(p, e, k);
        assert At(p, k).fees == 0;
      } else {
        TouchedFees(p, e);
      }
    }
    TouchedFees(p, e);
  }

  lemma {:induction false} TouchedFees(p: ContractPortfolio, e: Event)
    requires ValidPortfolio(p) && NoFees(p) && Step(p, e).Success? && Storable(Step(p, e).value.1)
    ensures At(Step(p, e).value.0, Touched(e)).fees == 0
    ensures e.Filled? ==> FeeTotal(e.fills) == 0
  {
    if e.Filled? {
      hide ApplyFills, Equity, OpenBasis, OpenFees, SumOf;
      var t := e.trade;
      var w := ApplyFills(Start(p), t, e.fills).value;
      assert p.positions - {t.key} == p.positions - {t.key};
      FillsTrack(p, t, Start(p), e.fills);
      FillsEffect(Start(p), t, e.fills);
      assert Step(p, e).value.1.postings == OrderPostings(w, t.key);
      PostingsAdmitted(w, t.key);
      assert At(p, t.key).fees == 0;
    }
  }

  /** A history of storable entries never pays a fee. */
  lemma {:induction false} StorableRunHasNoFees(p: ContractPortfolio, events: seq<Event>)
    requires ValidPortfolio(p) && NoFees(p) && Run(p, events).Success?
    requires forall i :: 0 <= i < |Run(p, events).value.1| ==> Storable(Run(p, events).value.1[i])
    ensures NoFees(Run(p, events).value.0)
    ensures forall i :: 0 <= i < |events| && events[i].Filled? ==> FeeTotal(events[i].fills) == 0
    decreases |events|
  {
    hide Step, Storable, NoFees, FeeTotal, ValidPortfolio, ValidEntry, Equity, Agrees;
    if events != [] {
      var (q, entry) := Step(p, events[0]).value;
      var entries := Run(p, events).value.1;
      StepIsSound(p, events[0], []);
      assert entries[0] == entry && entries[1..] == Run(q, events[1..]).value.1;
      StorableKeepsNoFees(p, events[0]);
      assert forall i :: 1 <= i < |entries| ==> entries[i] == entries[1..][i-1];
      StorableRunHasNoFees(q, events[1..]);
      assert forall i :: 1 <= i < |events| ==> events[i] == events[1..][i-1];
    }
  }

  // ----- sums over the stored ledger -----

  /** Money of the stored ledger by account, and basis by position, are what the
      entries said before they were stored. */
  lemma {:induction false} StoredTally(entries: seq<LedgerEntry>, agent: AgentId, m: Measure)
    requires m.AmountIn? || (m.AmountAt? && m.account == PositionCost)
    requires forall i, j :: 0 <= i < |entries| && 0 <= j < |entries[i].postings| ==>
               && ValidPosting(entries[i].postings[j])
               && (entries[i].postings[j].account == PositionCost ==> entries[i].postings[j].unitsDelta.Some?)
    ensures Tally(ReadAll(StoreAll(entries)), agent, m) == Tally(entries, agent, m)
  {
    hide SumOf, ValidPosting, StorePosting, ReadPosting;
    if entries != [] {
      var n := |entries| - 1;
      var front, all := entries[..n], ReadAll(StoreAll(entries));
      StoredTally(front, agent, m);
      assert all[..n] == ReadAll(StoreAll(front));
      assert all[n] == ReadEntry(Store(entries[n]));
      ReadBack(entries[n]);
      StrippedSums(all[n].postings, entries[n].postings, m);
    }
  }

  lemma {:induction false} RunCostsMove(p: ContractPortfolio, events: seq<Event>)
    requires ValidPortfolio(p) && Run(p, events).Success?
    ensures var entries := Run(p, events).value.1;
            forall i, j :: 0 <= i < |entries| && 0 <= j < |entries[i].postings| ==>
              && ValidPosting(entries[i].postings[j])
              && (entries[i].postings[j].account == PositionCost ==> entries[i].postings[j].unitsDelta.Some?)
    decreases |events|
  {
    hide Step, ValidPosting, ValidEntry, Equity, Agrees, ValidPortfolio;
    if events != [] {
      var (q, entry) := Step(p, events[0]).value;
      StepIsSound(p, events[0], []);
      CostPostingsMove(p, events[0]);
      RunCostsMove(q, events[1..]);
      var entries := Run(p, events).value.1;
      assert entries[0] == entry && entries[1..] == Run(q, events[1..]).value.1;
      assert forall i :: 1 <= i < |entries| ==> entries[i] == entries[1..][i-1];
    }
  }
}
