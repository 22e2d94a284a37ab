/** Histories of accepted orders and completed settlements: what they conserve,
    what the ledger says about them, and how far partial sells drift
    (src/vtrade/portfolio.py, src/vtrade/broker.py). */
module Histories {
  import opened Domain
  import opened Ledger
  import opened Portfolio
  import opened Settlement

  // ----- histories -----

  datatype Event = Filled(trade: Trade, fills: seq<EconomicFill>, operation: int)
                 | Settled(key: PositionKey, result: OutcomeSide, settledAt: int)

  /** One event, or failure where the accounting refuses it. */
  function Step(p: ContractPortfolio, e: Event): Result<(ContractPortfolio, LedgerEntry), ()> {
    match e
    case Filled(trade, fills, operation) =>
      var r := ApplyOrder(p, trade, fills, operation);
      if r.Failure? then Failure(()) else Success(r.value)
    case Settled(key, result, settledAt) =>
      if key !in p.positions then Failure(())
      else
        var r := SettlePosition(p, key, result, settledAt);
        if r.Failure? then Failure(()) else Success((r.value.0, r.value.1.entry))
  }

  /** A history in which every event was accepted, and the entries it wrote. */
  function Run(p: ContractPortfolio, events: seq<Event>): Result<(ContractPortfolio, seq<LedgerEntry>), ()>
    decreases |events|
  {
    if events == [] then Success((p, []))
    else
      var first := Step(p, events[0]);
      if first.Failure? then Failure(())
      else
        var rest := Run(first.value.0, events[1..]);
        if rest.Failure? then rest else Success((rest.value.0, [first.value.1] + rest.value.1))
  }

  ghost function Touched(e: Event): PositionKey {
    if e.Filled? then e.trade.key else e.key
  }

  /** The ledger's accounts of one agent say what the portfolio says, the cost
      account also market by market and outcome by outcome. */
  ghost predicate Agrees(entries: seq<LedgerEntry>, p: ContractPortfolio) {
    && (forall k :: Tally(entries, p.agent, AmountAt(PositionCost, k)) == At(p, k).basis)
    && Balance(entries, p.agent, CashAccount) == p.cash
    && Balance(entries, p.agent, PositionCost) == OpenBasis(p)
    && Balance(entries, p.agent, Fees) + Balance(entries, p.agent, RealizedPnl) == OpenFees(p) - p.realizedPnl
  }

  /** One accepted event conserves equity and keeps the ledger in agreement. */
  lemma {:induction false} StepIsSound(p: ContractPortfolio, e: Event, before: seq<LedgerEntry>)
    requires ValidPortfolio(p) && Step(p, e).Success?
    ensures var (q, entry) := Step(p, e).value;
            && ValidPortfolio(q) && q.agent == p.agent && q.version == p.version + 1 && q.blocked == p.blocked
            && Equity(q) == Equity(p)
            && ValidEntry(entry) && entry.agent == p.agent
            && (Agrees(before, p) ==> Agrees(before + [entry], q))
  {
    hide ApplyOrder, SettlePosition, Equity, ValidEntry, OpenBasis, OpenFees;
    match e {
      case Filled(trade, fills, operation) => OrderIsSound(p, trade, fills, operation);
      case Settled(key, result, settledAt) => SettlementIsSound(p, key, result, settledAt);
    }
    var (q, entry) := Step(p, e).value;
    forall m: Measure {
      TallyAppend(before, entry, p.agent, m);
    }
    forall k ensures SumOf(entry.postings, AmountAt(PositionCost, k)) == At(q, k).basis - At(p, k).basis {
      StepPostsBasis(p, e, k);
    }
  }

  /** An event leaves every position but its own alone. */
  lemma {:induction false} StepFrame(p: ContractPortfolio, e: Event, k: PositionKey)
    requires ValidPortfolio(p) && Step(p, e).Success? && k != Touched(e)
    ensures At(Step(p, e).value.0, k) == At(p, k)
  {
    hide ApplyOrder, SettlePosition, Equity, ValidEntry, OpenBasis, OpenFees, SumOf;
    var q := Step(p, e).value.0;
    match e {
      case Filled(trade, fills, operation) => OrderIsSound(p, trade, fills, operation);
      case Settled(key, result, settledAt) => SettlementIsSound(p, key, result, settledAt);
    }
    var key := Touched(e);
    assert q.positions - {key} == p.positions - {key};
    assert k in q.positions <==> k in q.positions - {key};
    assert k in p.positions <==> k in p.positions - {key};
    if k in p.positions {
      assert (q.positions - {key})[k] == (p.positions - {key})[k];
    }
  }

  /** The cost postings of an entry move each position's basis by what they say. */
  lemma {:induction false} StepPostsBasis(p: ContractPortfolio, e: Event, k: PositionKey)
    requires ValidPortfolio(p) && Step(p, e).Success?
    ensures var (q, entry) := Step(p, e).value;
            SumOf(entry.postings, AmountAt(PositionCost, k)) == At(q, k).basis - At(p, k).basis
  {
    if k != Touched(e) {
      StepFrame(p, e, k);
    }
    match e {
      case Filled(t, fills, operation) =>
        hide ApplyFills;
        var w := ApplyFills(Start(p), t, fills).value;
        assert p.positions - {t.key} == p.positions - {t.key};
        FillsTrack(p, t, Start(p), fills);
        OrderPostingSums(w, t.key, AmountAt(PositionCost, k));
      case Settled(key, result, settledAt) =>
        SettlementPostingSums(p.positions[key], key, key.outcome == result, AmountAt(PositionCost, k));
    }
  }

  /** Over every history: cash plus open basis plus open entry fees minus realized
      profit keeps its value, every entry balances, each event moves the version
      by one, and a ledger that agreed with the portfolio still does. */
  lemma {:induction false} RunIsSound(p: ContractPortfolio, events: seq<Event>, before: seq<LedgerEntry>)
    requires ValidPortfolio(p) && Run(p, events).Success?
    ensures var (q, entries) := Run(p, events).value;
            && ValidPortfolio(q) && q.agent == p.agent && q.version == p.version + |events| && q.blocked == p.blocked
            && Equity(q) == Equity(p)
            && |entries| == |events|
            && (forall i :: 0 <= i < |entries| ==> ValidEntry(entries[i]) && entries[i].agent == p.agent)
            && (Agrees(before, p) ==> Agrees(before + entries, q))
    decreases |events|
  {
    hide Step, Equity, Agrees, ValidEntry, ValidPortfolio;
    if events == [] {
      assert before + [] == before;
    } else {
      var (q, entry) := Step(p, events[0]).value;
      StepIsSound(p, events[0], before);
      RunIsSound(q, events[1..], before + [entry]);
      assert before + [entry] + Run(q, events[1..]).value.1 == before + Run(p, events).value.1;
    }
  }

  function OpeningEntry(agent: AgentId, cash: pos): LedgerEntry {
    LedgerEntry(agent, Opening(agent),
      [Posting(CashAccount, cash, None, None, None), Posting(OwnerEquity, 0 - cash, None, None, None)])
  }

  /** From an empty portfolio and its opening entry the ledger balances always
      agree with the portfolio. */
  lemma {:induction false} LedgerAlwaysAgrees(agent: AgentId, cash: pos, blocked: bool, events: seq<Event>)
    requires Run(ContractPortfolio(agent, cash, map[], 0, blocked, 0), events).Success?
    ensures var (q, entries) := Run(ContractPortfolio(agent, cash, map[], 0, blocked, 0), events).value;
            && ValidEntry(OpeningEntry(agent, cash))
            && Agrees([OpeningEntry(agent, cash)] + entries, q)
            && Equity(q) == cash
  {
    var p := ContractPortfolio(agent, cash, map[], 0, blocked, 0);
    var opening := OpeningEntry(agent, cash);
    var paidIn, owed := opening.postings[0], opening.postings[1];
    assert opening.postings == [paidIn] + [owed];
    forall m: Measure
      ensures SumOf(opening.postings, m) == Measured(paidIn, m) + Measured(owed, m)
    {
      SumOfConcat([paidIn], [owed], m);
    }
    forall m: Measure
      ensures Tally([opening], agent, m) == SumOf(opening.postings, m)
    {
      TallyAppend([], opening, agent, m);
      assert [] + [opening] == [opening];
    }
    assert OpenBasis(p) == OpenFees(p) == 0;
    RunIsSound(p, events, [opening]);
  }

  /** The key of an event's entry. */
  function KeyOf(agent: AgentId, e: Event): EntryKey {
    if e.Filled? then OrderAccounting(e.operation) else SettlementOf(agent, e.key.market, e.settledAt)
  }

  lemma {:induction false} EntryNamesEvent(p: ContractPortfolio, e: Event)
    requires Step(p, e).Success?
    ensures Step(p, e).value.1.key == KeyOf(p.agent, e)
  {
    hide ApplyFills;
  }

  lemma {:induction false} EntriesNameEvents(p: ContractPortfolio, events: seq<Event>)
    requires ValidPortfolio(p) && Run(p, events).Success?
    ensures var entries := Run(p, events).value.1;
            |entries| == |events| && forall i :: 0 <= i < |events| ==> entries[i].key == KeyOf(p.agent, events[i])
    decreases |events|
  {
    hide Step, Equity, Agrees, ValidEntry, ValidPortfolio;
    if events != [] {
      var (q, entry) := Step(p, events[0]).value;
      StepIsSound(p, events[0], []);
      EntryNamesEvent(p, events[0]);
      EntriesNameEvents(q, events[1..]);
      assert forall i :: 1 <= i < |events| ==> events[i] == events[1..][i-1];
    }
  }

  /** One event more at the end of a history. */
  lemma {:induction false} RunAppend(p: ContractPortfolio, events: seq<Event>, e: Event)
    requires Run(p, events).Success? && Step(Run(p, events).value.0, e).Success?
    ensures var (q, entries) := Run(p, events).value;
            var (r, entry) := Step(q, e).value;
            Run(p, events + [e]) == Success((r, entries + [entry]))
    decreases |events|
  {
    hide Step;
    if events == [] {
      assert [e][1..] == [];
      var (r, entry) := Step(p, e).value;
      assert Run(r, []) == Success((r, []));
      assert [entry] + [] == [entry] == [] + [entry];
      assert [] + [e] == [e];
    } else {
      var (mid, first) := Step(p, events[0]).value;
      RunAppend(mid, events[1..], e);
      assert (events + [e])[0] == events[0] && (events + [e])[1..] == events[1..] + [e];
      var rest := Run(mid, events[1..]).value.1;
      var entry := Step(Run(mid, events[1..]).value.0, e).value.1;
      assert [first] + (rest + [entry]) == [first] + rest + [entry];
    }
  }

  /** A history up to an event, and the rest of it. */
  lemma {:induction false} RunPrefix(p: ContractPortfolio, events: seq<Event>, n: nat)
    requires Run(p, events).Success? && n <= |events|
    ensures Run(p, events[..n]).Success?
    ensures var (mid, entries) := Run(p, events[..n]).value;
            && Run(mid, events[n..]).Success?
            && Run(p, events).value == (Run(mid, events[n..]).value.0, entries + Run(mid, events[n..]).value.1)
    decreases n
  {
    hide Step;
    if n == 0 {
      assert events[..0] == [] && events[0..] == events;
      assert [] + Run(p, events).value.1 == Run(p, events).value.1;
    } else {
      var (q, entry) := Step(p, events[0]).value;
      RunPrefix(q, events[1..], n - 1);
      assert events[..n][0] == events[0] && events[..n][1..] == events[1..][..n-1];
      assert events[1..][n-1..] == events[n..];
      var (mid, entries) := Run(q, events[1..][..n-1]).value;
      assert [entry] + (entries + Run(mid, events[n..]).value.1) == [entry] + entries + Run(mid, events[n..]).value.1;
    }
  }

  // ----- partial sells, spread over a history -----

  /** The event leaves this position alone, or is a SELL of it. */
  predicate OnlySells(e: Event, key: PositionKey) {
    if e.Filled? then e.trade.key == key ==> e.trade.action.Sell? else e.key != key
  }

  /** How many fills of a history sell from this position. */
  ghost function SellFills(events: seq<Event>, key: PositionKey): nat {
    if events == [] then 0
    else (if events[0].Filled? && events[0].trade.key == key then |events[0].fills| else 0)
         + SellFills(events[1..], key)
  }

  /** Over any history that only sells from a position, whatever happens to other
      positions in between: after k sell fills its basis is within k / 2
      micro-dollars of the proportional share, basis and entry fees only fall,
      and both are gone once the units are. */
  lemma {:induction false} SalesDrift(p: ContractPortfolio, events: seq<Event>, key: PositionKey,
                                      units0: nat, basis0: nat, steps: nat)
    requires ValidPortfolio(p) && Run(p, events).Success?
    requires forall i :: 0 <= i < |events| ==> OnlySells(events[i], key)
    requires Within(units0, basis0, At(p, key), steps)
    ensures var was, now := At(p, key), At(Run(p, events).value.0, key);
            && Within(units0, basis0, now, steps + SellFills(events, key))
            && now.basis <= was.basis && now.fees <= was.fees
            && (now.units == 0 ==> now.basis == 0 && now.fees == 0)
    decreases |events|
  {
    hide Step, Within;
    if events == [] {
      assert key in p.positions ==> ValidPosition(p.positions[key]);
    } else {
      var q := Step(p, events[0]).value.0;
      StepIsSound(p, events[0], []);
      var sold := SaleDrift(p, events[0], key, units0, basis0, steps);
      SalesDrift(q, events[1..], key, units0, basis0, steps + sold);
    }
  }

  lemma {:induction false} SaleDrift(p: ContractPortfolio, e: Event, key: PositionKey,
                                     units0: nat, basis0: nat, steps: nat)
    returns (sold: nat)
    requires ValidPortfolio(p) && Step(p, e).Success? && OnlySells(e, key)
    requires Within(units0, basis0, At(p, key), steps)
    ensures sold == if e.Filled? && e.trade.key == key then |e.fills| else 0
    ensures var was, now := At(p, key), At(Step(p, e).value.0, key);
            && Within(units0, basis0, now, steps + sold) && now.basis <= was.basis && now.fees <= was.fees
  {
    hide Within, ApplyFills, SettlePosition;
    if Touched(e) != key {
      StepFrame(p, e, key);
      sold := 0;
    } else {
      EnteredPortfolio(p, e.trade, e.fills, e.operation);
      SellsDrift(Start(p), e.trade, e.fills, units0, basis0, steps);
      sold := |e.fills|;
    }
  }
}
