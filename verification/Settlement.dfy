/** Binary settlement of finalized markets, idempotent per agent and market
    (src/vtrade/broker.py). */
module Settlement {
  import opened Domain
  import opened Ledger
  import opened Portfolio
  import opened Sums

  /** One unit is a hundredth of a contract that pays one dollar. */
  const PAYOUT_PER_UNIT := 10_000

  datatype SettlementError = PositionMismatch | NotFinal | NewerThanCutoff | ConflictingEvidence | RefusedPosting
                           | RefusedRecord | MarketMismatch

  datatype SettlementRecord = SettlementRecord(
    key: PositionKey, settledAt: int, units: nat, payout: nat, feesDeducted: nat, realized: int, entry: LedgerEntry)

  // ----- the accounting of one settlement -----

  function Payout(p: Position, won: bool): nat {
    if won then p.units * PAYOUT_PER_UNIT else 0
  }

  function CashPaid(p: Position, won: bool): Posting {
    Posting(CashAccount, Payout(p, won), None, None, None)
  }

  function CostClosed(p: Position, key: PositionKey): Posting {
    Posting(PositionCost, 0 - p.basis, Some(key), Some(0 - p.units), None)
  }

  function FeesClosed(p: Position, key: PositionKey): Posting {
    Posting(Fees, 0 - p.fees, Some(key), None, Some(0 - p.fees))
  }

  function ProfitBooked(p: Position, key: PositionKey, won: bool): Posting {
    Posting(RealizedPnl, p.basis + p.fees - Payout(p, won), Some(key), None, None)
  }

  function SettlementPostings(p: Position, key: PositionKey, won: bool): seq<Posting> {
    [CashPaid(p, won), CostClosed(p, key)]
    + (if p.fees != 0 then [FeesClosed(p, key)] else [])
    + [ProfitBooked(p, key, won)]
  }

  /** Pay a position out and close it, or raise where a constructor would. */
  function SettlePosition(p: ContractPortfolio, key: PositionKey, result: OutcomeSide, settledAt: int)
    : Result<(ContractPortfolio, SettlementRecord), SettlementError>
    requires key in p.positions
  {
    var position := p.positions[key];
    var payout := Payout(position, key.outcome == result);
    var realized := payout - position.basis - position.fees;
    var postings := SettlementPostings(position, key, key.outcome == result);
    var entry := LedgerEntry(p.agent, SettlementOf(p.agent, key.market, settledAt), postings);
    if !ValidEntry(entry) then Failure(RefusedPosting)
    else if position.units == 0 then Failure(RefusedRecord)
    else Success((
      p.(cash := p.cash + payout, positions := p.positions - {key}, version := p.version + 1,
         realizedPnl := p.realizedPnl + realized),
      SettlementRecord(key, settledAt, position.units, payout, position.fees, realized, entry)))
  }

  lemma {:induction false} SettlementPostingSums(p: Position, key: PositionKey, won: bool, m: Measure)
    ensures SumOf(SettlementPostings(p, key, won), m)
         == Measured(CashPaid(p, won), m) + Measured(CostClosed(p, key), m)
          + (if p.fees != 0 then Measured(FeesClosed(p, key), m) else 0) + Measured(ProfitBooked(p, key, won), m)
  {
    var head := [CashPaid(p, won), CostClosed(p, key)];
    var fees := if p.fees != 0 then [FeesClosed(p, key)] else [];
    SumOfConcat(head + fees, [ProfitBooked(p, key, won)], m);
    SumOfConcat(head, fees, m);
    assert head[1..] == [head[1]];
  }

  /** A settlement completes exactly for a non-empty winning position whose
      payout is not what it cost: a losing or a break-even one raises, because a
      posting of zero money is refused, and that is its only error. */
  lemma {:induction false} SettlesExactlyWhen(p: ContractPortfolio, key: PositionKey, result: OutcomeSide,
                                              settledAt: int)
    requires key in p.positions
    ensures var q := p.positions[key];
            SettlePosition(p, key, result, settledAt).Success?
            <==> key.outcome == result && q.units > 0 && q.units * PAYOUT_PER_UNIT != q.basis + q.fees
    ensures var r := SettlePosition(p, key, result, settledAt); r.Failure? ==> r.error == RefusedPosting
  {
    var q, won := p.positions[key], key.outcome == result;
    var postings := SettlementPostings(q, key, won);
    SettlementPostingSums(q, key, won, Amount);
    assert postings[0] == CashPaid(q, won) && postings[1] == CostClosed(q, key);
    assert postings[|postings|-1] == ProfitBooked(q, key, won);
    if q.fees != 0 {
      assert |postings| == 4 && postings[2] == FeesClosed(q, key);
    }
  }

  /** A completed settlement keeps equity, closes one position, and enters valid
      postings whose account totals are the changes of the portfolio. */
  lemma {:induction false} SettlementIsSound(p: ContractPortfolio, key: PositionKey, result: OutcomeSide,
                                             settledAt: int)
    requires ValidPortfolio(p) && key in p.positions && SettlePosition(p, key, result, settledAt).Success?
    ensures var (q, record) := SettlePosition(p, key, result, settledAt).value;
            var e := record.entry;
            && ValidPortfolio(q) && ValidEntry(e)
            && e.agent == q.agent == p.agent && e.key == SettlementOf(p.agent, key.market, settledAt)
            && q.version == p.version + 1 && q.blocked == p.blocked
            && q.positions == p.positions - {key}
            && Equity(q) == Equity(p)
            && record.units == p.positions[key].units && record.payout == record.units * PAYOUT_PER_UNIT
            && record.feesDeducted == p.positions[key].fees
            && record.payout == q.cash - p.cash && record.realized == q.realizedPnl - p.realizedPnl
            && record.realized == record.payout - p.positions[key].basis - record.feesDeducted
            && SumOf(e.postings, AmountIn(CashAccount)) == q.cash - p.cash
            && SumOf(e.postings, AmountIn(PositionCost)) == OpenBasis(q) - OpenBasis(p)
            && SumOf(e.postings, AmountIn(Fees)) + SumOf(e.postings, AmountIn(RealizedPnl))
               == OpenFees(q) - OpenFees(p) - (q.realizedPnl - p.realizedPnl)
  {
    var position, won := p.positions[key], key.outcome == result;
    SettlesExactlyWhen(p, key, result, settledAt);
    TotalRemove(p.positions, key, BasisOf);
    TotalRemove(p.positions, key, FeesOf);
    SettlementPostingSums(position, key, won, AmountIn(CashAccount));
    SettlementPostingSums(position, key, won, AmountIn(PositionCost));
    SettlementPostingSums(position, key, won, AmountIn(Fees));
    SettlementPostingSums(position, key, won, AmountIn(RealizedPnl));
  }

  // ----- the idempotent engine -----

  datatype Observation = Observation(
    market: MarketRef, terminal: bool, result: Option<OutcomeSide>, settledAt: Option<int>, observedAt: int)

  /** One settle call: the observation, the position it names and the caller's portfolio. */
  datatype Call = Call(
    observation: Observation, key: PositionKey, position: Position, portfolio: ContractPortfolio, asOf: int)

  datatype SlotKey = SlotKey(agent: AgentId, market: MarketRef, settledAt: int)

  datatype MarketKey = MarketKey(agent: AgentId, market: MarketRef)

  type Outcome = Result<(ContractPortfolio, SettlementRecord), SettlementError>

  datatype Engine = Engine(
    settlements: map<SlotKey, (ContractPortfolio, SettlementRecord)>,
    terminalByMarket: map<MarketKey, SettlementRecord>,
    conflicted: set<AgentId>)

  const NEW_ENGINE := Engine(map[], map[], {})

  /** Checks that do not look at earlier settlements. */
  function Precheck(c: Call): Option<SettlementError> {
    var o := c.observation;
    if o.market != c.key.market then Some(MarketMismatch)
    else if !o.terminal || o.result.None? || o.settledAt.None? then Some(NotFinal)
    else if o.observedAt > c.asOf || o.settledAt.value > c.asOf then Some(NewerThanCutoff)
    else if c.key !in c.portfolio.positions || c.portfolio.positions[c.key] != c.position then Some(PositionMismatch)
    else None
  }

  function SlotOf(c: Call): SlotKey
    requires Precheck(c).None?
  {
    SlotKey(c.portfolio.agent, c.key.market, c.observation.settledAt.value)
  }

  function MarketOf(c: Call): MarketKey {
    MarketKey(c.portfolio.agent, c.key.market)
  }

  function Conflict(s: Engine, c: Call): (Engine, Outcome) {
    (s.(conflicted := s.conflicted + {c.portfolio.agent}), Failure(ConflictingEvidence))
  }

  /** BinarySettlementEngine.settle as a transition. */
  function SettleStep(s: Engine, c: Call): (Engine, Outcome) {
    if Precheck(c).Some? then (s, Failure(Precheck(c).value))
    else
      var result, slot, market := c.observation.result.value, SlotOf(c), MarketOf(c);
      if market in s.terminalByMarket
         && (s.terminalByMarket[market].settledAt != slot.settledAt
             || s.terminalByMarket[market].key.outcome != result) then Conflict(s, c)
      else if slot in s.settlements then
        var record := s.settlements[slot].1;
        if record.key.outcome != result || record.units != c.position.units then Conflict(s, c)
        else (s, Success(s.settlements[slot]))
      else
        var paid := SettlePosition(c.portfolio, c.key, result, slot.settledAt);
        if paid.Failure? then (s, paid)
        else (s.(settlements := s.settlements[slot := paid.value],
                 terminalByMarket := s.terminalByMarket[market := paid.value.1]), paid)
  }

  class BinarySettlementEngine {
    var settlements: map<SlotKey, (ContractPortfolio, SettlementRecord)>
    var terminalByMarket: map<MarketKey, SettlementRecord>
    var conflictedAgents: set<AgentId>

    function State(): Engine
      reads this
    {
      Engine(settlements, terminalByMarket, conflictedAgents)
    }

    constructor ()
      ensures State() == NEW_ENGINE
    {
      settlements, terminalByMarket, conflictedAgents := map[], map[], {};
    }

    method Settle(c: Call) returns (r: Outcome)
      modifies this
      ensures (State(), r) == SettleStep(old(State()), c)
    {
      var refusal := Precheck(c);
      if refusal.Some? {
        return Failure(refusal.value);
      }
      var result, slot, market := c.observation.result.value, SlotOf(c), MarketOf(c);
      if market in terminalByMarket {
        var prior := terminalByMarket[market];
        if prior.settledAt != slot.settledAt || prior.key.outcome != result {
          conflictedAgents := conflictedAgents + {c.portfolio.agent};
          return Failure(ConflictingEvidence);
        }
      }
      if slot in settlements {
        var record := settlements[slot].1;
        if record.key.outcome != result || record.units != c.position.units {
          conflictedAgents := conflictedAgents + {c.portfolio.agent};
          return Failure(ConflictingEvidence);
        }
        return Success(settlements[slot]);
      }
      r := SettlePosition(c.portfolio, c.key, result, slot.settledAt);
      if r.Success? {
        settlements := settlements[slot := r.value];
        terminalByMarket := terminalByMarket[market := r.value.1];
      }
    }
  }

  // ----- what any sequence of calls keeps -----

  /** The two dictionaries are in one-to-one agreement: one slot per market. */
  ghost predicate OneToOne(s: Engine) {
    && (forall k :: k in s.settlements ==>
          && MarketKey(k.agent, k.market) in s.terminalByMarket
          && s.terminalByMarket[MarketKey(k.agent, k.market)] == s.settlements[k].1
          && s.settlements[k].1.settledAt == k.settledAt)
    && (forall m :: m in s.terminalByMarket ==>
          SlotKey(m.agent, m.market, s.terminalByMarket[m].settledAt) in s.settlements)
  }

  /** Later states keep every settlement and every conflict. */
  ghost predicate Extends(s: Engine, t: Engine) {
    && (forall k :: k in s.settlements ==> k in t.settlements && t.settlements[k] == s.settlements[k])
    && (forall m :: m in s.terminalByMarket ==>
          m in t.terminalByMarket && t.terminalByMarket[m] == s.terminalByMarket[m])
    && s.conflicted <= t.conflicted
  }

  /** The call pays a position out, rather than refusing or repeating. */
  ghost predicate Pays(s: Engine, c: Call) {
    SettleStep(s, c).0.settlements != s.settlements
  }

  lemma {:induction false} SettleKeeps(s: Engine, c: Call)
    requires OneToOne(s)
    ensures var t := SettleStep(s, c).0;
            && OneToOne(t) && Extends(s, t)
            && (Pays(s, c) ==> MarketOf(c) !in s.terminalByMarket && MarketOf(c) in t.terminalByMarket)
            && (SettleStep(s, c).1.Success? ==>
                  && Precheck(c).None? && SlotOf(c) in t.settlements
                  && SettleStep(s, c).1.value == t.settlements[SlotOf(c)])
  {
    if Precheck(c).None? {
      SettlesExactlyWhen(c.portfolio, c.key, c.observation.result.value, c.observation.settledAt.value);
    }
  }

  ghost function RunSettles(s: Engine, calls: seq<Call>): Engine
    decreases |calls|
  {
    if calls == [] then s else RunSettles(SettleStep(s, calls[0]).0, calls[1..])
  }

  /** How often a run pays out on one market of one agent. */
  ghost function Payouts(s: Engine, calls: seq<Call>, m: MarketKey): nat
    decreases |calls|
  {
    if calls == [] then 0
    else
      (if Pays(s, calls[0]) && MarketOf(calls[0]) == m then 1 else 0)
      + Payouts(SettleStep(s, calls[0]).0, calls[1..], m)
  }

  /** Over any sequence of calls a market pays an agent at most once, the two
      dictionaries stay in agreement, and settlements and conflicts are final. */
  lemma {:induction false} RunsPayOnce(s: Engine, calls: seq<Call>, m: MarketKey)
    requires OneToOne(s)
    ensures var t := RunSettles(s, calls);
            && OneToOne(t) && Extends(s, t)
            && Payouts(s, calls, m) <= if m in s.terminalByMarket then 0 else 1
    decreases |calls|
  {
    if calls != [] {
      SettleKeeps(s, calls[0]);
      RunsPayOnce(SettleStep(s, calls[0]).0, calls[1..], m);
    }
  }

  /** Repeating a call that succeeded returns the same pair and changes nothing,
      whatever happened in between. */
  lemma {:induction false} RepeatReturnsTheSame(s: Engine, c: Call, between: seq<Call>)
    requires OneToOne(s) && SettleStep(s, c).1.Success?
    ensures var t := RunSettles(SettleStep(s, c).0, between);
            SettleStep(t, c) == (t, SettleStep(s, c).1)
  {
    SettleKeeps(s, c);
    SettlesExactlyWhen(c.portfolio, c.key, c.observation.result.value, c.observation.settledAt.value);
    var after := SettleStep(s, c).0;
    RunsPayOnce(after, between, MarketOf(c));
    assert after.settlements[SlotOf(c)] == SettleStep(s, c).1.value;
  }

  // ----- which calls are refused, and who is conflicted -----

  /** What a call needs before earlier settlements are looked at: a final observation
      of the position's market, known at the cutoff, and the portfolio's own position. */
  ghost predicate Admissible(c: Call) {
    var o := c.observation;
    && o.market == c.key.market && o.terminal && o.result.Some? && o.settledAt.Some?
    && o.observedAt <= c.asOf && o.settledAt.value <= c.asOf
    && c.key in c.portfolio.positions && c.portfolio.positions[c.key] == c.position
  }

  /** The call's evidence contradicts what its market was settled with: another time,
      another outcome, or another number of units. */
  ghost predicate Contradicts(s: Engine, c: Call) {
    var market := MarketKey(c.portfolio.agent, c.key.market);
    && Admissible(c) && market in s.terminalByMarket
    && var settled := s.terminalByMarket[market];
       || settled.settledAt != c.observation.settledAt.value
       || settled.key.outcome != c.observation.result.value
       || settled.units != c.position.units
  }

  /** A call without admissible evidence changes nothing, and is told the first reason
      that applies. */
  lemma {:induction false} RefusedExactlyWhen(s: Engine, c: Call)
    ensures var (o, r) := (c.observation, SettleStep(s, c).1);
            && (r == Failure(MarketMismatch) <==> o.market != c.key.market)
            && (r == Failure(NotFinal) <==>
                  o.market == c.key.market && !(o.terminal && o.result.Some? && o.settledAt.Some?))
            && (r == Failure(NewerThanCutoff) <==>
                  && o.market == c.key.market && o.terminal && o.result.Some? && o.settledAt.Some?
                  && (c.asOf < o.observedAt || c.asOf < o.settledAt.value))
            && (r == Failure(PositionMismatch) <==>
                  && o.market == c.key.market && o.terminal && o.result.Some? && o.settledAt.Some?
                  && o.observedAt <= c.asOf && o.settledAt.value <= c.asOf && !Admissible(c))
            && (!Admissible(c) ==> SettleStep(s, c).0 == s && r.Failure?)
  {
    if Admissible(c) {
      SettlesExactlyWhen(c.portfolio, c.key, c.observation.result.value, c.observation.settledAt.value);
    }
  }

  /** A call raises conflicting evidence exactly when it contradicts the settlement of
      its market, and then it marks its agent and changes nothing else; no other call
      marks anybody. */
  lemma {:induction false} ConflictExactlyWhen(s: Engine, c: Call)
    requires OneToOne(s)
    ensures SettleStep(s, c).1 == Failure(ConflictingEvidence) <==> Contradicts(s, c)
    ensures SettleStep(s, c).0.conflicted
         == if Contradicts(s, c) then s.conflicted + {c.portfolio.agent} else s.conflicted
    ensures Contradicts(s, c) ==> SettleStep(s, c).0.settlements == s.settlements
                                  && SettleStep(s, c).0.terminalByMarket == s.terminalByMarket
  {
    if Admissible(c) {
      SettlesExactlyWhen(c.portfolio, c.key, c.observation.result.value, c.observation.settledAt.value);
      var market := MarketKey(c.portfolio.agent, c.key.market);
      assert MarketOf(c) == market;
      if market in s.terminalByMarket {
        var slot := SlotKey(market.agent, market.market, s.terminalByMarket[market].settledAt);
        assert slot in s.settlements && s.settlements[slot].1 == s.terminalByMarket[market];
      } else {
        assert SlotOf(c) !in s.settlements;
      }
    }
  }

  lemma {:induction false} RunSettlesLast(s: Engine, calls: seq<Call>)
    requires calls != []
    ensures var n := |calls| - 1;
            RunSettles(s, calls) == SettleStep(RunSettles(s, calls[..n]), calls[n]).0
    decreases |calls|
  {
    hide SettleStep;
    var n := |calls| - 1;
    if n > 0 {
      RunSettlesLast(SettleStep(s, calls[0]).0, calls[1..]);
      assert calls[1..][..n-1] == calls[..n][1..];
    } else {
      assert calls[1..] == [] && calls[..0] == [];
    }
  }

  /** Call number i of the run is the agent's and contradicts what is settled there. */
  ghost predicate ContradictsAt(calls: seq<Call>, i: nat, agent: AgentId)
    requires i < |calls|
  {
    calls[i].portfolio.agent == agent && Contradicts(RunSettles(NEW_ENGINE, calls[..i]), calls[i])
  }

  /** Over every run from a new engine an agent is conflicted if and only if one of its
      own calls contradicted, where it was made, the settlement of its market. */
  lemma {:induction false} ConflictedExactlyWhen(calls: seq<Call>, agent: AgentId)
    ensures agent in RunSettles(NEW_ENGINE, calls).conflicted
       <==> exists i: nat :: i < |calls| && ContradictsAt(calls, i, agent)
    decreases |calls|
  {
    hide SettleStep, Contradicts;
    if calls != [] {
      var n := |calls| - 1;
      var front := calls[..n];
      ConflictedExactlyWhen(front, agent);
      RunSettlesLast(NEW_ENGINE, calls);
      RunsPayOnce(NEW_ENGINE, front, MarketKey(agent, 0));
      ConflictExactlyWhen(RunSettles(NEW_ENGINE, front), calls[n]);
      forall i: nat | i < n ensures ContradictsAt(front, i, agent) <==> ContradictsAt(calls, i, agent) {
        assert front[..i] == calls[..i];
      }
      assert ContradictsAt(calls, n, agent)
        <==> calls[n].portfolio.agent == agent && Contradicts(RunSettles(NEW_ENGINE, front), calls[n]);
      if i: nat :| i < n && ContradictsAt(front, i, agent) {
        assert ContradictsAt(calls, i, agent);
      }
    }
  }
}
