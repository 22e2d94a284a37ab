/** Compare-and-swap persistence of fills and settlements for one agent, and
    workers that act on snapshots which may be stale
    (src/vtrade/broker_repository.py, src/vtrade/semantic_runtime.py). */
module Persistence {
  import opened Domain
  import opened Histories
  import opened Ledger
  import opened Portfolio
  import opened Replay
  import opened Settlement
  import opened StoredLedger

  // ----- tables and transactions -----

  /** One stored order operation: what was asked and what it filled. */
  datatype Operation = Operation(trade: Trade, fills: seq<EconomicFill>)

  datatype SettlementRow = SettlementRow(position: PositionKey, resolution: int, record: SettlementRecord)

  /** The agent's rows. A closed position keeps a row of zero units. `barred` says
      that the agent is paused or has an order awaiting reconciliation. */
  datatype Tables = Tables(
    version: nat, barred: bool, rows: map<PositionKey, Position>, operations: map<int, Operation>,
    settlements: map<EntryKey, SettlementRow>, ledger: seq<StoredEntry>)

  /** Level counts of the haircut audit that is stored next to an order's book. */
  datatype AuditRow = AuditRow(captured: nat, effective: nat)

  /** An order result to store: its portfolio before and after, its entry, and the
      audit to store with it, if a book snapshot is. */
  datatype OrderWork = OrderWork(
    operation: int, stored: Operation, before: ContractPortfolio, after: ContractPortfolio, entry: LedgerEntry,
    audit: Option<AuditRow>)

  datatype SettlementWork = SettlementWork(
    row: SettlementRow, before: ContractPortfolio, after: ContractPortfolio)

  datatype Persisted = Written | Replayed | Aborted

  /** The entry's id is new, and the ledger tables admit its postings. */
  predicate Insertable(ledger: seq<StoredEntry>, e: LedgerEntry) {
    !IdTaken(ledger, IdOf(e.key)) && Storable(e)
  }

  /** The audit table admits nothing but six captured and five effective levels. */
  predicate AuditAdmitted(audit: Option<AuditRow>) {
    audit.Some? ==> audit.value == AuditRow(6, 5)
  }

  /** persist_order_result. A repeated key must carry the same evidence and writes
      nothing; fills are written only against the version they were computed on,
      at the net cash that gross and fees make, with an audit and an entry the
      tables admit. */
  function PersistOrder(db: Tables, w: OrderWork): (Tables, Persisted) {
    if w.operation in db.operations then
      (db, if db.operations[w.operation] == w.stored then Replayed else Aborted)
    else if db.barred then (db, Aborted)
    else
      var operations := db.operations[w.operation := w.stored];
      if w.stored.fills == [] then (db.(operations := operations), Written)
      else if db.version != w.before.version || !Priced(w.stored.trade, w.stored.fills)
              || !AuditAdmitted(w.audit) || !Insertable(db.ledger, w.entry)
      then (db, Aborted)
      else
        (db.(operations := operations, ledger := db.ledger + [Store(w.entry)],
             rows := db.rows[w.stored.trade.key := At(w.after, w.stored.trade.key)], version := w.after.version),
         Written)
  }

  /** An earlier settlement under the same key, or of the same position by the
      same resolution. */
  predicate SettledBefore(db: Tables, w: SettlementWork) {
    || w.row.record.entry.key in db.settlements
    || exists k :: k in db.settlements && db.settlements[k].position == w.row.position
                   && db.settlements[k].resolution == w.row.resolution
  }

  /** persist_settlement_record. */
  function PersistSettlement(db: Tables, w: SettlementWork): (Tables, Persisted) {
    var record := w.row.record;
    var key := record.entry.key;
    if SettledBefore(db, w) then
      (db, if key in db.settlements && db.settlements[key].record == record then Replayed else Aborted)
    else if db.version != w.before.version || !Insertable(db.ledger, record.entry) || w.row.position !in db.rows
    then (db, Aborted)
    else
      var was := db.rows[w.row.position];
      (db.(settlements := db.settlements[key := w.row], ledger := db.ledger + [Store(record.entry)],
           rows := db.rows[w.row.position := Position(0, 0, 0, was.realized + record.realized)],
           version := w.after.version),
       Written)
  }

  class BrokerRepository {
    var version: nat
    var barred: bool
    var rows: map<PositionKey, Position>
    var operations: map<int, Operation>
    var settlements: map<EntryKey, SettlementRow>
    var ledger: seq<StoredEntry>

    function State(): Tables
      reads this
    {
      Tables(version, barred, rows, operations, settlements, ledger)
    }

    constructor (opening: LedgerEntry)
      ensures State() == Tables(0, false, map[], map[], map[], [Store(opening)])
    {
      version, barred, rows := 0, false, map[];
      operations, settlements, ledger := map[], map[], [Store(opening)];
    }

    method PersistOrderResult(w: OrderWork) returns (r: Persisted)
      modifies this
      ensures (State(), r) == PersistOrder(old(State()), w)
    {
      if w.operation in operations {
        return if operations[w.operation] == w.stored then Replayed else Aborted;
      }
      if barred {
        return Aborted;
      }
      var before := operations;
      operations := operations[w.operation := w.stored];
      if w.stored.fills != [] {
        if version != w.before.version || !Priced(w.stored.trade, w.stored.fills)
           || !AuditAdmitted(w.audit) || !Insertable(ledger, w.entry)
        {
          operations := before;   // roll back
          return Aborted;
        }
        ledger := ledger + [Store(w.entry)];
        rows := rows[w.stored.trade.key := At(w.after, w.stored.trade.key)];
        version := w.after.version;
      }
      return Written;
    }

    method PersistSettlementRecord(w: SettlementWork) returns (r: Persisted)
      modifies this
      ensures (State(), r) == PersistSettlement(old(State()), w)
    {
      var record, key := w.row.record, w.row.record.entry.key;
      if SettledBefore(State(), w) {
        return if key in settlements && settlements[key].record == record then Replayed else Aborted;
      }
      if version != w.before.version || !Insertable(ledger, record.entry) || w.row.position !in rows {
        return Aborted;
      }
      ledger := ledger + [Store(record.entry)];
      settlements := settlements[key := w.row];
      rows := rows[w.row.position := Position(0, 0, 0, rows[w.row.position].realized + record.realized)];
      version := w.after.version;
      return Written;
    }
  }

  // ----- workers -----

  function OpenRows(rows: map<PositionKey, Position>): map<PositionKey, Position> {
    map k | k in rows && rows[k].units > 0 :: rows[k]
  }

  /** Cash as the snapshot query adds it up. */
  function StoredCash(ledger: seq<StoredEntry>, agent: AgentId): int {
    Balance(ReadAll(ledger), agent, CashAccount)
  }

  /** What a worker holds. The account header and the positions are read by two
      statements, so a snapshot can mix two versions. */
  datatype Work = Idle
                | Header(version: nat, cash: nat)
                | Loaded(portfolio: ContractPortfolio)
                | OrderReady(order: OrderWork)
                | SettlementReady(settlement: SettlementWork, event: Event)

  /** Tables, workers, and the events committed so far, in commit order. */
  datatype System = System(agent: AgentId, db: Tables, workers: map<int, Work>, committed: seq<Event>)

  datatype Action = ReadAccount(worker: int)
                  | ReadPositions(worker: int)
                  | PrepareOrder(worker: int, trade: Trade, fills: seq<EconomicFill>, operation: int,
                                 audit: Option<AuditRow>)
                  | PrepareSettlement(worker: int, key: PositionKey, result: OutcomeSide, settledAt: int,
                                      resolution: int)
                  | Persist(worker: int)
                  | Drop(worker: int)
                  | SetBarred(barred: bool)

  function WorkOf(s: System, worker: int): Work {
    if worker in s.workers then s.workers[worker] else Idle
  }

  function Hold(s: System, worker: int, work: Work): System {
    s.(workers := s.workers[worker := work])
  }

  /** The order's event as the accounting names it. */
  function EventOf(w: OrderWork): Event {
    Filled(w.stored.trade, w.stored.fills, w.operation)
  }

  /** One step of one worker; a step whose precondition fails raises and does
      nothing. A persisted settlement lets its worker go on with the new portfolio. */
  function Next(s: System, a: Action): System {
    match a
    case ReadAccount(w) =>
      var cash := StoredCash(s.db.ledger, s.agent);
      if cash < 0 then s else Hold(s, w, Header(s.db.version, cash))
    case ReadPositions(w) =>
      var work := WorkOf(s, w);
      if !work.Header? then s
      else Hold(s, w, Loaded(ContractPortfolio(s.agent, work.cash, OpenRows(s.db.rows), work.version, false, 0)))
    case PrepareOrder(w, trade, fills, operation, audit) =>
      var work := WorkOf(s, w);
      if !work.Loaded? then s
      else
        var applied := ApplyOrder(work.portfolio, trade, fills, operation);
        if applied.Success? then
          Hold(s, w, OrderReady(OrderWork(operation, Operation(trade, fills), work.portfolio,
                                          applied.value.0, applied.value.1, audit)))
        else
          Hold(s, w, OrderReady(OrderWork(operation, Operation(trade, []), work.portfolio, work.portfolio,
                                          LedgerEntry(s.agent, OrderAccounting(operation), []), None)))
    case PrepareSettlement(w, key, result, settledAt, resolution) =>
      var work := WorkOf(s, w);
      if !work.Loaded? || key !in work.portfolio.positions then s
      else
        var paid := SettlePosition(work.portfolio, key, result, settledAt);
        if paid.Failure? then s
        else
          var row := SettlementRow(key, resolution, paid.value.1);
          var settlement := SettlementWork(row, work.portfolio, paid.value.0);
          Hold(s, w, SettlementReady(settlement, Settled(key, result, settledAt)))
    case Persist(w) =>
      var work := WorkOf(s, w);
      if work.OrderReady? then
        var (db, outcome) := PersistOrder(s.db, work.order);
        var commits := outcome.Written? && work.order.stored.fills != [];
        s.(db := db, committed := if commits then s.committed + [EventOf(work.order)] else s.committed)
      else if work.SettlementReady? then
        var (db, outcome) := PersistSettlement(s.db, work.settlement);
        if outcome.Written? then
          Hold(s.(db := db, committed := s.committed + [work.event]), w, Loaded(work.settlement.after))
        else s
      else s
    case Drop(w) => Hold(s, w, Idle)
    case SetBarred(barred) => s.(db := s.db.(barred := barred))
  }

  function Opened(agent: AgentId, cash: pos): System {
    System(agent, Tables(0, false, map[], map[], map[], [Store(OpeningEntry(agent, cash))]), map[], [])
  }

  function RunSystem(s: System, actions: seq<Action>): System
    decreases |actions|
  {
    if actions == [] then s else RunSystem(Next(s, actions[0]), actions[1..])
  }

  // ----- accounting does not look at profit totals or block flags -----

  /** A portfolio without the fields that accounting only carries along. */
  function Blind(p: ContractPortfolio): ContractPortfolio {
    p.(realizedPnl := 0, blocked := false)
  }

  function BlindWork(w: Working): Working {
    w.(portfolio := Blind(w.portfolio))
  }

  lemma {:induction false} FillIsBlind(v: Working, w: Working, t: Trade, f: EconomicFill)
    requires BlindWork(v) == BlindWork(w)
    ensures var a, b := ApplyFill(v, t, f), ApplyFill(w, t, f);
            a.Success? == b.Success? && (a.Success? ==> BlindWork(a.value) == BlindWork(b.value))
  {
    hide ProRata;
    assert v.portfolio.positions == w.portfolio.positions && v.portfolio.cash == w.portfolio.cash by {
      assert BlindWork(v).portfolio == BlindWork(w).portfolio;
    }
  }

  lemma {:induction false} FillsAreBlind(v: Working, w: Working, t: Trade, fills: seq<EconomicFill>)
    requires BlindWork(v) == BlindWork(w)
    ensures var a, b := ApplyFills(v, t, fills), ApplyFills(w, t, fills);
            a.Success? == b.Success? && (a.Success? ==> BlindWork(a.value) == BlindWork(b.value))
    decreases |fills|
  {
    hide ApplyFill, BlindWork;
    if fills != [] {
      FillIsBlind(v, w, t, fills[0]);
      if ApplyFill(v, t, fills[0]).Success? {
        FillsAreBlind(ApplyFill(v, t, fills[0]).value, ApplyFill(w, t, fills[0]).value, t, fills[1..]);
      }
    }
  }

  /** An event accepted on one portfolio is accepted on any that differs only in
      carried fields, with the same entry and the same effect. */
  lemma {:induction false} StepIsBlind(p: ContractPortfolio, q: ContractPortfolio, e: Event)
    requires Blind(p) == Blind(q) && Step(p, e).Success?
    ensures Step(q, e).Success? && Step(q, e).value.1 == Step(p, e).value.1
    ensures Blind(Step(q, e).value.0) == Blind(Step(p, e).value.0)
  {
    assert p.positions == q.positions && p.cash == q.cash && p.version == q.version && p.agent == q.agent by {
      assert Blind(p).positions == Blind(q).positions;
    }
    if e.Filled? {
      hide ApplyFills;
      FillsAreBlind(Start(p), Start(q), e.trade, e.fills);
      var v, w := ApplyFills(Start(p), e.trade, e.fills).value, ApplyFills(Start(q), e.trade, e.fills).value;
      assert BlindWork(v) == BlindWork(w);
      assert OrderPostings(v, e.trade.key) == OrderPostings(w, e.trade.key);
    }
  }

  // ----- the system invariant -----

  function Empty(agent: AgentId, cash: pos): ContractPortfolio {
    ContractPortfolio(agent, cash, map[], 0, false, 0)
  }

  /** The tables are the sequential application of the committed events. */
  ghost predicate Sequential(s: System, cash: pos) {
    var run := Run(Empty(s.agent, cash), s.committed);
    && run.Success?
    && s.db.version == |s.committed|
    && OpenRows(s.db.rows) == run.value.0.positions
    && (forall k :: k in s.db.rows ==> ValidPosition(s.db.rows[k]))
    && s.db.ledger == StoreAll([OpeningEntry(s.agent, cash)] + run.value.1)
    && DistinctIds(s.db.ledger)
    && (forall i :: 0 <= i < |run.value.1| ==> Storable(run.value.1[i]))
    && OrdersKnown(s.db)
  }

  /** Every stored order entry belongs to a stored operation. */
  ghost predicate OrdersKnown(db: Tables) {
    forall i :: 0 <= i < |db.ledger| && db.ledger[i].id.OrderId? ==> db.ledger[i].id.operation in db.operations
  }

  /** The portfolio the tables hold, as the sequential run leaves it. */
  ghost function Current(s: System, cash: pos): ContractPortfolio
    requires Sequential(s, cash)
  {
    Run(Empty(s.agent, cash), s.committed).value.0
  }

  lemma {:induction false} CurrentIsSound(s: System, cash: pos)
    requires Sequential(s, cash)
    ensures var p := Current(s, cash);
            && ValidPortfolio(p) && p.agent == s.agent && p.version == s.db.version && NoFees(p)
            && p.cash == StoredCash(s.db.ledger, s.agent)
            && forall k :: Tally(ReadAll(s.db.ledger), s.agent, AmountAt(PositionCost, k)) == At(p, k).basis
  {
    hide Run, StoreAll, ReadAll, OpenRows, ValidPosition, Equity, ValidEntry;
    var p := Empty(s.agent, cash);
    var all := [OpeningEntry(s.agent, cash)] + Run(p, s.committed).value.1;
    LedgerAlwaysAgrees(s.agent, cash, false, s.committed);
    RunIsSound(p, s.committed, []);
    RunCostsMove(p, s.committed);
    StorableRunHasNoFees(p, s.committed);
    OpeningCostsNothing(s.agent, cash, Run(p, s.committed).value.1);
    StoredTally(all, s.agent, AmountIn(CashAccount));
    forall k {
      StoredTally(all, s.agent, AmountAt(PositionCost, k));
    }
  }

  lemma {:induction false} OpeningCostsNothing(agent: AgentId, cash: pos, entries: seq<LedgerEntry>)
    requires forall i, j :: 0 <= i < |entries| && 0 <= j < |entries[i].postings| ==>
               && ValidPosting(entries[i].postings[j])
               && (entries[i].postings[j].account == PositionCost ==> entries[i].postings[j].unitsDelta.Some?)
    ensures var all := [OpeningEntry(agent, cash)] + entries;
            forall i, j :: 0 <= i < |all| && 0 <= j < |all[i].postings| ==>
              && ValidPosting(all[i].postings[j])
              && (all[i].postings[j].account == PositionCost ==> all[i].postings[j].unitsDelta.Some?)
  {
    var all := [OpeningEntry(agent, cash)] + entries;
    assert forall i :: 1 <= i < |all| ==> all[i] == entries[i-1];
  }

  /** A snapshot is not from the future, and one of the current version is the
      current portfolio in everything accounting looks at. */
  ghost predicate Snapshot(s: System, cash: pos, p: ContractPortfolio)
    requires Sequential(s, cash)
  {
    && p.agent == s.agent && p.version <= s.db.version
    && (p.version == s.db.version ==> Blind(p) == Blind(Current(s, cash)))
  }

  /** Work in progress was computed from a snapshot by the accounting itself. */
  ghost predicate SoundWork(s: System, cash: pos, w: Work)
    requires Sequential(s, cash)
  {
    match w
    case Idle => true
    case Header(version, c) => version <= s.db.version && (version == s.db.version ==> c == Current(s, cash).cash)
    case Loaded(p) => Snapshot(s, cash, p)
    case OrderReady(o) =>
      && Snapshot(s, cash, o.before)
      && (o.stored.fills != [] ==> Step(o.before, EventOf(o)) == Success((o.after, o.entry)))
    case SettlementReady(o, e) =>
      && Snapshot(s, cash, o.before)
      && e.Settled? && e.key == o.row.position && Step(o.before, e) == Success((o.after, o.row.record.entry))
  }

  ghost predicate Invariant(s: System, cash: pos) {
    Sequential(s, cash) && forall w :: w in s.workers ==> SoundWork(s, cash, s.workers[w])
  }

  /** Writing one position's row and appending one entry is the whole effect of
      the event, when it was computed from the current version. */
  lemma {:induction false} CommitIsSequential(s: System, cash: pos, before: ContractPortfolio, e: Event,
                                              after: ContractPortfolio, entry: LedgerEntry, row: Position,
                                              operations: map<int, Operation>)
    requires Sequential(s, cash) && Snapshot(s, cash, before) && before.version == s.db.version
    requires Step(before, e) == Success((after, entry)) && Insertable(s.db.ledger, entry)
    requires row.units == At(after, Touched(e)).units && (row.units > 0 ==> row == At(after, Touched(e)))
    requires row.units == 0 ==> row.basis == row.fees == 0
    requires s.db.operations.Keys <= operations.Keys && (e.Filled? ==> e.operation in operations)
    ensures var db := s.db.(ledger := s.db.ledger + [Store(entry)], rows := s.db.rows[Touched(e) := row],
                            version := after.version, operations := operations);
            var t := s.(db := db, committed := s.committed + [e]);
            && Sequential(t, cash) && t.db.version == s.db.version + 1 && Blind(after) == Blind(Current(t, cash))
  {
    hide Step, Run, ValidPortfolio, ValidEntry, Equity, Agrees, Storable, Store, OpenRows;
    var p, key := Current(s, cash), Touched(e);
    CurrentIsSound(s, cash);
    StepIsBlind(before, p, e);
    RunAppend(Empty(s.agent, cash), s.committed, e);
    StepIsSound(p, e, []);
    EntryNamesEvent(p, e);
    var q := Step(p, e).value.0;
    if e.Filled? {
      OrderDescribes(p, e);
    } else {
      SettlementDescribes(p, e);
    }
    assert q.positions == after.positions && q.version == after.version by {
      assert Blind(q).positions == Blind(after).positions && Blind(q).version == Blind(after).version;
    }
    OneRowIsAll(s.db.rows, p.positions, q.positions, key, row);
    var entries := Run(Empty(s.agent, cash), s.committed).value.1;
    StoreOneMore(s.agent, cash, entries, entry);
    IdStaysNew(s.db.ledger, entry);
  }

  lemma {:induction false} StoreOneMore(agent: AgentId, cash: pos, entries: seq<LedgerEntry>, entry: LedgerEntry)
    ensures StoreAll([OpeningEntry(agent, cash)] + (entries + [entry]))
         == StoreAll([OpeningEntry(agent, cash)] + entries) + [Store(entry)]
  {
    hide Store;
    assert [OpeningEntry(agent, cash)] + (entries + [entry]) == [OpeningEntry(agent, cash)] + entries + [entry];
  }

  lemma {:induction false} IdStaysNew(ledger: seq<StoredEntry>, entry: LedgerEntry)
    requires DistinctIds(ledger) && !IdTaken(ledger, IdOf(entry.key))
    ensures DistinctIds(ledger + [Store(entry)]) && Store(entry).id == IdOf(entry.key)
  {
  }

  /** Replacing the row of the touched position replaces the open positions. */
  lemma {:induction false} OneRowIsAll(rows: map<PositionKey, Position>, was: map<PositionKey, Position>,
                                       now: map<PositionKey, Position>,
                    key: PositionKey, row: Position)
    requires OpenRows(rows) == was && was - {key} == now - {key}
    requires key in now <==> row.units > 0
    requires key in now ==> now[key] == row
    ensures OpenRows(rows[key := row]) == now
  {
    var next := OpenRows(rows[key := row]);
    forall k ensures k in next <==> k in now {
      assert k != key ==> (k in was - {key} <==> k in now - {key});
      assert k != key ==> (k in OpenRows(rows) <==> k in next);
    }
    forall k | k in now ensures next[k] == now[k] {
      if k != key {
        assert (was - {key})[k] == (now - {key})[k];
      }
    }
  }

  /** Work held by other workers stays sound across a commit: its version is now
      in the past, so its own compare-and-swap will refuse it. */
  lemma {:induction false} OthersGoStale(s: System, t: System, cash: pos, w: Work)
    requires Sequential(s, cash) && SoundWork(s, cash, w)
    requires Sequential(t, cash) && t.agent == s.agent && t.db.version == s.db.version + 1
    ensures SoundWork(t, cash, w)
  {
  }

  /** Work stays sound while nothing is committed. */
  lemma {:induction false} NothingCommitted(s: System, t: System, cash: pos, w: Work)
    requires Sequential(s, cash) && SoundWork(s, cash, w)
    requires t.agent == s.agent && t.committed == s.committed
    requires t.db.version == s.db.version && t.db.rows == s.db.rows && t.db.ledger == s.db.ledger
    requires s.db.operations.Keys <= t.db.operations.Keys
    ensures Sequential(t, cash) && SoundWork(t, cash, w)
  {
    assert forall o :: o in s.db.operations.Keys ==> o in t.db.operations;
  }

  lemma {:induction false} OrderCommit(s: System, cash: pos, worker: int)
    requires Invariant(s, cash) && WorkOf(s, worker).OrderReady?
    ensures Invariant(Next(s, Persist(worker)), cash)
  {
    hide Step, Sequential, Insertable, Priced, AuditAdmitted;
    var o := WorkOf(s, worker).order;
    var t := Next(s, Persist(worker));
    if PersistOrder(s.db, o).1.Written? && o.stored.fills != [] {
      var e := EventOf(o);
      var operations := s.db.operations[o.operation := o.stored];
      AfterIsValid(s, cash, o.before, e);
      CommitIsSequential(s, cash, o.before, e, o.after, o.entry, At(o.after, Touched(e)), operations);
      forall w | w in t.workers ensures SoundWork(t, cash, t.workers[w]) {
        OthersGoStale(s, t, cash, s.workers[w]);
      }
    } else {
      NothingCommitted(s, t, cash, Idle);
      forall w | w in t.workers ensures SoundWork(t, cash, t.workers[w]) {
        NothingCommitted(s, t, cash, s.workers[w]);
      }
    }
  }

  /** What an event computed from a current snapshot leaves of its position. */
  lemma {:induction false} AfterIsValid(s: System, cash: pos, before: ContractPortfolio, e: Event)
    requires Sequential(s, cash) && Snapshot(s, cash, before) && before.version == s.db.version
    requires Step(before, e).Success?
    ensures ValidPosition(At(Step(before, e).value.0, Touched(e)))
  {
    hide Step, Sequential, Run, Equity, ValidEntry, Agrees;
    CurrentIsSound(s, cash);
    assert before.positions == Current(s, cash).positions by {
      assert Blind(before).positions == Blind(Current(s, cash)).positions;
    }
    StepIsSound(before, e, []);
  }

  lemma {:induction false} SettlementCommit(s: System, cash: pos, worker: int)
    requires Invariant(s, cash) && WorkOf(s, worker).SettlementReady?
    ensures Invariant(Next(s, Persist(worker)), cash)
  {
    hide Step, Sequential, Insertable;
    var work := WorkOf(s, worker);
    var o, e := work.settlement, work.event;
    var t := Next(s, Persist(worker));
    if PersistSettlement(s.db, o).1.Written? {
      var row := Position(0, 0, 0, s.db.rows[o.row.position].realized + o.row.record.realized);
      assert At(o.after, Touched(e)).units == 0 by { SettledIsGone(o.before, e); }
      CommitIsSequential(s, cash, o.before, e, o.after, o.row.record.entry, row, s.db.operations);
      var mid := s.(db := s.db.(ledger := s.db.ledger + [Store(o.row.record.entry)],
                                rows := s.db.rows[Touched(e) := row], version := o.after.version),
                      committed := s.committed + [e]);
      NothingCommitted(mid, t, cash, Idle);
      forall w | w in t.workers ensures SoundWork(t, cash, t.workers[w]) {
        if w != worker {
          OthersGoStale(s, t, cash, s.workers[w]);
        } else {
          AfterIsSnapshot(mid, t, cash, o.after);
        }
      }
    }
  }

  lemma {:induction false} SettledIsGone(p: ContractPortfolio, e: Event)
    requires e.Settled? && Step(p, e).Success?
    ensures At(Step(p, e).value.0, e.key) == NO_POSITION
  {
  }

  lemma {:induction false} AfterIsSnapshot(mid: System, t: System, cash: pos, after: ContractPortfolio)
    requires Sequential(mid, cash) && Blind(after) == Blind(Current(mid, cash))
    requires t.agent == mid.agent && t.committed == mid.committed && t.db.version == mid.db.version
    requires Sequential(t, cash)
    ensures SoundWork(t, cash, Loaded(after))
  {
    CurrentIsSound(mid, cash);
    assert Blind(after).version == Blind(Current(mid, cash)).version;
    assert Blind(after).agent == Blind(Current(mid, cash)).agent;
  }

  /** Every step of every worker keeps the tables sequential. */
  lemma {:induction false} NextKeeps(s: System, cash: pos, a: Action)
    requires Invariant(s, cash)
    ensures Invariant(Next(s, a), cash)
  {
    hide Step, Sequential;
    if a.Persist? && WorkOf(s, a.worker).OrderReady? {
      OrderCommit(s, cash, a.worker);
    } else if a.Persist? && WorkOf(s, a.worker).SettlementReady? {
      SettlementCommit(s, cash, a.worker);
    } else {
      var t := Next(s, a);
      CurrentIsSound(s, cash);
      NothingCommitted(s, t, cash, Idle);
      forall w | w in t.workers ensures SoundWork(t, cash, t.workers[w]) {
        if w in s.workers && t.workers[w] == s.workers[w] {
          NothingCommitted(s, t, cash, s.workers[w]);
        } else {
          NewWorkIsSound(s, t, cash, a);
        }
      }
    }
  }

  /** What a read or a computation leaves a worker with is sound. */
  lemma {:induction false} NewWorkIsSound(s: System, t: System, cash: pos, a: Action)
    requires Invariant(s, cash) && !a.Persist? && !a.SetBarred? && t == Next(s, a)
    requires Sequential(t, cash) && t.workers != s.workers
    ensures SoundWork(t, cash, WorkOf(t, a.worker))
  {
    CurrentIsSound(s, cash);
    assert Current(t, cash) == Current(s, cash);
    if a.ReadPositions? {
      var p := WorkOf(t, a.worker).portfolio;
      assert Current(s, cash).positions == OpenRows(s.db.rows);
    }
  }

  /** Comparing versions is enough: work whose snapshot differs from the current
      portfolio in anything accounting looks at writes no money, row or version. */
  lemma {:induction false} StaleWritersChangeNothing(s: System, cash: pos, worker: int)
    requires Invariant(s, cash)
    requires var w := WorkOf(s, worker);
             || (w.OrderReady? && w.order.stored.fills != [] && Blind(w.order.before) != Blind(Current(s, cash)))
             || (w.SettlementReady? && Blind(w.settlement.before) != Blind(Current(s, cash)))
    ensures Next(s, Persist(worker)).db == s.db && Next(s, Persist(worker)).committed == s.committed
  {
  }

  lemma {:induction false} RunKeepsInvariant(s: System, cash: pos, actions: seq<Action>)
    requires Invariant(s, cash)
    ensures Invariant(RunSystem(s, actions), cash)
    decreases |actions|
  {
    hide Next, Invariant;
    if actions != [] {
      NextKeeps(s, cash, actions[0]);
      RunKeepsInvariant(Next(s, actions[0]), cash, actions[1..]);
    }
  }

  /** Under any interleaving of workers that read torn or stale snapshots, compute
      fills or settlements and persist, repeatedly if they like: the stored
      version, cash and open positions are exactly those of applying the committed
      events one after another from the opening cash, the version counts them, and
      no two entries share an id. No committed order has paid a fee, so no position
      has entry fees. The cost postings agree with the rows position by position,
      closed ones included. The stored ledger replays to the portfolio without its
      realized profit. */
  lemma {:induction false} CommittedIsSequential(agent: AgentId, cash: pos, actions: seq<Action>)
    ensures var s := RunSystem(Opened(agent, cash), actions);
            var run := Run(Empty(agent, cash), s.committed);
            && run.Success?
            && s.db.version == |s.committed| == run.value.0.version
            && OpenRows(s.db.rows) == run.value.0.positions
            && StoredCash(s.db.ledger, agent) == run.value.0.cash
            && s.db.ledger == StoreAll([OpeningEntry(agent, cash)] + run.value.1) && DistinctIds(s.db.ledger)
            && NoFees(run.value.0)
            && (forall i :: 0 <= i < |s.committed| && s.committed[i].Filled? ==> FeeTotal(s.committed[i].fills) == 0)
            && (forall k :: Tally(ReadAll(s.db.ledger), agent, AmountAt(PositionCost, k))
                         == if k in s.db.rows then s.db.rows[k].basis else 0)
            && ReplayOf(Empty(agent, cash), ReadAll(s.db.ledger[1..])) == Success(Bare(run.value.0))
  {
    hide StoreAll, ReadAll, Run, RunSystem, Tally, Storable, ReplayOf;
    var s0 := Opened(agent, cash);
    OpenedIsSequential(agent, cash);
    RunKeepsInvariant(s0, cash, actions);
    AgentStays(s0, actions);
    var s := RunSystem(s0, actions);
    CurrentIsSound(s, cash);
    var p := Empty(agent, cash);
    var (q, entries) := Run(p, s.committed).value;
    StorableRunHasNoFees(p, s.committed);
    StoredTail(agent, cash, entries, s.db.ledger);
    DistinctIdsMeanDistinctKeys(agent, cash, entries);
    StoredReplayIsBare(p, s.committed);
    assert Bare(p) == p;
    forall k ensures At(q, k).basis == if k in s.db.rows then s.db.rows[k].basis else 0 {
      RowBasis(s.db.rows, q, k);
    }
  }

  lemma {:induction false} OpenedIsSequential(agent: AgentId, cash: pos)
    ensures Invariant(Opened(agent, cash), cash)
  {
    assert Run(Empty(agent, cash), []) == Success((Empty(agent, cash), []));
    assert [OpeningEntry(agent, cash)] + [] == [OpeningEntry(agent, cash)];
    assert StoreAll([OpeningEntry(agent, cash)]) == [Store(OpeningEntry(agent, cash))];
  }

  lemma {:induction false} StoredTail(agent: AgentId, cash: pos, entries: seq<LedgerEntry>, ledger: seq<StoredEntry>)
    requires ledger == StoreAll([OpeningEntry(agent, cash)] + entries)
    ensures |ledger| > 0 && ledger[1..] == StoreAll(entries)
  {
    hide Store;
  }

  lemma {:induction false} DistinctIdsMeanDistinctKeys(agent: AgentId, cash: pos, entries: seq<LedgerEntry>)
    requires DistinctIds(StoreAll([OpeningEntry(agent, cash)] + entries))
    ensures DistinctKeys(entries)
  {
    var all := StoreAll([OpeningEntry(agent, cash)] + entries);
    assert forall i :: 0 <= i < |entries| ==> all[i + 1].id == IdOf(entries[i].key);
  }

  lemma {:induction false} RowBasis(rows: map<PositionKey, Position>, q: ContractPortfolio, k: PositionKey)
    requires OpenRows(rows) == q.positions && forall j :: j in rows ==> ValidPosition(rows[j])
    ensures At(q, k).basis == if k in rows then rows[k].basis else 0
  {
    assert k in OpenRows(rows) <==> k in rows && rows[k].units > 0;
  }

  /** What the stored ledger does not carry: it replays to the whole portfolio if
      and only if no profit is booked, in total or on any open position; and at
      every point of the committed history if and only if every committed event was
      a BUY, or a SELL at just the basis it released. */
  lemma {:induction false} StoredReplayExactlyWhen(agent: AgentId, cash: pos, actions: seq<Action>)
    ensures var s := RunSystem(Opened(agent, cash), actions);
            var run := Run(Empty(agent, cash), s.committed);
            && run.Success? && |s.db.ledger| > 0
            && (ReplayOf(Empty(agent, cash), ReadAll(s.db.ledger[1..])) == Success(run.value.0)
                <==> run.value.0.realizedPnl == 0
                     && forall k :: k in run.value.0.positions ==> run.value.0.positions[k].realized == 0)
            && ((forall n: nat :: n <= |s.committed| ==> Faithful(Empty(agent, cash), s.committed, n))
                <==> (forall n: nat :: n < |s.committed| ==> QuietAt(Empty(agent, cash), s.committed, n)))
  {
    hide StoreAll, ReadAll, Run, RunSystem, Tally, Storable, ReplayOf, Faithful, QuietAt;
    var p, s := Empty(agent, cash), RunSystem(Opened(agent, cash), actions);
    CommittedIsSequential(agent, cash, actions);
    var (q, entries) := Run(p, s.committed).value;
    DistinctIdsMeanDistinctKeys(agent, cash, entries);
    StoredTail(agent, cash, entries, s.db.ledger);
    assert Bare(p) == p;
    FaithfulExactlyWhen(p, s.committed);
    BareWithoutFees(q);
  }

  lemma {:induction false} BareWithoutFees(q: ContractPortfolio)
    requires NoFees(q)
    ensures q == Bare(q) <==> q.realizedPnl == 0 && forall k :: k in q.positions ==> q.positions[k].realized == 0
  {
    assert forall k :: k in q.positions ==> At(q, k).fees == 0;
    if q.realizedPnl == 0 && forall k :: k in q.positions ==> q.positions[k].realized == 0 {
      assert forall k :: k in q.positions ==> q.positions[k] == Bare(q).positions[k];
      assert q.positions == Bare(q).positions;
    }
    if q == Bare(q) {
      assert forall k :: k in q.positions ==> q.positions[k] == Bare(q).positions[k];
    }
  }

  lemma {:induction false} AgentStays(s: System, actions: seq<Action>)
    ensures RunSystem(s, actions).agent == s.agent
    decreases |actions|
  {
    if actions != [] {
      AgentStays(Next(s, actions[0]), actions[1..]);
    }
  }
}
