/** Hourly scheduler, worker leases and stage checkpoints as transactions over
    tables (src/vtrade/postgres_runtime.py). Workers act on claims that may have
    gone stale in the meantime. */
module Leases {
  import opened Domain

  // Instants and durations in seconds.
  type Time = int
  const HOUR := 3600

  /** A lease owner names one claim: the source draws a fresh one for every claim,
      here it is the number of claims drawn before. */
  type Owner = nat

  datatype CycleStatus = Running | Interrupted | Completed | Failed | Skipped

  datatype Stage = MarketFreeze | PreSettlement | Prompt | Harness | BrokerStage | SettlementValuation

  /** A cycle is unique per agent and slot, so the pair serves as its id. */
  datatype CycleId = CycleId(agent: AgentId, slot: Time)

  datatype Cycle = Cycle(
    status: CycleStatus, cutoff: Option<Time>, owner: Option<Owner>, expires: Option<Time>,
    attempts: nat, startedAt: Option<Time>)

  datatype StepStatus = StepRunning | StepCompleted | StepFailed

  datatype StepKey = StepKey(cycle: CycleId, stage: Stage)

  datatype StepRow = StepRow(
    status: StepStatus, fingerprint: int, output: Option<int>, attempts: nat, startedAt: Time)

  /** `anchor` is the first slot, kept as the row's creation time. */
  datatype Schedule = Schedule(anchor: Time, next: Time)

  datatype Db = Db(
    schedules: map<AgentId, Schedule>, cycles: map<CycleId, Cycle>, steps: map<StepKey, StepRow>, issued: nat)

  const NEW_DB := Db(map[], map[], map[], 0)

  datatype CycleClaim = CycleClaim(cycle: CycleId, owner: Owner, expires: Time, recovery: bool, attempt: nat)

  predicate Terminal(s: CycleStatus) {
    s in {Completed, Failed, Skipped}
  }

  // ----- the scheduler -----

  /** _latest_hour_not_after: whole hours from the anchor, not after now. */
  function LatestHour(now: Time, anchor: Time): Time
    requires anchor <= now
  {
    anchor + (now - anchor) / HOUR * HOUR
  }

  predicate OnGrid(anchor: Time, slot: Time) {
    anchor <= slot && (slot - anchor) % HOUR == 0
  }

  function SkippedRow(slot: Time): Cycle {
    Cycle(Skipped, Some(slot), None, None, 0, None)
  }

  /** Insert unless the agent already has a row for that slot. */
  function InsertCycle(cycles: map<CycleId, Cycle>, id: CycleId, row: Cycle): map<CycleId, Cycle> {
    if id in cycles then cycles else cycles[id := row]
  }

  /** _record_skipped_range: one skipped row for every missed slot without a row. */
  function SkipRange(cycles: map<CycleId, Cycle>, agent: AgentId, first: Time, last: Time): map<CycleId, Cycle>
    decreases last - first
  {
    if first > last then cycles
    else SkipRange(InsertCycle(cycles, CycleId(agent, first), SkippedRow(first)), agent, first + HOUR, last)
  }

  /** Claim or skip everything that is due for one agent. */
  function ClaimOne(db: Db, now: Time, duration: Time, grace: Time, agent: AgentId): (Db, seq<CycleClaim>)
    requires agent in db.schedules && db.schedules[agent].next <= now
  {
    var row := db.schedules[agent];
    var slot := LatestHour(now, row.next);
    var current := now - slot <= grace;
    var through := if current then slot - HOUR else slot;
    var skipped := if through >= row.next then SkipRange(db.cycles, agent, row.next, through) else db.cycles;
    var schedules := db.schedules[agent := row.(next := slot + HOUR)];
    var id := CycleId(agent, slot);
    if !current then (db.(schedules := schedules, cycles := skipped), [])
    else
      (db.(schedules := schedules, issued := db.issued + 1,
           cycles := InsertCycle(skipped, id,
                                 Cycle(Running, None, Some(db.issued), Some(now + duration), 1, Some(now)))),
       if id in skipped then [] else [CycleClaim(id, db.issued, now + duration, false, 1)])
  }

  /** An agent the due query returns: its slot has come and no running cycle of it
      holds a live lease. Pauses, limits and skipped locks only narrow the choice. */
  ghost predicate Due(db: Db, now: Time, agent: AgentId) {
    && agent in db.schedules && db.schedules[agent].next <= now
    && forall id :: id in db.cycles && id.agent == agent && db.cycles[id].status.Running? ==>
         db.cycles[id].expires.Some? && db.cycles[id].expires.value <= now
  }

  ghost predicate Distinct<T>(xs: seq<T>) {
    forall i, j :: 0 <= i < j < |xs| ==> xs[i] != xs[j]
  }

  predicate DueLater(db: Db, now: Time, agents: seq<AgentId>) {
    forall i :: 0 <= i < |agents| ==> agents[i] in db.schedules && db.schedules[agents[i]].next <= now
  }

  lemma {:induction false} ClaimOneFrame(db: Db, now: Time, duration: Time, grace: Time, agents: seq<AgentId>)
    requires agents != [] && DueLater(db, now, agents) && Distinct(agents)
    ensures DueLater(ClaimOne(db, now, duration, grace, agents[0]).0, now, agents[1..]) && Distinct(agents[1..])
  {
  }

  /** claim_due_cycles over the rows its query returned, in order. */
  function ClaimDue(db: Db, now: Time, duration: Time, grace: Time, agents: seq<AgentId>): (Db, seq<CycleClaim>)
    requires DueLater(db, now, agents) && Distinct(agents)
    decreases |agents|
  {
    if agents == [] then (db, [])
    else
      ClaimOneFrame(db, now, duration, grace, agents);
      var (mid, first) := ClaimOne(db, now, duration, grace, agents[0]);
      var (end, rest) := ClaimDue(mid, now, duration, grace, agents[1..]);
      (end, first + rest)
  }

  // ----- leases and checkpoints -----

  /** _assert_lease. */
  predicate HasLease(db: Db, c: CycleClaim, now: Time) {
    && c.cycle in db.cycles
    && var row := db.cycles[c.cycle];
       row.status.Running? && row.owner == Some(c.owner) && row.expires.Some? && row.expires.value > now
  }

  /** A cycle recovery may take over: not finished, and its lease ran out, or its
      market freeze made no progress for the stale interval. */
  ghost predicate Recoverable(db: Db, now: Time, staleAfter: Option<pos>, id: CycleId) {
    && id in db.cycles
    && var row, freeze := db.cycles[id], StepKey(id, MarketFreeze);
       && row.status in {Running, Interrupted}
       && ((row.expires.Some? ==> row.expires.value <= now)
           || (staleAfter.Some? && row.cutoff.None?
               && if freeze in db.steps
                  then !db.steps[freeze].status.StepCompleted? && db.steps[freeze].startedAt <= now - staleAfter.value
                  else row.startedAt.Some? && row.startedAt.value <= now - staleAfter.value))
  }

  /** Hand one cycle to a new owner; a freeze step left running has failed. */
  function RecoverOne(db: Db, now: Time, duration: Time, id: CycleId): (Db, CycleClaim)
    requires id in db.cycles
  {
    var row, freeze := db.cycles[id], StepKey(id, MarketFreeze);
    var steps := if freeze in db.steps && db.steps[freeze].status.StepRunning?
                 then db.steps[freeze := db.steps[freeze].(status := StepFailed)] else db.steps;
    var next := row.(status := Running, owner := Some(db.issued), expires := Some(now + duration),
                     attempts := row.attempts + 1);
    (db.(cycles := db.cycles[id := next], steps := steps, issued := db.issued + 1),
     CycleClaim(id, db.issued, now + duration, true, row.attempts + 1))
  }

  /** recover_expired_cycles over the rows its query returned, in order. */
  function RecoverAll(db: Db, now: Time, duration: Time, ids: seq<CycleId>): (Db, seq<CycleClaim>)
    requires forall i :: 0 <= i < |ids| ==> ids[i] in db.cycles
    decreases |ids|
  {
    if ids == [] then (db, [])
    else
      var (mid, first) := RecoverOne(db, now, duration, ids[0]);
      var (end, rest) := RecoverAll(mid, now, duration, ids[1..]);
      (end, [first] + rest)
  }

  /** A transaction that raises is rolled back: None. */
  function Renew(db: Db, c: CycleClaim, now: Time, duration: Time): Option<Db> {
    if !HasLease(db, c, now) then None
    else Some(db.(cycles := db.cycles[c.cycle := db.cycles[c.cycle].(expires := Some(now + duration))]))
  }

  function BeginStage(db: Db, c: CycleClaim, stage: Stage, fingerprint: int, now: Time): Option<Db> {
    var key := StepKey(c.cycle, stage);
    if !HasLease(db, c, now) then None
    else if key !in db.steps then
      Some(db.(steps := db.steps[key := StepRow(StepRunning, fingerprint, None, 1, now)]))
    else
      var row := db.steps[key];
      if row.fingerprint != fingerprint then None
      else if row.status.StepCompleted? then Some(db)
      else
        Some(db.(steps := db.steps[key := row.(status := StepRunning, attempts := row.attempts + 1, startedAt := now)]))
  }

  /** The cutoff of a market freeze is recorded once, must agree later, and by a table
      constraint is not before the slot. */
  function CompleteStage(db: Db, c: CycleClaim, stage: Stage, fingerprint: int, output: int, cutoff: Time, now: Time)
    : Option<Db>
  {
    var key := StepKey(c.cycle, stage);
    if !HasLease(db, c, now) then None
    else if key !in db.steps || !db.steps[key].status.StepRunning? || db.steps[key].fingerprint != fingerprint then None
    else
      var row := db.cycles[c.cycle];
      var steps := db.steps[key := db.steps[key].(status := StepCompleted, output := Some(output))];
      if !stage.MarketFreeze? then Some(db.(steps := steps))
      else if cutoff < c.cycle.slot || (row.cutoff.Some? && row.cutoff.value != cutoff) then None
      else Some(db.(steps := steps, cycles := db.cycles[c.cycle := row.(cutoff := Some(cutoff))]))
  }

  /** Completing needs the lease and, by table constraints, a recorded cutoff and a
      time not before the slot. */
  function CompleteCycle(db: Db, c: CycleClaim, now: Time): Option<Db> {
    if !HasLease(db, c, now) || db.cycles[c.cycle].cutoff.None? || now < c.cycle.slot then None
    else
      var done := db.cycles[c.cycle].(status := Completed, owner := None, expires := None);
      Some(db.(cycles := db.cycles[c.cycle := done]))
  }

  /** Every step row of the cycle that was left running has failed. */
  function FailSteps(steps: map<StepKey, StepRow>, id: CycleId): map<StepKey, StepRow> {
    map k | k in steps ::
      if k.cycle == id && steps[k].status.StepRunning? then steps[k].(status := StepFailed) else steps[k]
  }

  predicate Owns(db: Db, c: CycleClaim) {
    c.cycle in db.cycles && db.cycles[c.cycle].status.Running? && db.cycles[c.cycle].owner == Some(c.owner)
  }

  /** Failing needs only the ownership; before the cutoff it merely interrupts. */
  function FailCycle(db: Db, c: CycleClaim, now: Time): Option<Db> {
    if !Owns(db, c) then Some(db)
    else if now < c.cycle.slot then None
    else
      var row := db.cycles[c.cycle];
      var status := if row.cutoff.None? then Interrupted else Failed;
      Some(db.(cycles := db.cycles[c.cycle := row.(status := status, owner := None, expires := None)],
               steps := FailSteps(db.steps, c.cycle)))
  }

  /** register_agent_schedule: a new agent's own anchor, existing ones untouched. */
  function Register(db: Db, agent: AgentId, startsAt: Time): Db {
    if agent in db.schedules then db else db.(schedules := db.schedules[agent := Schedule(startsAt, startsAt)])
  }

  // ----- the repository -----

  class RuntimeRepository {
    var schedules: map<AgentId, Schedule>
    var cycles: map<CycleId, Cycle>
    var steps: map<StepKey, StepRow>
    var issued: nat

    function State(): Db
      reads this
    {
      Db(schedules, cycles, steps, issued)
    }

    constructor ()
      ensures State() == NEW_DB
    {
      schedules, cycles, steps, issued := map[], map[], map[], 0;
    }

    method RecordSkippedRange(agent: AgentId, first: Time, last: Time)
      modifies this`cycles
      ensures cycles == SkipRange(old(cycles), agent, first, last)
    {
      var slot := first;
      while slot <= last
        invariant SkipRange(old(cycles), agent, first, last) == SkipRange(cycles, agent, slot, last)
      {
        cycles := InsertCycle(cycles, CycleId(agent, slot), SkippedRow(slot));
        slot := slot + HOUR;
      }
    }

    method ClaimAgent(now: Time, duration: Time, grace: Time, agent: AgentId) returns (claim: Option<CycleClaim>)
      requires agent in schedules && schedules[agent].next <= now
      modifies this
      ensures State() == ClaimOne(old(State()), now, duration, grace, agent).0
      ensures ClaimOne(old(State()), now, duration, grace, agent).1 == if claim.Some? then [claim.value] else []
    {
      var row := schedules[agent];
      var slot := LatestHour(now, row.next);
      var current := now - slot <= grace;
      var through := if current then slot - HOUR else slot;
      if through >= row.next {
        RecordSkippedRange(agent, row.next, through);
      }
      claim := None;
      if current {
        var id := CycleId(agent, slot);
        if id !in cycles {
          cycles := cycles[id := Cycle(Running, None, Some(issued), Some(now + duration), 1, Some(now))];
          claim := Some(CycleClaim(id, issued, now + duration, false, 1));
        }
        issued := issued + 1;
      }
      schedules := schedules[agent := row.(next := slot + HOUR)];
    }

    method ClaimDueCycles(now: Time, duration: Time, grace: Time, agents: seq<AgentId>)
      returns (claims: seq<CycleClaim>)
      requires DueLater(State(), now, agents) && Distinct(agents)
      modifies this
      ensures (State(), claims) == ClaimDue(old(State()), now, duration, grace, agents)
    {
      hide ClaimOne;
      claims := [];
      assert agents[0..] == agents;
      ghost var all := ClaimDue(State(), now, duration, grace, agents);
      for i := 0 to |agents|
        invariant DueLater(State(), now, agents[i..])
        invariant all.0 == ClaimDue(State(), now, duration, grace, agents[i..]).0
        invariant all.1 == claims + ClaimDue(State(), now, duration, grace, agents[i..]).1
      {
        ClaimOneFrame(State(), now, duration, grace, agents[i..]);
        assert agents[i..][1..] == agents[i+1..];
        var claim := ClaimAgent(now, duration, grace, agents[i]);
        if claim.Some? {
          claims := claims + [claim.value];
        }
      }
      assert agents[|agents|..] == [] && claims + [] == claims;
    }

    method RecoverCycle(now: Time, duration: Time, id: CycleId) returns (claim: CycleClaim)
      requires id in cycles
      modifies this
      ensures (State(), claim) == RecoverOne(old(State()), now, duration, id)
    {
      var row, freeze := cycles[id], StepKey(id, MarketFreeze);
      if freeze in steps && steps[freeze].status.StepRunning? {
        steps := steps[freeze := steps[freeze].(status := StepFailed)];
      }
      cycles := cycles[id := row.(status := Running, owner := Some(issued), expires := Some(now + duration),
                                  attempts := row.attempts + 1)];
      claim := CycleClaim(id, issued, now + duration, true, row.attempts + 1);
      issued := issued + 1;
    }

    method RecoverExpiredCycles(now: Time, duration: Time, ids: seq<CycleId>) returns (claims: seq<CycleClaim>)
      requires forall i :: 0 <= i < |ids| ==> ids[i] in cycles
      modifies this
      ensures (State(), claims) == RecoverAll(old(State()), now, duration, ids)
    {
      claims := [];
      assert ids[0..] == ids;
      ghost var all := RecoverAll(State(), now, duration, ids);
      for i := 0 to |ids|
        invariant forall j :: 0 <= j < |ids| ==> ids[j] in cycles
        invariant all.0 == RecoverAll(State(), now, duration, ids[i..]).0
        invariant all.1 == claims + RecoverAll(State(), now, duration, ids[i..]).1
      {
        assert ids[i..][1..] == ids[i+1..];
        var claim := RecoverCycle(now, duration, ids[i]);
        claims := claims + [claim];
      }
      assert ids[|ids|..] == [] && claims + [] == claims;
    }

    /** Each of the remaining methods is one transaction; where it raises, the rows
        are as they were. */
    method RenewLease(c: CycleClaim, now: Time, duration: Time) returns (ok: bool)
      modifies this`cycles
      ensures Committed(old(State()), Renew(old(State()), c, now, duration), ok)
    {
      if !HasLease(State(), c, now) {
        return false;
      }
      cycles := cycles[c.cycle := cycles[c.cycle].(expires := Some(now + duration))];
      return true;
    }

    twostate predicate Committed(was: Db, next: Option<Db>, ok: bool)
      reads this
    {
      ok == next.Some? && State() == if next.Some? then next.value else was
    }

    method Begin(c: CycleClaim, stage: Stage, fingerprint: int, now: Time) returns (ok: bool)
      modifies this`steps
      ensures Committed(old(State()), BeginStage(old(State()), c, stage, fingerprint, now), ok)
    {
      if !HasLease(State(), c, now) {
        return false;
      }
      var key := StepKey(c.cycle, stage);
      if key !in steps {
        steps := steps[key := StepRow(StepRunning, fingerprint, None, 1, now)];
        return true;
      }
      var row := steps[key];
      if row.fingerprint != fingerprint {
        return false;
      }
      if !row.status.StepCompleted? {
        steps := steps[key := row.(status := StepRunning, attempts := row.attempts + 1, startedAt := now)];
      }
      return true;
    }

    method Checkpoint(c: CycleClaim, stage: Stage, fingerprint: int, output: int, cutoff: Time, now: Time)
      returns (ok: bool)
      modifies this`steps, this`cycles
      ensures Committed(old(State()), CompleteStage(old(State()), c, stage, fingerprint, output, cutoff, now), ok)
    {
      var key := StepKey(c.cycle, stage);
      if !HasLease(State(), c, now) || key !in steps {
        return false;
      }
      var step, row := steps[key], cycles[c.cycle];
      if !step.status.StepRunning? || step.fingerprint != fingerprint {
        return false;
      }
      if stage.MarketFreeze? {
        if cutoff < c.cycle.slot || (row.cutoff.Some? && row.cutoff.value != cutoff) {
          return false;
        }
        cycles := cycles[c.cycle := row.(cutoff := Some(cutoff))];
      }
      steps := steps[key := step.(status := StepCompleted, output := Some(output))];
      return true;
    }

    method Finish(c: CycleClaim, now: Time) returns (ok: bool)
      modifies this`cycles
      ensures Committed(old(State()), CompleteCycle(old(State()), c, now), ok)
    {
      if !HasLease(State(), c, now) || cycles[c.cycle].cutoff.None? || now < c.cycle.slot {
        return false;
      }
      cycles := cycles[c.cycle := cycles[c.cycle].(status := Completed, owner := None, expires := None)];
      return true;
    }

    method Fail(c: CycleClaim, now: Time) returns (ok: bool)
      modifies this`cycles, this`steps
      ensures Committed(old(State()), FailCycle(old(State()), c, now), ok)
    {
      if Owns(State(), c) {
        if now < c.cycle.slot {
          return false;
        }
        var row := cycles[c.cycle];
        var status := if row.cutoff.None? then Interrupted else Failed;
        cycles := cycles[c.cycle := row.(status := status, owner := None, expires := None)];
        steps := FailSteps(steps, c.cycle);
      }
      return true;
    }
  }

  // ----- histories of transactions -----

  datatype Txn = RegisterAgent(agent: AgentId, startsAt: Time)
               | ClaimTxn(now: Time, duration: pos, grace: nat, agents: seq<AgentId>)
               | RecoverTxn(now: Time, duration: pos, staleAfter: Option<pos>, ids: seq<CycleId>)
               | RenewTxn(claim: CycleClaim, now: Time, duration: pos)
               | BeginTxn(claim: CycleClaim, stage: Stage, fingerprint: int, now: Time)
               | CompleteTxn(claim: CycleClaim, stage: Stage, fingerprint: int, output: int, cutoff: Time, now: Time)
               | FinishTxn(claim: CycleClaim, now: Time)
               | FailTxn(claim: CycleClaim, now: Time)

  /** The queries of a claiming transaction return only matching, distinct rows. */
  ghost predicate Possible(db: Db, t: Txn) {
    match t
    case ClaimTxn(now, _, _, agents) =>
      Distinct(agents) && DueLater(db, now, agents) && forall i :: 0 <= i < |agents| ==> Due(db, now, agents[i])
    case RecoverTxn(now, _, stale, ids) =>
      Distinct(ids) && forall i :: 0 <= i < |ids| ==> Recoverable(db, now, stale, ids[i])
    case _ => true
  }

  /** The tables after a transaction, unchanged if it raised. */
  function Apply(db: Db, t: Txn): Db
    requires Possible(db, t)
  {
    match t
    case RegisterAgent(agent, startsAt) => Register(db, agent, startsAt)
    case ClaimTxn(now, duration, grace, agents) => ClaimDue(db, now, duration, grace, agents).0
    case RecoverTxn(now, duration, stale, ids) => RecoverAll(db, now, duration, ids).0
    case RenewTxn(c, now, duration) => OrElse(Renew(db, c, now, duration), db)
    case BeginTxn(c, stage, fingerprint, now) => OrElse(BeginStage(db, c, stage, fingerprint, now), db)
    case CompleteTxn(c, stage, fingerprint, output, cutoff, now) =>
      OrElse(CompleteStage(db, c, stage, fingerprint, output, cutoff, now), db)
    case FinishTxn(c, now) => OrElse(CompleteCycle(db, c, now), db)
    case FailTxn(c, now) => OrElse(FailCycle(db, c, now), db)
  }

  function OrElse(next: Option<Db>, db: Db): Db {
    if next.Some? then next.value else db
  }

  function ClaimOf(t: Txn): Option<CycleClaim> {
    match t
    case RenewTxn(c, _, _) => Some(c)
    case BeginTxn(c, _, _, _) => Some(c)
    case CompleteTxn(c, _, _, _, _, _) => Some(c)
    case FinishTxn(c, _) => Some(c)
    case FailTxn(c, _) => Some(c)
    case _ => None
  }

  /** A run: every transaction possible where it happens. */
  ghost predicate PossibleRun(db: Db, run: seq<Txn>)
    decreases |run|
  {
    run != [] ==> Possible(db, run[0]) && PossibleRun(Apply(db, run[0]), run[1..])
  }

  function ApplyRun(db: Db, run: seq<Txn>): Db
    requires PossibleRun(db, run)
    decreases |run|
  {
    if run == [] then db else ApplyRun(Apply(db, run[0]), run[1..])
  }

  // ----- write-once facts -----

  /** What no later transaction may change: finished cycles, recorded cutoffs,
      stage fingerprints and completed stage rows. */
  ghost predicate Extends(db: Db, end: Db) {
    && db.issued <= end.issued
    && (forall id :: id in db.cycles ==>
          && id in end.cycles
          && (Terminal(db.cycles[id].status) ==> end.cycles[id] == db.cycles[id])
          && (db.cycles[id].cutoff.Some? ==> end.cycles[id].cutoff == db.cycles[id].cutoff))
    && (forall k :: k in db.steps ==>
          && k in end.steps && end.steps[k].fingerprint == db.steps[k].fingerprint
          && (db.steps[k].status.StepCompleted? ==> end.steps[k] == db.steps[k]))
  }

  /** The stage row is completed, and was not before. */
  ghost predicate NewlyCompleted(db: Db, end: Db, k: StepKey) {
    && k in end.steps && end.steps[k].status.StepCompleted?
    && (k in db.steps ==> !db.steps[k].status.StepCompleted?)
  }

  lemma {:induction false} ExtendsTransitive(a: Db, b: Db, c: Db)
    requires Extends(a, b) && Extends(b, c)
    ensures Extends(a, c)
  {
  }

  lemma {:induction false} SkipRangeRows(cycles: map<CycleId, Cycle>, agent: AgentId, first: Time, last: Time)
    ensures var rows := SkipRange(cycles, agent, first, last);
            && (forall id :: id in cycles ==> id in rows && rows[id] == cycles[id])
            && (forall id :: id in rows && id !in cycles ==> rows[id] == SkippedRow(id.slot))
            && (forall id :: id in rows <==>
                  id in cycles || (id.agent == agent && OnGrid(first, id.slot) && id.slot <= last))
    decreases last - first
  {
    if first <= last {
      SkipRangeRows(InsertCycle(cycles, CycleId(agent, first), SkippedRow(first)), agent, first + HOUR, last);
    }
  }

  lemma {:induction false} ClaimOneKeeps(db: Db, now: Time, duration: Time, grace: Time, agent: AgentId)
    requires agent in db.schedules && db.schedules[agent].next <= now
    ensures var end := ClaimOne(db, now, duration, grace, agent).0;
            && Extends(db, end) && end.steps == db.steps
            && (forall id :: id in db.cycles ==> end.cycles[id] == db.cycles[id])
            && (forall id :: id in end.cycles && id !in db.cycles && end.cycles[id].owner.Some? ==>
                  db.issued <= end.cycles[id].owner.value < end.issued)
  {
    var row := db.schedules[agent];
    var slot := LatestHour(now, row.next);
    SkipRangeRows(db.cycles, agent, row.next, slot);
    SkipRangeRows(db.cycles, agent, row.next, slot - HOUR);
  }

  lemma {:induction false} ClaimDueKeeps(db: Db, now: Time, duration: Time, grace: Time, agents: seq<AgentId>)
    requires DueLater(db, now, agents) && Distinct(agents)
    ensures var end := ClaimDue(db, now, duration, grace, agents).0;
            && Extends(db, end) && end.steps == db.steps
            && (forall id :: id in db.cycles ==> end.cycles[id] == db.cycles[id])
            && (forall id :: id in end.cycles && id !in db.cycles && end.cycles[id].owner.Some? ==>
                  db.issued <= end.cycles[id].owner.value)
    decreases |agents|
  {
    hide ClaimOne;
    if agents != [] {
      ClaimOneFrame(db, now, duration, grace, agents);
      ClaimOneKeeps(db, now, duration, grace, agents[0]);
      ClaimDueKeeps(ClaimOne(db, now, duration, grace, agents[0]).0, now, duration, grace, agents[1..]);
    }
  }

  /** Open cycles, each listed once. */
  ghost predicate OpenCycles(db: Db, ids: seq<CycleId>) {
    Distinct(ids) && forall i :: 0 <= i < |ids| ==> ids[i] in db.cycles && !Terminal(db.cycles[ids[i]].status)
  }

  /** Recovery keeps what is write-once, and every listed cycle gets an owner no
      earlier claim ever had. */
  lemma {:induction false} RecoverAllKeeps(db: Db, now: Time, duration: Time, ids: seq<CycleId>)
    requires OpenCycles(db, ids)
    ensures var end := RecoverAll(db, now, duration, ids).0;
            && Extends(db, end) && end.cycles.Keys == db.cycles.Keys && end.schedules == db.schedules
            && (forall k :: !NewlyCompleted(db, end, k))
            && (forall id :: id in db.cycles && id !in ids ==> end.cycles[id] == db.cycles[id])
            && (forall id :: id in ids ==> end.cycles[id].owner.Some? && db.issued <= end.cycles[id].owner.value)
    decreases |ids|
  {
    if ids != [] {
      var mid := RecoverOne(db, now, duration, ids[0]).0;
      assert ids[0] !in ids[1..];
      RecoverAllKeeps(mid, now, duration, ids[1..]);
      var end := RecoverAll(db, now, duration, ids).0;
      assert end == RecoverAll(mid, now, duration, ids[1..]).0;
      ExtendsTransitive(db, mid, end);
      assert forall k :: NewlyCompleted(db, end, k) ==> NewlyCompleted(mid, end, k);
    }
  }

  /** A step row after its cycle was recovered: a running market freeze has failed. */
  function FreezeFailed(k: StepKey, row: StepRow): StepRow {
    if k.stage.MarketFreeze? && row.status.StepRunning? then row.(status := StepFailed) else row
  }

  lemma {:induction false} RecoverySteps(db: Db, now: Time, duration: Time, ids: seq<CycleId>)
    requires OpenCycles(db, ids)
    ensures var end := RecoverAll(db, now, duration, ids).0;
            && end.steps.Keys == db.steps.Keys
            && forall k :: k in db.steps ==>
                 end.steps[k] == if k.cycle in ids then FreezeFailed(k, db.steps[k]) else db.steps[k]
    decreases |ids|
  {
    if ids != [] {
      var mid := RecoverOne(db, now, duration, ids[0]).0;
      assert ids[0] !in ids[1..] && forall id :: id in ids <==> id == ids[0] || id in ids[1..];
      RecoverySteps(mid, now, duration, ids[1..]);
      assert forall k :: k in db.steps ==>
               mid.steps[k] == if k.cycle == ids[0] then FreezeFailed(k, db.steps[k]) else db.steps[k];
    }
  }

  /** The claim and the row a recovered cycle gets. */
  ghost predicate TakenOver(was: Cycle, end: Db, c: CycleClaim, id: CycleId, owner: Owner, until: Time) {
    && c == CycleClaim(id, owner, until, true, was.attempts + 1)
    && id in end.cycles
    && end.cycles[id] == was.(status := Running, owner := Some(owner), expires := Some(until),
                              attempts := was.attempts + 1)
  }

  lemma {:induction false} OneTakenOver(db: Db, now: Time, duration: Time, id: CycleId)
    requires id in db.cycles && !Terminal(db.cycles[id].status)
    ensures var (end, c) := RecoverOne(db, now, duration, id);
            && TakenOver(db.cycles[id], end, c, id, db.issued, now + duration) && end.issued == db.issued + 1
            && end.cycles.Keys == db.cycles.Keys
            && forall j :: j in db.cycles && j != id ==> end.cycles[j] == db.cycles[j]
  {
  }

  lemma {:induction false} RecoveryClaims(db: Db, now: Time, duration: Time, ids: seq<CycleId>)
    requires OpenCycles(db, ids)
    ensures var (end, claims) := RecoverAll(db, now, duration, ids);
            && |claims| == |ids| && end.issued == db.issued + |ids|
            && forall i :: 0 <= i < |ids| ==>
                 TakenOver(db.cycles[ids[i]], end, claims[i], ids[i], db.issued + i, now + duration)
    decreases |ids|
  {
    hide TakenOver, RecoverOne, Extends, NewlyCompleted;
    if ids != [] {
      var (mid, first) := RecoverOne(db, now, duration, ids[0]);
      OneTakenOver(db, now, duration, ids[0]);
      assert ids[0] !in ids[1..];
      RecoveryClaims(mid, now, duration, ids[1..]);
      RecoverAllKeeps(mid, now, duration, ids[1..]);
      var (end, rest) := RecoverAll(mid, now, duration, ids[1..]);
      var claims := RecoverAll(db, now, duration, ids).1;
      assert claims == [first] + rest;
      FirstStaysTaken(db.cycles[ids[0]], mid, end, first, ids[0], db.issued, now + duration);
      forall i | 0 <= i < |ids|
        ensures TakenOver(db.cycles[ids[i]], end, claims[i], ids[i], db.issued + i, now + duration)
      {
        if i > 0 {
          assert TakenOver(mid.cycles[ids[1..][i-1]], end, rest[i-1], ids[1..][i-1], mid.issued + (i - 1),
                           now + duration);
        }
      }
    }
  }

  lemma {:induction false} FirstStaysTaken(was: Cycle, mid: Db, end: Db, c: CycleClaim, id: CycleId, owner: Owner,
                                           until: Time)
    requires TakenOver(was, mid, c, id, owner, until) && id in end.cycles && end.cycles[id] == mid.cycles[id]
    ensures TakenOver(was, end, c, id, owner, until)
  {
  }

  /** What recovery writes: each listed cycle runs again under an owner of its own,
      drawn in order, with one attempt more; a market freeze that was running in one
      of them has failed; and every other cycle and step row is as it was. */
  lemma {:induction false} RecoveryIsExact(db: Db, now: Time, duration: Time, ids: seq<CycleId>)
    requires OpenCycles(db, ids)
    ensures var (end, claims) := RecoverAll(db, now, duration, ids);
            && |claims| == |ids| && end.issued == db.issued + |ids| && end.schedules == db.schedules
            && end.cycles.Keys == db.cycles.Keys && end.steps.Keys == db.steps.Keys
            && (forall i :: 0 <= i < |ids| ==>
                  && claims[i] == CycleClaim(ids[i], db.issued + i, now + duration, true,
                                             db.cycles[ids[i]].attempts + 1)
                  && end.cycles[ids[i]] == db.cycles[ids[i]].(
                       status := Running, owner := Some(db.issued + i), expires := Some(now + duration),
                       attempts := db.cycles[ids[i]].attempts + 1))
            && (forall id :: id in db.cycles && id !in ids ==> end.cycles[id] == db.cycles[id])
            && (forall k :: k in db.steps ==>
                  end.steps[k] == if k.cycle in ids && k.stage.MarketFreeze? && db.steps[k].status.StepRunning?
                                  then db.steps[k].(status := StepFailed) else db.steps[k])
  {
    hide RecoverAll;
    RecoveryClaims(db, now, duration, ids);
    RecoverySteps(db, now, duration, ids);
    RecoverAllKeeps(db, now, duration, ids);
  }

  lemma {:induction false} RecoverableIsOpen(db: Db, t: Txn)
    requires t.RecoverTxn? && Possible(db, t)
    ensures OpenCycles(db, t.ids)
  {
  }

  /** No transaction of any worker changes a finished cycle, a recorded cutoff, a
      stage fingerprint or a completed stage output. */
  lemma {:induction false} TxnExtends(db: Db, t: Txn)
    requires Possible(db, t)
    ensures Extends(db, Apply(db, t))
  {
    match t {
      case ClaimTxn(now, duration, grace, agents) => ClaimDueKeeps(db, now, duration, grace, agents);
      case RecoverTxn(now, duration, stale, ids) =>
        RecoverableIsOpen(db, t);
        RecoverAllKeeps(db, now, duration, ids);
      case _ =>
    }
  }

  /** A stage output is only ever committed by the claim that holds the cycle's
      live lease, for a running step with the fingerprint that step was begun with. */
  lemma {:induction false} OutputsNeedTheLease(db: Db, t: Txn, k: StepKey)
    requires Possible(db, t) && NewlyCompleted(db, Apply(db, t), k)
    ensures t.CompleteTxn? && k == StepKey(t.claim.cycle, t.stage) && HasLease(db, t.claim, t.now)
    ensures k in db.steps && db.steps[k].status.StepRunning? && db.steps[k].fingerprint == t.fingerprint
    ensures Apply(db, t).steps[k].output == Some(t.output)
  {
    match t {
      case ClaimTxn(now, duration, grace, agents) => ClaimDueKeeps(db, now, duration, grace, agents);
      case RecoverTxn(now, duration, stale, ids) =>
        RecoverableIsOpen(db, t);
        RecoverAllKeeps(db, now, duration, ids);
      case _ =>
    }
  }

  // ----- fencing -----

  /** An owner drawn earlier that does not own the cycle (any more). */
  ghost predicate Superseded(db: Db, id: CycleId, o: Owner) {
    o < db.issued && (id in db.cycles ==> db.cycles[id].owner != Some(o))
  }

  /** A superseded claim changes nothing, whatever it tries. */
  lemma {:induction false} SupersededIsPowerless(db: Db, t: Txn)
    requires Possible(db, t) && ClaimOf(t).Some?
    requires Superseded(db, ClaimOf(t).value.cycle, ClaimOf(t).value.owner)
    ensures Apply(db, t) == db
  {
  }

  /** Once superseded, always superseded: owners are never drawn twice. */
  lemma {:induction false} SupersededStays(db: Db, t: Txn, id: CycleId, o: Owner)
    requires Possible(db, t) && Superseded(db, id, o)
    ensures Superseded(Apply(db, t), id, o)
  {
    match t {
      case ClaimTxn(now, duration, grace, agents) => ClaimDueKeeps(db, now, duration, grace, agents);
      case RecoverTxn(now, duration, stale, ids) =>
        RecoverableIsOpen(db, t);
        RecoverAllKeeps(db, now, duration, ids);
      case _ =>
    }
  }

  /** Over every run: write-once facts stay, and a superseded claim stays so. */
  lemma {:induction false} RunKeeps(db: Db, run: seq<Txn>)
    requires PossibleRun(db, run)
    ensures Extends(db, ApplyRun(db, run))
    ensures forall id, o: Owner :: Superseded(db, id, o) ==> Superseded(ApplyRun(db, run), id, o)
    decreases |run|
  {
    hide Apply, Possible, Superseded, Extends;
    if run == [] {
      assert Extends(db, db) by { ExtendsReflexive(db); }
    } else {
      var mid := Apply(db, run[0]);
      TxnExtends(db, run[0]);
      forall id, o: Owner | Superseded(db, id, o) ensures Superseded(mid, id, o) {
        SupersededStays(db, run[0], id, o);
      }
      RunKeeps(mid, run[1..]);
      ExtendsTransitive(db, mid, ApplyRun(db, run));
    }
  }

  lemma {:induction false} ExtendsReflexive(db: Db)
    ensures Extends(db, db)
  {
  }

  /** Once recovery has handed a cycle to a new generation, no renew, begin,
      complete or fail by any claim drawn before changes anything, after any
      further run of transactions by any workers. */
  lemma {:induction false} RecoveryFencesForever(db: Db, t: Txn, run: seq<Txn>, late: Txn)
    requires t.RecoverTxn? && Possible(db, t) && PossibleRun(Apply(db, t), run)
    requires ClaimOf(late).Some? && ClaimOf(late).value.cycle in t.ids && ClaimOf(late).value.owner < db.issued
    requires Possible(ApplyRun(Apply(db, t), run), late)
    ensures Apply(ApplyRun(Apply(db, t), run), late) == ApplyRun(Apply(db, t), run)
  {
    hide Possible, PossibleRun, ApplyRun;
    var c := ClaimOf(late).value;
    RecoverableIsOpen(db, t);
    RecoverAllKeeps(db, t.now, t.duration, t.ids);
    assert Superseded(Apply(db, t), c.cycle, c.owner);
    RunKeeps(Apply(db, t), run);
    SupersededIsPowerless(ApplyRun(Apply(db, t), run), late);
  }

  /** Some transaction of the run begins the stage again: a begin of it by a claim
      with at least this owner number that passes the lease check where it happens. */
  ghost predicate BegunAgain(db: Db, run: seq<Txn>, k: StepKey, from: Owner)
    requires PossibleRun(db, run)
    decreases |run|
  {
    run != [] &&
    (|| (&& run[0].BeginTxn? && StepKey(run[0].claim.cycle, run[0].stage) == k
         && HasLease(db, run[0].claim, run[0].now) && from <= run[0].claim.owner)
     || BegunAgain(Apply(db, run[0]), run[1..], k, from))
  }

  /** Owners drawn before this number own the cycle no more. */
  ghost predicate Fenced(db: Db, id: CycleId, from: Owner) {
    forall o: Owner :: o < from ==> Superseded(db, id, o)
  }

  lemma {:induction false} HolderIsLate(db: Db, c: CycleClaim, now: Time, from: Owner)
    requires Fenced(db, c.cycle, from)
    ensures HasLease(db, c, now) ==> from <= c.owner
  {
    if c.owner < from {
      assert Superseded(db, c.cycle, c.owner);
    }
  }

  /** A step that is not running stays so, and is not completed, until it is begun. */
  lemma {:induction false} IdleStays(db: Db, t: Txn, k: StepKey, from: Owner)
    requires Possible(db, t) && Fenced(db, k.cycle, from)
    requires k in db.steps ==> !db.steps[k].status.StepRunning?
    requires !(t.BeginTxn? && StepKey(t.claim.cycle, t.stage) == k && HasLease(db, t.claim, t.now)
               && from <= t.claim.owner)
    ensures var end := Apply(db, t);
            && (k in end.steps ==> !end.steps[k].status.StepRunning?) && !NewlyCompleted(db, end, k)
  {
    match t {
      case ClaimTxn(now, duration, grace, agents) => ClaimDueKeeps(db, now, duration, grace, agents);
      case RecoverTxn(now, duration, stale, ids) =>
        RecoverableIsOpen(db, t);
        RecoveryIsExact(db, now, duration, ids);
      case BeginTxn(c, stage, fingerprint, now) =>
        if StepKey(c.cycle, stage) == k {
          HolderIsLate(db, c, now, from);
        }
      case _ =>
    }
  }

  lemma {:induction false} IdleUntilBegun(db: Db, run: seq<Txn>, k: StepKey, from: Owner)
    requires PossibleRun(db, run) && Fenced(db, k.cycle, from)
    requires k in db.steps ==> !db.steps[k].status.StepRunning?
    ensures NewlyCompleted(db, ApplyRun(db, run), k) ==> BegunAgain(db, run, k, from)
    decreases |run|
  {
    hide Apply, Possible, Superseded, HasLease;
    if run != [] && !BegunAgain(db, run, k, from) {
      var mid := Apply(db, run[0]);
      IdleStays(db, run[0], k, from);
      forall o: Owner | o < from ensures Superseded(mid, k.cycle, o) {
        SupersededStays(db, run[0], k.cycle, o);
      }
      TxnExtends(db, run[0]);
      IdleUntilBegun(mid, run[1..], k, from);
    }
  }

  /** A market freeze in progress does not survive recovery: over every run, no
      output of it is committed before a claim that holds the lease, drawn by that
      recovery or later, has begun the stage again. */
  lemma {:induction false} RecoveredFreezeStartsOver(db: Db, t: Txn, run: seq<Txn>, id: CycleId)
    requires t.RecoverTxn? && Possible(db, t) && id in t.ids && PossibleRun(Apply(db, t), run)
    ensures var k := StepKey(id, MarketFreeze);
            NewlyCompleted(db, ApplyRun(Apply(db, t), run), k) ==> BegunAgain(Apply(db, t), run, k, db.issued)
  {
    hide PossibleRun, ApplyRun, BegunAgain;
    var k, mid := StepKey(id, MarketFreeze), Apply(db, t);
    RecoverableIsOpen(db, t);
    RecoveryIsExact(db, t.now, t.duration, t.ids);
    RecoverAllKeeps(db, t.now, t.duration, t.ids);
    forall o: Owner | o < db.issued ensures Superseded(mid, id, o) {
    }
    IdleUntilBegun(mid, run, k, db.issued);
  }

  // ----- hourly slots -----

  /** Every hourly slot from an agent's anchor up to its next one has exactly one
      cycle row, no other slot has any, and next lies on the grid. */
  ghost predicate Covered(db: Db) {
    && (forall a :: a in db.schedules ==> OnGrid(db.schedules[a].anchor, db.schedules[a].next))
    && (forall id :: id in db.cycles <==>
          && id.agent in db.schedules
          && OnGrid(db.schedules[id.agent].anchor, id.slot) && id.slot < db.schedules[id.agent].next)
  }

  /** Schedules only move forward, each from its fixed anchor. */
  ghost predicate Advances(db: Db, end: Db) {
    forall a :: a in db.schedules ==>
      && a in end.schedules && end.schedules[a].anchor == db.schedules[a].anchor
      && db.schedules[a].next <= end.schedules[a].next
  }

  /** Claims of slots that had no row before and have one now, each once. */
  ghost predicate FreshClaims(db: Db, end: Db, claims: seq<CycleClaim>) {
    && (forall i :: 0 <= i < |claims| ==> claims[i].cycle !in db.cycles && claims[i].cycle in end.cycles)
    && (forall i, j :: 0 <= i < j < |claims| ==> claims[i].cycle != claims[j].cycle)
  }

  ghost predicate WithinGrace(claims: seq<CycleClaim>, now: Time, grace: Time) {
    forall i :: 0 <= i < |claims| ==> 0 <= now - claims[i].cycle.slot <= grace
  }

  /** The rows one agent's claim adds, all slots from its next one to the current, and
      what they hold: the current slot runs if it is recent enough, the others are
      skipped. */
  lemma {:induction false} ClaimOneRows(db: Db, now: Time, duration: Time, grace: Time, agent: AgentId)
    requires agent in db.schedules && db.schedules[agent].next <= now
    ensures var next := db.schedules[agent].next;
            var slot := LatestHour(now, next);
            var (end, claims) := ClaimOne(db, now, duration, grace, agent);
            && OnGrid(next, slot) && now - HOUR < slot <= now
            && end.schedules == db.schedules[agent := db.schedules[agent].(next := slot + HOUR)]
            && (forall id :: id in end.cycles <==>
                  id in db.cycles || (id.agent == agent && OnGrid(next, id.slot) && id.slot <= slot))
            && (forall id :: id in end.cycles && id !in db.cycles ==>
                  end.cycles[id] == if now - slot <= grace && id.slot == slot
                                    then Cycle(Running, None, Some(db.issued), Some(now + duration), 1, Some(now))
                                    else Cycle(Skipped, Some(id.slot), None, None, 0, None))
            && claims == if now - slot > grace || CycleId(agent, slot) in db.cycles then []
                         else [CycleClaim(CycleId(agent, slot), db.issued, now + duration, false, 1)]
  {
    var next := db.schedules[agent].next;
    var slot := LatestHour(now, next);
    SkipRangeRows(db.cycles, agent, next, slot);
    SkipRangeRows(db.cycles, agent, next, slot - HOUR);
    forall x: Time ensures OnGrid(next, x) && x <= slot <==> (OnGrid(next, x) && x <= slot - HOUR) || x == slot {
      GridStep(next, slot, x);
    }
  }

  /** One agent: coverage is kept, and exactly the current slot is claimed, when
      it is recent enough. */
  lemma {:induction false} ClaimOneCovers(db: Db, now: Time, duration: Time, grace: Time, agent: AgentId)
    requires Covered(db) && agent in db.schedules && db.schedules[agent].next <= now
    ensures var (end, claims) := ClaimOne(db, now, duration, grace, agent);
            && Covered(end) && Advances(db, end)
            && FreshClaims(db, end, claims) && WithinGrace(claims, now, grace)
            && (|claims| == 1 <==> now - LatestHour(now, db.schedules[agent].next) <= grace)
  {
    hide ClaimOne, LatestHour, OnGrid;
    ClaimOneRows(db, now, duration, grace, agent);
    var row := db.schedules[agent];
    var slot := LatestHour(now, row.next);
    var end := ClaimOne(db, now, duration, grace, agent).0;
    NextStaysOnGrid(row.anchor, row.next, slot);
    forall id: CycleId | id.agent == agent
      ensures id in end.cycles <==> OnGrid(row.anchor, id.slot) && id.slot < slot + HOUR
    {
      GridShift(row.anchor, row.next, slot, id.slot);
    }
  }

  lemma {:induction false} NextStaysOnGrid(anchor: Time, next: Time, slot: Time)
    requires OnGrid(anchor, next) && OnGrid(next, slot)
    ensures OnGrid(anchor, slot + HOUR) && next <= slot
  {
  }

  /** A grid up to `slot`, split at one of its own points. */
  lemma {:induction false} GridShift(anchor: Time, next: Time, slot: Time, x: Time)
    requires OnGrid(anchor, next) && OnGrid(next, slot)
    ensures OnGrid(anchor, x) && x < slot + HOUR <==>
              (OnGrid(anchor, x) && x < next) || (OnGrid(next, x) && x <= slot)
  {
  }

  lemma {:induction false} GridStep(next: Time, slot: Time, x: Time)
    requires OnGrid(next, slot)
    ensures OnGrid(next, x) && x <= slot <==> (OnGrid(next, x) && x <= slot - HOUR) || x == slot
  {
  }

  lemma {:induction false} ClaimDueCovers(db: Db, now: Time, duration: Time, grace: Time, agents: seq<AgentId>)
    requires Covered(db) && DueLater(db, now, agents) && Distinct(agents)
    ensures var (end, claims) := ClaimDue(db, now, duration, grace, agents);
            Covered(end) && Advances(db, end) && FreshClaims(db, end, claims) && WithinGrace(claims, now, grace)
    decreases |agents|
  {
    hide ClaimOne, Covered;
    if agents != [] {
      var (mid, first) := ClaimOne(db, now, duration, grace, agents[0]);
      ClaimOneFrame(db, now, duration, grace, agents);
      ClaimOneKeeps(db, now, duration, grace, agents[0]);
      ClaimDueKeeps(mid, now, duration, grace, agents[1..]);
      ClaimOneCovers(db, now, duration, grace, agents[0]);
      ClaimDueCovers(mid, now, duration, grace, agents[1..]);
    }
  }

  /** The slots a transaction claims for the first time. */
  function SlotClaims(db: Db, t: Txn): seq<CycleClaim>
    requires Possible(db, t)
  {
    match t
    case ClaimTxn(now, duration, grace, agents) => ClaimDue(db, now, duration, grace, agents).1
    case _ => []
  }

  lemma {:induction false} TxnCovers(db: Db, t: Txn)
    requires Covered(db) && Possible(db, t)
    ensures var end := Apply(db, t);
            && Covered(end) && Advances(db, end) && FreshClaims(db, end, SlotClaims(db, t))
            && (forall id :: id in db.cycles ==> id in end.cycles)
            && (t.ClaimTxn? ==> WithinGrace(SlotClaims(db, t), t.now, t.grace))
            && (t.ClaimTxn? ==> forall id :: id in db.cycles ==> end.cycles[id] == db.cycles[id])
  {
    match t {
      case ClaimTxn(now, duration, grace, agents) =>
        ClaimDueCovers(db, now, duration, grace, agents);
        ClaimDueKeeps(db, now, duration, grace, agents);
      case RecoverTxn(now, duration, stale, ids) =>
        RecoverableIsOpen(db, t);
        RecoverAllKeeps(db, now, duration, ids);
      case _ =>
    }
  }

  /** All first claims of a run, in order. */
  function RunClaims(db: Db, run: seq<Txn>): seq<CycleClaim>
    requires PossibleRun(db, run)
    decreases |run|
  {
    if run == [] then [] else SlotClaims(db, run[0]) + RunClaims(Apply(db, run[0]), run[1..])
  }

  /** Over every run from covered tables: coverage holds, schedules only advance in
      whole hours, existing rows are never lost, and no slot is claimed twice. */
  lemma {:induction false} RunCovers(db: Db, run: seq<Txn>)
    requires Covered(db) && PossibleRun(db, run)
    ensures var end := ApplyRun(db, run);
            && Covered(end) && Advances(db, end) && FreshClaims(db, end, RunClaims(db, run))
            && (forall id :: id in db.cycles ==> id in end.cycles)
    decreases |run|
  {
    hide Apply, Possible, Covered, SlotClaims;
    if run != [] {
      TxnCovers(db, run[0]);
      RunCovers(Apply(db, run[0]), run[1..]);
    }
  }

  // ----- what a claim is good for -----

  /** Claims with owners drawn in this window, all different, each holding its
      lease at any instant before the given end. */
  ghost predicate Leased(db: Db, claims: seq<CycleClaim>, from: nat, to: nat, until: Time) {
    && OwnersWithin(claims, from, to)
    && forall i, t: Time :: 0 <= i < |claims| && t < until ==> HasLease(db, claims[i], t)
  }

  ghost predicate OwnersWithin(claims: seq<CycleClaim>, from: nat, to: nat) {
    && (forall i :: 0 <= i < |claims| ==> from <= claims[i].owner < to)
    && (forall i, j :: 0 <= i < j < |claims| ==> claims[i].owner != claims[j].owner)
  }

  /** Every returned claim, of a due slot or of a recovered cycle, holds its lease
      until its duration is over, under an owner drawn for it alone. */
  lemma {:induction false} DueClaimsHoldLeases(db: Db, now: Time, duration: Time, grace: Time, agents: seq<AgentId>)
    requires DueLater(db, now, agents) && Distinct(agents)
    ensures var (end, claims) := ClaimDue(db, now, duration, grace, agents);
            db.issued <= end.issued && Leased(end, claims, db.issued, end.issued, now + duration)
    decreases |agents|
  {
    hide ClaimOne;
    if agents != [] {
      var (mid, first) := ClaimOne(db, now, duration, grace, agents[0]);
      ClaimOneFrame(db, now, duration, grace, agents);
      ClaimOneHoldsLease(db, now, duration, grace, agents[0]);
      ClaimDueKeeps(mid, now, duration, grace, agents[1..]);
      DueClaimsHoldLeases(mid, now, duration, grace, agents[1..]);
      var (end, rest) := ClaimDue(mid, now, duration, grace, agents[1..]);
      LeasedJoin(mid, end, first, rest, db.issued, mid.issued, end.issued, now + duration);
    }
  }

  lemma {:induction false} LeasedJoin(mid: Db, end: Db, first: seq<CycleClaim>, rest: seq<CycleClaim>, from: nat,
                                      via: nat, to: nat, until: Time)
    requires from <= via <= to && Leased(mid, first, from, via, until) && Leased(end, rest, via, to, until)
    requires forall id :: id in mid.cycles ==> id in end.cycles && end.cycles[id] == mid.cycles[id]
    ensures Leased(end, first + rest, from, to, until)
  {
    var all := first + rest;
    forall i, t: Time | 0 <= i < |all| && t < until ensures HasLease(end, all[i], t) {
      if i < |first| {
        assert HasLease(mid, first[i], t);
      } else {
        assert HasLease(end, rest[i - |first|], t);
      }
    }
  }

  lemma {:induction false} ClaimOneHoldsLease(db: Db, now: Time, duration: Time, grace: Time, agent: AgentId)
    requires agent in db.schedules && db.schedules[agent].next <= now
    ensures var (end, claims) := ClaimOne(db, now, duration, grace, agent);
            && |claims| <= 1 && db.issued <= end.issued && Leased(end, claims, db.issued, end.issued, now + duration)
            && forall i :: 0 <= i < |claims| ==> claims[i].cycle in end.cycles
  {
    ClaimOneRows(db, now, duration, grace, agent);
  }

  lemma {:induction false} RecoveredClaimsHoldLeases(db: Db, now: Time, duration: Time, ids: seq<CycleId>)
    requires OpenCycles(db, ids)
    ensures var (end, claims) := RecoverAll(db, now, duration, ids);
            && db.issued <= end.issued && Leased(end, claims, db.issued, end.issued, now + duration)
            && |claims| == |ids| && forall i :: 0 <= i < |ids| ==> claims[i].cycle == ids[i]
    decreases |ids|
  {
    if ids != [] {
      var (mid, first) := RecoverOne(db, now, duration, ids[0]);
      assert ids[0] !in ids[1..];
      RecoverAllKeeps(mid, now, duration, ids[1..]);
      RecoveredClaimsHoldLeases(mid, now, duration, ids[1..]);
      var (end, rest) := RecoverAll(mid, now, duration, ids[1..]);
      FirstStaysLeased(mid, end, first, rest, db.issued, end.issued, now + duration);
    }
  }

  lemma {:induction false} FirstStaysLeased(mid: Db, end: Db, first: CycleClaim, rest: seq<CycleClaim>, from: nat,
                                            to: nat, until: Time)
    requires first.owner == from && mid.issued == from + 1 <= to && Leased(end, rest, from + 1, to, until)
    requires first.cycle in mid.cycles && first.cycle in end.cycles
    requires end.cycles[first.cycle] == mid.cycles[first.cycle]
    requires forall t: Time :: t < until ==> HasLease(mid, first, t)
    ensures Leased(end, [first] + rest, from, to, until)
  {
    var all := [first] + rest;
    forall i, t: Time | 0 <= i < |all| && t < until ensures HasLease(end, all[i], t) {
      assert i == 0 || all[i] == rest[i - 1];
      assert HasLease(mid, first, t);
    }
  }

  /** All claims a transaction hands out, and all that a run hands out. */
  function ClaimsOf(db: Db, t: Txn): seq<CycleClaim>
    requires Possible(db, t)
  {
    match t
    case ClaimTxn(now, duration, grace, agents) => ClaimDue(db, now, duration, grace, agents).1
    case RecoverTxn(now, duration, stale, ids) => RecoverAll(db, now, duration, ids).1
    case _ => []
  }

  function AllClaims(db: Db, run: seq<Txn>): seq<CycleClaim>
    requires PossibleRun(db, run)
    decreases |run|
  {
    if run == [] then [] else ClaimsOf(db, run[0]) + AllClaims(Apply(db, run[0]), run[1..])
  }

  lemma {:induction false} ClaimsHoldLeases(db: Db, t: Txn)
    requires Possible(db, t)
    ensures db.issued <= Apply(db, t).issued && OwnersWithin(ClaimsOf(db, t), db.issued, Apply(db, t).issued)
    ensures t.ClaimTxn? || t.RecoverTxn? ==>
              forall i, at: Time :: 0 <= i < |ClaimsOf(db, t)| && at < t.now + t.duration ==>
                HasLease(Apply(db, t), ClaimsOf(db, t)[i], at)
  {
    match t {
      case ClaimTxn(now, duration, grace, agents) => DueClaimsHoldLeases(db, now, duration, grace, agents);
      case RecoverTxn(now, duration, stale, ids) =>
        RecoverableIsOpen(db, t);
        RecoveredClaimsHoldLeases(db, now, duration, ids);
      case _ =>
    }
  }

  lemma {:induction false} RunOwners(db: Db, run: seq<Txn>)
    requires PossibleRun(db, run)
    ensures db.issued <= ApplyRun(db, run).issued
    ensures OwnersWithin(AllClaims(db, run), db.issued, ApplyRun(db, run).issued)
    decreases |run|
  {
    hide Apply, Possible, ClaimsOf;
    if run != [] {
      ClaimsHoldLeases(db, run[0]);
      RunOwners(Apply(db, run[0]), run[1..]);
    }
  }

  /** Whatever claims the workers of a run were handed, at any instant at most one
      of them passes the lease check on a cycle. */
  lemma {:induction false} OneHolderPerCycle(db: Db, run: seq<Txn>, i: nat, j: nat, now: Time, later: Time)
    requires PossibleRun(db, run) && i < |AllClaims(db, run)| && j < |AllClaims(db, run)|
    requires AllClaims(db, run)[i].cycle == AllClaims(db, run)[j].cycle
    requires HasLease(ApplyRun(db, run), AllClaims(db, run)[i], now)
    requires HasLease(ApplyRun(db, run), AllClaims(db, run)[j], later)
    ensures i == j
  {
    RunOwners(db, run);
  }

  // ----- what needs the lease -----

  /** Without the lease nothing but a failure report changes anything, and that only
      for the owner. */
  lemma {:induction false} LeaseIsNeeded(db: Db, t: Txn)
    requires Possible(db, t) && ClaimOf(t).Some?
    requires if t.FailTxn? then !Owns(db, t.claim) else !HasLease(db, ClaimOf(t).value, t.now)
    ensures Apply(db, t) == db
  {
  }

  /** With the lease a stage begins unless its fingerprint differs from the one it has,
      and it is the whole effect that its row runs from now on, one attempt further;
      a completed one is left alone. */
  lemma {:induction false} BeginIsExact(db: Db, c: CycleClaim, stage: Stage, mark: int, now: Time)
    requires HasLease(db, c, now)
    ensures var key, next := StepKey(c.cycle, stage), BeginStage(db, c, stage, mark, now);
            && (next.None? <==> key in db.steps && db.steps[key].fingerprint != mark)
            && (next.Some? ==>
                  && key in next.value.steps && next.value == db.(steps := db.steps[key := next.value.steps[key]])
                  && var row := next.value.steps[key];
                     if key !in db.steps
                     then (row.status.StepRunning?, row.fingerprint, row.output, row.attempts, row.startedAt)
                          == (true, mark, None, 1, now)
                     else if db.steps[key].status.StepCompleted? then row == db.steps[key]
                     else row.status.StepRunning? && row.startedAt == now && row.attempts == db.steps[key].attempts + 1
                          && row.fingerprint == mark && row.output == db.steps[key].output)
  {
  }

  /** With the lease a stage completes if and only if it is running with that
      fingerprint and, for a market freeze, its cutoff is not before the slot and
      agrees with one recorded; status, output and cutoff are the whole effect. */
  lemma {:induction false} CompleteIsExact(db: Db, c: CycleClaim, stage: Stage, mark: int, output: int, cutoff: Time,
                                           now: Time)
    requires HasLease(db, c, now)
    ensures var key, next := StepKey(c.cycle, stage), CompleteStage(db, c, stage, mark, output, cutoff, now);
            && (next.Some? <==>
                  && key in db.steps && db.steps[key].status == StepRunning && db.steps[key].fingerprint == mark
                  && (stage == MarketFreeze ==>
                        c.cycle.slot <= cutoff && db.cycles[c.cycle].cutoff in {None, Some(cutoff)}))
            && (next.Some? ==>
                  && next.value.schedules == db.schedules && next.value.issued == db.issued
                  && next.value.steps
                     == db.steps[key := db.steps[key].(status := StepCompleted, output := Some(output))]
                  && next.value.cycles == if stage != MarketFreeze then db.cycles
                                          else db.cycles[c.cycle := db.cycles[c.cycle].(cutoff := Some(cutoff))])
  {
  }

  /** The claim's lease, while it owns the cycle, ends at this time at the latest. */
  ghost predicate EndsBy(db: Db, c: CycleClaim, until: Time) {
    && c.owner < db.issued
    && (c.cycle in db.cycles && db.cycles[c.cycle].owner == Some(c.owner) && db.cycles[c.cycle].expires.Some? ==>
          db.cycles[c.cycle].expires.value <= until)
  }

  lemma {:induction false} EndStays(db: Db, t: Txn, c: CycleClaim, until: Time)
    requires Possible(db, t) && EndsBy(db, c, until)
    requires t.RenewTxn? && SameClaim(c, t.claim) ==> t.now + t.duration <= until
    ensures EndsBy(Apply(db, t), c, until)
  {
    match t {
      case ClaimTxn(now, duration, grace, agents) => ClaimDueKeeps(db, now, duration, grace, agents);
      case RecoverTxn(now, duration, stale, ids) =>
        RecoverableIsOpen(db, t);
        RecoverAllKeeps(db, now, duration, ids);
      case _ =>
    }
  }

  /** A lease ends: unless its holder renews it further, a claim passes the lease check
      at no instant from its end on, after any run of transactions by any workers. */
  lemma {:induction false} LeaseEnds(db: Db, run: seq<Txn>, c: CycleClaim, until: Time, at: Time)
    requires PossibleRun(db, run) && EndsBy(db, c, until) && until <= at
    requires forall i :: 0 <= i < |run| && run[i].RenewTxn? && SameClaim(c, run[i].claim) ==>
               run[i].now + run[i].duration <= until
    ensures !HasLease(ApplyRun(db, run), c, at)
    decreases |run|
  {
    if run != [] {
      hide Apply, Possible, EndsBy, HasLease;
      EndStays(db, run[0], c, until);
      LeaseEnds(Apply(db, run[0]), run[1..], c, until, at);
    }
  }

  /** Every claim handed out starts with such an end. */
  lemma {:induction false} ClaimsEnd(db: Db, t: Txn, i: nat)
    requires Possible(db, t) && (t.ClaimTxn? || t.RecoverTxn?) && i < |ClaimsOf(db, t)|
    ensures ClaimsOf(db, t)[i].expires == t.now + t.duration
    ensures EndsBy(Apply(db, t), ClaimsOf(db, t)[i], t.now + t.duration)
  {
    match t {
      case ClaimTxn(now, duration, grace, agents) =>
        DueClaimsHoldLeases(db, now, duration, grace, agents);
        DueClaimsEnd(db, now, duration, grace, agents, i);
      case RecoverTxn(now, duration, stale, ids) =>
        RecoverableIsOpen(db, t);
        RecoveryIsExact(db, now, duration, ids);
    }
  }

  lemma {:induction false} DueClaimsEnd(db: Db, now: Time, duration: Time, grace: Time, agents: seq<AgentId>, i: nat)
    requires DueLater(db, now, agents) && Distinct(agents) && i < |ClaimDue(db, now, duration, grace, agents).1|
    ensures var (end, claims) := ClaimDue(db, now, duration, grace, agents);
            && claims[i].expires == now + duration && claims[i].cycle in end.cycles
            && end.cycles[claims[i].cycle].expires == Some(now + duration)
    decreases |agents|
  {
    hide ClaimOne;
    var (mid, first) := ClaimOne(db, now, duration, grace, agents[0]);
    ClaimOneFrame(db, now, duration, grace, agents);
    ClaimOneRows(db, now, duration, grace, agents[0]);
    ClaimDueKeeps(mid, now, duration, grace, agents[1..]);
    var (end, claims) := ClaimDue(db, now, duration, grace, agents);
    assert claims == first + ClaimDue(mid, now, duration, grace, agents[1..]).1;
    if i >= |first| {
      DueClaimsEnd(mid, now, duration, grace, agents[1..], i - |first|);
    }
  }

  // ----- no cycle is stuck -----

  /** Just the running cycles have an owner, and with it an end of their lease, and
      an open cycle was once started. */
  ghost predicate WellLeased(db: Db) {
    forall id :: id in db.cycles ==> RunsLeased(db.cycles[id])
  }

  predicate RunsLeased(row: Cycle) {
    && row.status.Running? == row.owner.Some? == row.expires.Some?
    && (row.status in {Running, Interrupted} ==> row.startedAt.Some?)
  }

  lemma {:induction false} ClaimDueWellLeased(db: Db, now: Time, duration: Time, grace: Time, agents: seq<AgentId>)
    requires WellLeased(db) && DueLater(db, now, agents) && Distinct(agents)
    ensures WellLeased(ClaimDue(db, now, duration, grace, agents).0)
    decreases |agents|
  {
    hide ClaimOne, RunsLeased;
    if agents != [] {
      var mid := ClaimOne(db, now, duration, grace, agents[0]).0;
      ClaimOneFrame(db, now, duration, grace, agents);
      ClaimOneKeeps(db, now, duration, grace, agents[0]);
      forall id | id in mid.cycles && id !in db.cycles ensures RunsLeased(mid.cycles[id]) {
        NewRowRunsLeased(db, now, duration, grace, agents[0], id);
      }
      ClaimDueWellLeased(mid, now, duration, grace, agents[1..]);
    }
  }

  lemma {:induction false} NewRowRunsLeased(db: Db, now: Time, duration: Time, grace: Time, agent: AgentId, id: CycleId)
    requires agent in db.schedules && db.schedules[agent].next <= now
    requires id !in db.cycles && id in ClaimOne(db, now, duration, grace, agent).0.cycles
    ensures RunsLeased(ClaimOne(db, now, duration, grace, agent).0.cycles[id])
  {
    hide ClaimOne, LatestHour;
    ClaimOneRows(db, now, duration, grace, agent);
  }

  lemma {:induction false} TxnWellLeased(db: Db, t: Txn)
    requires WellLeased(db) && Possible(db, t)
    ensures WellLeased(Apply(db, t))
  {
    match t {
      case ClaimTxn(now, duration, grace, agents) => ClaimDueWellLeased(db, now, duration, grace, agents);
      case RecoverTxn(now, duration, stale, ids) =>
        RecoverableIsOpen(db, t);
        RecoveryIsExact(db, now, duration, ids);
        var end := Apply(db, t);
        forall id | id in end.cycles ensures RunsLeased(end.cycles[id]) {
          if id in ids {
            var i :| 0 <= i < |ids| && ids[i] == id;
            assert end.cycles[ids[i]].status.Running?;
          }
        }
      case _ =>
    }
  }

  lemma {:induction false} RunWellLeased(db: Db, run: seq<Txn>)
    requires WellLeased(db) && PossibleRun(db, run)
    ensures WellLeased(ApplyRun(db, run))
    decreases |run|
  {
    hide Apply, Possible, WellLeased;
    if run != [] {
      TxnWellLeased(db, run[0]);
      RunWellLeased(Apply(db, run[0]), run[1..]);
    }
  }

  /** Over every run from empty tables no open cycle is stuck or taken early: unless
      recovery goes by a stale interval, it may take over a cycle if and only if that
      is open and no claim passes the lease check on it. */
  lemma {:induction false} RecoverableExactlyWhen(run: seq<Txn>, now: Time, stale: Option<pos>, id: CycleId)
    requires PossibleRun(NEW_DB, run)
    requires var db := ApplyRun(NEW_DB, run); stale.None? || (id in db.cycles && db.cycles[id].cutoff.Some?)
    ensures var db := ApplyRun(NEW_DB, run);
            Recoverable(db, now, stale, id) <==>
              && id in db.cycles && db.cycles[id].status !in {Completed, Failed, Skipped}
              && forall c: CycleClaim | c.cycle == id :: !HasLease(db, c, now)
  {
    hide PossibleRun, ApplyRun;
    RunWellLeased(NEW_DB, run);
    var db := ApplyRun(NEW_DB, run);
    if id in db.cycles {
      assert RunsLeased(db.cycles[id]);
      if db.cycles[id].status.Running? {
        var c := CycleClaim(id, db.cycles[id].owner.value, 0, false, 0);
        assert HasLease(db, c, now) <==> db.cycles[id].expires.value > now;
      }
    }
  }

  /** Likewise an agent is due if and only if its slot has come and no claim passes the
      lease check on any cycle of it. */
  lemma {:induction false} DueExactlyWhen(run: seq<Txn>, now: Time, agent: AgentId)
    requires PossibleRun(NEW_DB, run)
    ensures var db := ApplyRun(NEW_DB, run);
            Due(db, now, agent) <==>
              && agent in db.schedules && db.schedules[agent].next <= now
              && forall c: CycleClaim | c.cycle.agent == agent :: !HasLease(db, c, now)
  {
    hide PossibleRun, ApplyRun;
    RunWellLeased(NEW_DB, run);
    var db := ApplyRun(NEW_DB, run);
    if forall c: CycleClaim | c.cycle.agent == agent :: !HasLease(db, c, now) {
      forall id | id in db.cycles && id.agent == agent && db.cycles[id].status.Running?
        ensures db.cycles[id].expires.Some? && db.cycles[id].expires.value <= now
      {
        assert RunsLeased(db.cycles[id]);
        assert !HasLease(db, CycleClaim(id, db.cycles[id].owner.value, 0, false, 0), now);
      }
    }
  }

  /** Steps belong to cycles, and a completed market freeze has recorded its cutoff. */
  ghost predicate FreezesRecorded(db: Db) {
    forall k :: k in db.steps ==>
      k.cycle in db.cycles
      && (k.stage.MarketFreeze? && db.steps[k].status.StepCompleted? ==> db.cycles[k.cycle].cutoff.Some?)
  }

  lemma {:induction false} TxnFreezesRecorded(db: Db, t: Txn)
    requires FreezesRecorded(db) && Possible(db, t)
    ensures FreezesRecorded(Apply(db, t))
  {
    match t {
      case ClaimTxn(now, duration, grace, agents) => ClaimDueKeeps(db, now, duration, grace, agents);
      case RecoverTxn(now, duration, stale, ids) =>
        RecoverableIsOpen(db, t);
        RecoverAllKeeps(db, now, duration, ids);
        RecoverySteps(db, now, duration, ids);
      case _ =>
    }
  }

  lemma {:induction false} RunFreezesRecorded(db: Db, run: seq<Txn>)
    requires FreezesRecorded(db) && PossibleRun(db, run)
    ensures FreezesRecorded(ApplyRun(db, run))
    decreases |run|
  {
    hide Apply, Possible, FreezesRecorded;
    if run != [] {
      TxnFreezesRecorded(db, run[0]);
      RunFreezesRecorded(Apply(db, run[0]), run[1..]);
    }
  }

  /** When the market freeze of a cycle was last begun, or else the cycle started. */
  function FreezeBegun(db: Db, id: CycleId): Time
    requires id in db.cycles && db.cycles[id].startedAt.Some?
  {
    var freeze := StepKey(id, MarketFreeze);
    if freeze in db.steps then db.steps[freeze].startedAt else db.cycles[id].startedAt.value
  }

  /** With a stale interval a cycle without a cutoff may be taken over if and only if it
      is open, and no claim passes the lease check on it or its freeze was begun, or
      else the cycle started, at least that interval ago. */
  lemma {:induction false} StaleExactlyWhen(run: seq<Txn>, now: Time, stale: pos, id: CycleId)
    requires PossibleRun(NEW_DB, run)
    requires var db := ApplyRun(NEW_DB, run); id in db.cycles && db.cycles[id].cutoff.None?
    ensures var db := ApplyRun(NEW_DB, run);
            && (db.cycles[id].status in {Running, Interrupted} ==> db.cycles[id].startedAt.Some?)
            && (Recoverable(db, now, Some(stale), id) <==>
                  && db.cycles[id].status in {Running, Interrupted}
                  && (|| FreezeBegun(db, id) + stale <= now
                      || forall c: CycleClaim | c.cycle == id :: !HasLease(db, c, now)))
  {
    hide PossibleRun, ApplyRun, HasLease;
    RunWellLeased(NEW_DB, run);
    RunFreezesRecorded(NEW_DB, run);
    RecoverableExactlyWhen(run, now, None, id);
    var db := ApplyRun(NEW_DB, run);
    assert RunsLeased(db.cycles[id]);
  }

  // ----- what a holder can rely on, whatever the others do -----

  /** The claim owns its running cycle until at least this time. */
  ghost predicate Holds(db: Db, c: CycleClaim, until: Time) {
    Owns(db, c) && db.cycles[c.cycle].expires.Some? && until <= db.cycles[c.cycle].expires.value
  }

  predicate SameClaim(c: CycleClaim, d: CycleClaim) {
    c.cycle == d.cycle && c.owner == d.owner
  }

  /** A transaction before the end of the lease that is not its holder's own finish,
      failure or shortening. Before the cutoff is recorded, recovery must not use a
      stale interval. */
  ghost predicate Respects(t: Txn, c: CycleClaim, until: Time, frozen: bool) {
    match t
    case RecoverTxn(now, _, stale, _) => now < until && (frozen || stale.None?)
    case RenewTxn(d, now, duration) => SameClaim(c, d) ==> until <= now + duration
    case FinishTxn(d, _) => !SameClaim(c, d)
    case FailTxn(d, _) => !SameClaim(c, d)
    case _ => true
  }

  lemma {:induction false} RenewMovesTheEnd(db: Db, c: CycleClaim, now: Time, duration: Time, until: Time)
    ensures Renew(db, c, now, duration).Some? <==> HasLease(db, c, now)
    ensures HasLease(db, c, now) ==> (Holds(Renew(db, c, now, duration).value, c, until) <==> until <= now + duration)
  {
  }

  /** Until its lease ends nobody takes a cycle from its holder: over every run of
      transactions by any workers, stale ones included, the holder still passes the
      lease check, however often the lease was renewed. */
  lemma {:induction false} HolderKeepsLease(db: Db, run: seq<Txn>, c: CycleClaim, until: Time, frozen: bool)
    requires PossibleRun(db, run) && Holds(db, c, until) && (frozen ==> db.cycles[c.cycle].cutoff.Some?)
    requires forall i :: 0 <= i < |run| ==> Respects(run[i], c, until, frozen)
    ensures Holds(ApplyRun(db, run), c, until)
    ensures forall at: Time :: at < until ==> HasLease(ApplyRun(db, run), c, at)
    decreases |run|
  {
    if run != [] {
      hide Apply, Possible, Holds, Respects;
      HolderKeepsLeaseOnce(db, run[0], c, until, frozen);
      HolderKeepsLease(Apply(db, run[0]), run[1..], c, until, frozen);
    }
  }

  lemma {:induction false} HolderKeepsLeaseOnce(db: Db, t: Txn, c: CycleClaim, until: Time, frozen: bool)
    requires Possible(db, t) && Holds(db, c, until) && (frozen ==> db.cycles[c.cycle].cutoff.Some?)
    requires Respects(t, c, until, frozen)
    ensures var end := Apply(db, t); Holds(end, c, until) && (frozen ==> end.cycles[c.cycle].cutoff.Some?)
  {
    match t {
      case ClaimTxn(now, duration, grace, agents) => ClaimDueKeeps(db, now, duration, grace, agents);
      case RecoverTxn(now, duration, stale, ids) =>
        RecoverableIsOpen(db, t);
        assert !Recoverable(db, now, stale, c.cycle);
        RecoverAllKeeps(db, now, duration, ids);
      case RenewTxn(d, now, duration) => RenewMovesTheEnd(db, d, now, duration, until);
      case _ =>
    }
  }

  /** A stage begun and completed under the lease is stored as given; beginning it
      again changes nothing, and another fingerprint or a second output is refused. */
  lemma {:induction false} CheckpointIsStored(db: Db, c: CycleClaim, stage: Stage, mark: int, output: int,
                                              cutoff: Time, t1: Time, t2: Time)
    requires HasLease(db, c, t1) && HasLease(db, c, t2) && BeginStage(db, c, stage, mark, t1).Some?
    requires StepKey(c.cycle, stage) !in db.steps || !db.steps[StepKey(c.cycle, stage)].status.StepCompleted?
    requires stage.MarketFreeze? ==>
               c.cycle.slot <= cutoff && (db.cycles[c.cycle].cutoff.Some? ==> db.cycles[c.cycle].cutoff.value == cutoff)
    ensures var began := BeginStage(db, c, stage, mark, t1).value;
            var done := CompleteStage(began, c, stage, mark, output, cutoff, t2);
            && done.Some? && StepKey(c.cycle, stage) in done.value.steps && c.cycle in done.value.cycles
            && done.value.steps[StepKey(c.cycle, stage)].output == Some(output)
            && done.value.steps[StepKey(c.cycle, stage)].fingerprint == mark
            && done.value.steps[StepKey(c.cycle, stage)].status.StepCompleted?
            && (stage.MarketFreeze? ==> done.value.cycles[c.cycle].cutoff == Some(cutoff))
            && (forall again: int :: BeginStage(done.value, c, stage, again, t2)
                  == if again == mark then done else None)
            && (forall next: int, other: Time :: CompleteStage(done.value, c, stage, mark, next, other, t2) == None)
  {
  }

  /** And it stays stored, with its output, fingerprint and cutoff, over every run of
      later transactions, while no later completion of that stage by any claim is
      accepted. */
  lemma {:induction false} CheckpointIsForever(db: Db, c: CycleClaim, stage: Stage, mark: int, output: int,
                                               cutoff: Time, t1: Time, t2: Time, run: seq<Txn>)
    requires HasLease(db, c, t1) && HasLease(db, c, t2) && BeginStage(db, c, stage, mark, t1).Some?
    requires StepKey(c.cycle, stage) !in db.steps || !db.steps[StepKey(c.cycle, stage)].status.StepCompleted?
    requires stage.MarketFreeze? ==>
               c.cycle.slot <= cutoff && (db.cycles[c.cycle].cutoff.Some? ==> db.cycles[c.cycle].cutoff.value == cutoff)
    ensures var done := CompleteStage(BeginStage(db, c, stage, mark, t1).value, c, stage, mark, output, cutoff, t2);
            && done.Some?
            && (PossibleRun(done.value, run) ==>
                  var end, key := ApplyRun(done.value, run), StepKey(c.cycle, stage);
                  && key in end.steps && end.steps[key].status.StepCompleted?
                  && end.steps[key].output == Some(output) && end.steps[key].fingerprint == mark
                  && (stage.MarketFreeze? ==> c.cycle in end.cycles && end.cycles[c.cycle].cutoff == Some(cutoff))
                  && (forall d: CycleClaim, m: int, o: int, other: Time, at: Time | d.cycle == c.cycle ::
                        CompleteStage(end, d, stage, m, o, other, at) == None))
  {
    hide BeginStage, CompleteStage, PossibleRun, ApplyRun, HasLease;
    CheckpointIsStored(db, c, stage, mark, output, cutoff, t1, t2);
    var done := CompleteStage(BeginStage(db, c, stage, mark, t1).value, c, stage, mark, output, cutoff, t2).value;
    if PossibleRun(done, run) {
      RunKeeps(done, run);
      forall d: CycleClaim, m: int, o: int, other: Time, at: Time | d.cycle == c.cycle
        ensures CompleteStage(ApplyRun(done, run), d, stage, m, o, other, at) == None
      {
        CompletedIsRefused(ApplyRun(done, run), d, stage, m, o, other, at);
      }
    }
  }

  lemma {:induction false} CompletedIsRefused(db: Db, c: CycleClaim, stage: Stage, mark: int, output: int, cutoff: Time,
                                              now: Time)
    requires StepKey(c.cycle, stage) in db.steps && db.steps[StepKey(c.cycle, stage)].status.StepCompleted?
    ensures CompleteStage(db, c, stage, mark, output, cutoff, now) == None
  {
  }

  /** Failing closes the cycle, or leaves it to recovery while no cutoff is recorded,
      with no step left running and other rows untouched. */
  lemma {:induction false} FailureIsClean(db: Db, c: CycleClaim, now: Time, at: Time, stale: Option<pos>)
    requires Owns(db, c) && c.cycle.slot <= now
    ensures FailCycle(db, c, now).Some?
    ensures var end := FailCycle(db, c, now).value;
            && c.cycle in end.cycles && Terminal(end.cycles[c.cycle].status) == db.cycles[c.cycle].cutoff.Some?
            && end.cycles[c.cycle].owner == end.cycles[c.cycle].expires == None
            && (Recoverable(end, at, stale, c.cycle) <==> db.cycles[c.cycle].cutoff.None?)
            && end.cycles - {c.cycle} == db.cycles - {c.cycle}
            && end.steps.Keys == db.steps.Keys
            && (forall k :: k in end.steps ==>
                  if k.cycle == c.cycle && db.steps[k].status.StepRunning?
                  then end.steps[k] == db.steps[k].(status := StepFailed) else end.steps[k] == db.steps[k])
  {
  }

  /** A cycle failed after its cutoff is closed for good: whatever runs after, its row
      stays as the failure left it, and no claim leases it and no recovery takes it. */
  lemma {:induction false} FailedForever(db: Db, c: CycleClaim, now: Time, run: seq<Txn>, other: CycleClaim,
                                         at: Time, stale: Option<pos>)
    requires Owns(db, c) && c.cycle.slot <= now && db.cycles[c.cycle].cutoff.Some?
    requires FailCycle(db, c, now).Some? && PossibleRun(FailCycle(db, c, now).value, run)
    requires other.cycle == c.cycle
    ensures var end := ApplyRun(FailCycle(db, c, now).value, run);
            && c.cycle in end.cycles && end.cycles[c.cycle] == FailCycle(db, c, now).value.cycles[c.cycle]
            && end.cycles[c.cycle].status.Failed?
            && !HasLease(end, other, at) && !Recoverable(end, at, stale, c.cycle)
  {
    FailureIsClean(db, c, now, at, stale);
    RunKeeps(FailCycle(db, c, now).value, run);
  }

  /** Completing needs the lease, a recorded cutoff and a time not before the slot. A
      completed cycle is never recovered, and no claim holds a lease on it again,
      whatever runs after. */
  lemma {:induction false} FinishedForever(db: Db, c: CycleClaim, now: Time, run: seq<Txn>, other: CycleClaim,
                                           at: Time, stale: Option<pos>)
    requires CompleteCycle(db, c, now).Some? && PossibleRun(CompleteCycle(db, c, now).value, run)
    requires other.cycle == c.cycle
    ensures HasLease(db, c, now) && db.cycles[c.cycle].cutoff.Some? && c.cycle.slot <= now
    ensures var end := ApplyRun(CompleteCycle(db, c, now).value, run);
            && c.cycle in end.cycles
            && end.cycles[c.cycle] == db.cycles[c.cycle].(status := Completed, owner := None, expires := None)
            && !HasLease(end, other, at) && !Recoverable(end, at, stale, c.cycle)
  {
    RunKeeps(CompleteCycle(db, c, now).value, run);
  }
}
