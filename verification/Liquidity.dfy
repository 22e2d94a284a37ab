/** Best-level haircut of a captured ladder and the audit of what fills consume
    (src/vtrade/liquidity.py). */
module Liquidity {
  import opened Domain
  import opened Fees
  import opened Planning

  datatype LiquidityError = NoLiquidity | BestLevelTooLarge | TailTooSmall
                          | FillExceedsDepth | FillsExceedRequest | InvalidAudit

  datatype LevelAudit = LevelAudit(
    index: int, price: int, raw: int, ignored: int, effective: int, consumed: int, cancelled: int, remaining: int)

  datatype HaircutAudit = HaircutAudit(
    raw: int, ignored: int, effective: int, consumed: int, cancelled: int, remaining: int,
    levels: seq<LevelAudit>, capturedCount: nat, effectiveCount: nat)

  const MAXIMUM_OBSERVED_LEVELS := 6
  const MAXIMUM_EFFECTIVE_LEVELS := 5

  // ----- audit validity, as the constructors check it -----

  predicate ValidLevelAudit(a: LevelAudit) {
    && 0 <= a.index && 0 < a.raw && 0 <= a.ignored <= a.raw
    && a.effective == a.raw - a.ignored
    && 0 <= a.consumed <= a.effective && 0 <= a.cancelled
    && a.remaining == a.effective - a.consumed
  }

  datatype Column = Raw | Ignored | Effective | Consumed

  function Cell(a: LevelAudit, c: Column): int {
    match c
    case Raw => a.raw
    case Ignored => a.ignored
    case Effective => a.effective
    case Consumed => a.consumed
  }

  function SumColumn(levels: seq<LevelAudit>, c: Column): int {
    if levels == [] then 0 else Cell(levels[0], c) + SumColumn(levels[1..], c)
  }

  predicate ValidAudit(a: HaircutAudit) {
    && 0 <= a.raw && 0 <= a.ignored && 0 <= a.effective && 0 <= a.consumed && 0 <= a.cancelled && 0 <= a.remaining
    && a.ignored + a.effective == a.raw
    && a.consumed + a.remaining == a.effective
    && SumColumn(a.levels, Raw) == a.raw
    && SumColumn(a.levels, Ignored) == a.ignored
    && SumColumn(a.levels, Effective) == a.effective
    && SumColumn(a.levels, Consumed) == a.consumed
  }

  // ----- applying the haircut -----

  function Depth(levels: seq<Level>): int {
    if levels == [] then 0 else levels[0].quantity + Depth(levels[1..])
  }

  function Upto(levels: seq<Level>, n: nat): seq<Level> {
    if |levels| <= n then levels else levels[..n]
  }

  /** Audit rows of the captured levels from index i on; row 0 is ignored whole. */
  function Rows(captured: seq<Level>, i: nat): (rows: seq<LevelAudit>)
    requires i <= |captured|
    ensures |rows| == |captured| - i
    ensures forall k :: 0 <= k < |rows| ==>
              && rows[k].index == i + k && rows[k].price == captured[i + k].price
              && rows[k].raw == captured[i + k].quantity && rows[k].ignored == rows[k].raw - rows[k].effective
              && rows[k].effective == (if i + k == 0 then 0 else captured[i + k].quantity)
    decreases |captured| - i
  {
    if i == |captured| then []
    else
      var q := captured[i].quantity;
      [if i == 0 then LevelAudit(0, captured[0].price, q, q, 0, 0, 0, 0)
       else LevelAudit(i, captured[i].price, q, 0, q, 0, 0, q)] + Rows(captured, i + 1)
  }

  /** apply_best_level_haircut over the side of the book the order trades against. */
  function ApplyHaircut(source: seq<Level>): Result<(seq<Level>, HaircutAudit), LiquidityError>
    requires ValidLevels(source)
  {
    var captured := Upto(source, MAXIMUM_OBSERVED_LEVELS);
    if captured == [] then Failure(NoLiquidity)
    else
      var raw := Depth(captured);
      var ignored := captured[0].quantity;
      if ignored * 2 > raw then Failure(BestLevelTooLarge)
      else
        var effective := Upto(captured[1..], MAXIMUM_EFFECTIVE_LEVELS);
        var total := Depth(effective);
        if total * 2 < raw then Failure(TailTooSmall)
        else
          var audit := HaircutAudit(raw, ignored, total, 0, 0, total, Rows(captured, 0), |captured|, |effective|);
          if ValidAudit(audit) then Success((effective, audit)) else Failure(InvalidAudit)
  }

  lemma {:induction false} RowSums(captured: seq<Level>, i: nat)
    requires i <= |captured|
    ensures var rows := Rows(captured, i);
            && SumColumn(rows, Raw) == Depth(captured[i..])
            && SumColumn(rows, Consumed) == 0
            && (0 < i ==> SumColumn(rows, Ignored) == 0 && SumColumn(rows, Effective) == Depth(captured[i..]))
    decreases |captured| - i
  {
    if i < |captured| {
      RowSums(captured, i + 1);
      assert captured[i..][1..] == captured[i+1..];
      assert Rows(captured, i)[1..] == Rows(captured, i + 1);
    }
  }

  /** The haircut succeeds exactly when the best of at most six captured levels
      holds no more than half their depth. The second 50% test says the same and
      never fires, the audit is always valid, and the ladder it exposes is the
      captured one without its best level. */
  lemma {:induction false} HaircutKeepsHalf(source: seq<Level>)
    requires ValidLevels(source)
    ensures var captured := Upto(source, 6);
            match ApplyHaircut(source)
            case Failure(NoLiquidity) => source == []
            case Failure(BestLevelTooLarge) => source != [] && 2 * source[0].quantity > Depth(captured)
            case Failure(_) => false
            case Success(found) =>
              && source != [] && 2 * source[0].quantity <= Depth(captured) <= 2 * Depth(found.0)
              && found.0 == captured[1..] && found.1.effective == Depth(found.0)
              && found.1.levels == Rows(captured, 0) && ValidAudit(found.1) && found.1.consumed == 0
  {
    var captured := Upto(source, 6);
    if captured != [] {
      RowSums(captured, 0);
      RowSums(captured, 1);
      assert captured[0..] == captured;
      assert Rows(captured, 0)[1..] == Rows(captured, 1);
      DepthNotNegative(captured[1..]);
    }
  }

  lemma {:induction false} DepthNotNegative(levels: seq<Level>)
    requires ValidLevels(levels)
    ensures Depth(levels) >= 0
  {
    if levels != [] {
      DepthNotNegative(levels[1..]);
    }
  }

  // ----- what fills consume -----

  function Get(m: map<nat, int>, k: int): int {
    if 0 <= k && k in m then m[k] else 0
  }

  /** The level rows with their consumed quantity set. */
  function Updated(levels: seq<LevelAudit>, consumed: map<nat, int>): seq<LevelAudit> {
    if levels == [] then []
    else
      var used := Get(consumed, levels[0].index);
      [levels[0].(consumed := used, cancelled := 0, remaining := levels[0].effective - used)]
      + Updated(levels[1..], consumed)
  }

  predicate WithinDepth(levels: seq<LevelAudit>, consumed: map<nat, int>) {
    forall k :: 0 <= k < |levels| ==> 0 <= Get(consumed, levels[k].index) <= levels[k].effective
  }

  /** HaircutAudit.after_fills. */
  function AfterFills(audit: HaircutAudit, consumed: map<nat, int>, requested: nat)
    : Result<HaircutAudit, LiquidityError>
  {
    if !WithinDepth(audit.levels, consumed) then Failure(FillExceedsDepth)
    else
      var levels := Updated(audit.levels, consumed);
      var total := SumColumn(levels, Consumed);
      if total > requested then Failure(FillsExceedRequest)
      else
        var after := audit.(consumed := total, cancelled := requested - total,
                            remaining := audit.effective - total, levels := levels);
        if ValidAudit(after) && forall k :: 0 <= k < |levels| ==> ValidLevelAudit(levels[k])
        then Success(after) else Failure(InvalidAudit)
  }

  /** Consumed units by ladder index, as the broker collects them from its fills. */
  function ConsumedBy(lots: seq<Lot>): map<nat, int> {
    if lots == [] then map[] else ConsumedBy(lots[1..])[lots[0].level := lots[0].units]
  }

  /** Lots in strictly rising level order, none below a bound. */
  ghost predicate Rising(lots: seq<Lot>, low: nat, high: nat) {
    && (forall k :: 0 <= k < |lots| ==> low <= lots[k].level < high)
    && (forall k, l :: 0 <= k < l < |lots| ==> lots[k].level < lots[l].level)
  }

  lemma {:induction false} ConsumedAt(lots: seq<Lot>, low: nat, high: nat)
    requires Rising(lots, low, high)
    ensures forall l :: l in ConsumedBy(lots) <==> exists k :: 0 <= k < |lots| && lots[k].level == l
    ensures forall k :: 0 <= k < |lots| ==>
              lots[k].level in ConsumedBy(lots) && ConsumedBy(lots)[lots[k].level] == lots[k].units
  {
    if lots != [] {
      ConsumedAt(lots[1..], low, high);
    }
  }

  lemma {:induction false} UpdatedShape(levels: seq<LevelAudit>, consumed: map<nat, int>)
    ensures var u := Updated(levels, consumed);
            && |u| == |levels|
            && (forall k :: 0 <= k < |u| ==> u[k] == levels[k].(
                  consumed := Get(consumed, levels[k].index), cancelled := 0,
                  remaining := levels[k].effective - Get(consumed, levels[k].index)))
            && (forall c: Column :: c != Consumed ==> SumColumn(u, c) == SumColumn(levels, c))
  {
    if levels != [] {
      UpdatedShape(levels[1..], consumed);
      assert Updated(levels, consumed)[1..] == Updated(levels[1..], consumed);
    }
  }

  /** What the rows from i on consume is what the lots from level i on hold. */
  lemma {:induction false} ConsumedTotal(captured: seq<Level>, i: nat, lots: seq<Lot>, consumed: map<nat, int>)
    requires i <= |captured| && Rising(lots, i, |captured|)
    requires forall l: nat :: i <= l ==> Get(consumed, l) == Get(ConsumedBy(lots), l)
    ensures SumColumn(Updated(Rows(captured, i), consumed), Consumed) == TotalUnits(lots)
    decreases |captured| - i
  {
    if i == |captured| {
      assert lots == [];
      return;
    }
    hide Rows, Updated, SumColumn, ConsumedBy, Rising;
    var rest := HeadConsumed(i, |captured|, lots);
    ConsumedTotal(captured, i + 1, rest, consumed);
    UpdatedHead(captured, i, consumed);
  }

  /** What level i takes of rising lots, and the lots after it. */
  lemma {:induction false} HeadConsumed(i: nat, high: nat, lots: seq<Lot>) returns (rest: seq<Lot>)
    requires Rising(lots, i, high)
    ensures Rising(rest, i + 1, high)
    ensures TotalUnits(lots) == Get(ConsumedBy(lots), i) + TotalUnits(rest)
    ensures forall l: nat :: i < l ==> Get(ConsumedBy(lots), l) == Get(ConsumedBy(rest), l)
  {
    if lots != [] && lots[0].level == i {
      rest := lots[1..];
      assert ConsumedBy(lots) == ConsumedBy(rest)[i := lots[0].units];
    } else {
      hide ConsumedBy, TotalUnits;
      rest := lots;
      LaterLots(i, high, lots);
    }
  }

  lemma {:induction false} LaterLots(i: nat, high: nat, lots: seq<Lot>)
    requires Rising(lots, i, high) && (lots == [] || lots[0].level != i)
    ensures Rising(lots, i + 1, high) && i !in ConsumedBy(lots)
  {
    hide ConsumedBy;
    ConsumedAt(lots, i, high);
  }

  lemma {:induction false} UpdatedHead(captured: seq<Level>, i: nat, consumed: map<nat, int>)
    requires i < |captured|
    ensures SumColumn(Updated(Rows(captured, i), consumed), Consumed)
         == Get(consumed, i) + SumColumn(Updated(Rows(captured, i + 1), consumed), Consumed)
  {
    var rows := Rows(captured, i);
    assert rows[1..] == Rows(captured, i + 1);
    assert Updated(rows, consumed)[1..] == Updated(rows[1..], consumed);
  }

  /** Fills planned on the haircut ladder always pass the audit: plan levels and
      audit rows line up, so after_fills cannot raise, and it accounts for
      exactly the filled and the cancelled units. */
  lemma {:induction false} FillsAlwaysPassAudit(source: seq<Level>, r: OrderRequest, lots: seq<Lot>, requested: nat)
    requires ValidLevels(source) && ApplyHaircut(source).Success?
    requires FromLadder(r, lots, ApplyHaircut(source).value.0, 0) && TotalUnits(lots) <= requested
    ensures var after := AfterFills(ApplyHaircut(source).value.1, ConsumedBy(lots), requested);
            && after.Success?
            && after.value.consumed == TotalUnits(lots)
            && after.value.cancelled == requested - TotalUnits(lots)
            && after.value.consumed + after.value.remaining == Depth(ApplyHaircut(source).value.0)
            && forall k :: 0 <= k < |lots| ==>
                 lots[k].level < |after.value.levels| && after.value.levels[lots[k].level].consumed == lots[k].units
  {
    HaircutKeepsHalf(source);
    hide ApplyHaircut, AfterFills, ConsumedBy, Rows, SumColumn, ValidAudit, Depth;
    var found := ApplyHaircut(source).value;
    var captured := Upto(source, MAXIMUM_OBSERVED_LEVELS);
    assert forall k :: 0 <= k < |lots| ==> found.0[lots[k].level - 1] == captured[lots[k].level];
    RowsPassAudit(captured, found.1, lots, requested);
  }

  /** The same for any valid audit over captured rows. */
  lemma {:induction false} RowsPassAudit(captured: seq<Level>, audit: HaircutAudit, lots: seq<Lot>, requested: nat)
    requires ValidLevels(captured) && ValidAudit(audit) && audit.levels == Rows(captured, 0)
    requires ValidLots(lots) && TotalUnits(lots) <= requested && Rising(lots, 1, |captured|)
    requires forall k :: 0 <= k < |lots| ==> lots[k].units <= captured[lots[k].level].quantity
    ensures var after := AfterFills(audit, ConsumedBy(lots), requested);
            && after.Success?
            && after.value.consumed == TotalUnits(lots)
            && after.value.cancelled == requested - TotalUnits(lots)
            && after.value.consumed + after.value.remaining == audit.effective
            && forall k :: 0 <= k < |lots| ==>
                 lots[k].level < |after.value.levels| && after.value.levels[lots[k].level].consumed == lots[k].units
  {
    hide ConsumedBy, Rows, SumColumn, TotalUnits, Rising;
    var consumed := ConsumedBy(lots);
    LotsWithinRows(captured, audit, lots);
    ConsumedTotal(captured, 0, lots, consumed);
    UpdatedShape(audit.levels, consumed);
    UsedWithinDepth(Updated(audit.levels, consumed));
  }

  lemma {:induction false} LotsWithinRows(captured: seq<Level>, audit: HaircutAudit, lots: seq<Lot>)
    requires ValidLevels(captured) && audit.levels == Rows(captured, 0)
    requires ValidLots(lots) && Rising(lots, 1, |captured|)
    requires forall k :: 0 <= k < |lots| ==> lots[k].units <= captured[lots[k].level].quantity
    ensures Rising(lots, 0, |captured|) && WithinDepth(audit.levels, ConsumedBy(lots))
    ensures forall k :: 0 <= k < |lots| ==>
              lots[k].level < |captured| && Get(ConsumedBy(lots), lots[k].level) == lots[k].units
  {
    hide ConsumedBy, Rows;
    ConsumedAt(lots, 0, |captured|);
    forall k: nat | k < |audit.levels| {
      LotWithinRow(captured, lots, k);
    }
  }

  lemma {:induction false} LotWithinRow(captured: seq<Level>, lots: seq<Lot>, k: nat)
    requires ValidLevels(captured) && k < |captured| && ValidLots(lots) && Rising(lots, 1, |captured|)
    requires forall j :: 0 <= j < |lots| ==> lots[j].units <= captured[lots[j].level].quantity
    ensures 0 <= Get(ConsumedBy(lots), k) <= if k == 0 then 0 else captured[k].quantity
  {
    hide ConsumedBy;
    ConsumedAt(lots, 0, |captured|);
    if k in ConsumedBy(lots) {
      var j :| 0 <= j < |lots| && lots[j].level == k;
    }
  }

  /** Rows that each stay within their depth do so in total. */
  lemma {:induction false} UsedWithinDepth(rows: seq<LevelAudit>)
    requires forall k :: 0 <= k < |rows| ==> rows[k].consumed <= rows[k].effective
    ensures SumColumn(rows, Consumed) <= SumColumn(rows, Effective)
  {
    if rows != [] {
      UsedWithinDepth(rows[1..]);
    }
  }

  // ----- exactly which consumption passes the audit -----

  /** Units consumed on the first n rows. */
  function ConsumedSum(consumed: map<nat, int>, n: nat): int {
    if n == 0 then 0 else ConsumedSum(consumed, n - 1) + Get(consumed, n - 1)
  }

  /** The audit of captured rows takes any consumption, whoever computed it, that
      leaves the best level alone, stays within every other level, and in total
      within the request; and it says which of these fails. */
  lemma {:induction false} AuditPassesExactlyWhen(captured: seq<Level>, audit: HaircutAudit, consumed: map<nat, int>,
                                                  requested: nat)
    requires ValidLevels(captured) && ValidAudit(audit) && audit.levels == Rows(captured, 0)
    ensures var r, total := AfterFills(audit, consumed, requested), ConsumedSum(consumed, |captured|);
            var within := forall i :: 0 <= i < |captured| ==>
                            0 <= Get(consumed, i) <= if i == 0 then 0 else captured[i].quantity;
            && (r == Failure(FillExceedsDepth) <==> !within)
            && (r == Failure(FillsExceedRequest) <==> within && requested < total)
            && (r.Success? <==> within && total <= requested)
            && (r.Success? ==> r.value.consumed == total && r.value.cancelled == requested - total
                               && r.value.remaining == audit.effective - total)
  {
    hide Rows, SumColumn;
    SumOfConsumed(captured, 0, consumed);
    UpdatedShape(audit.levels, consumed);
    RowsAreWithin(captured, consumed);
    var levels := Updated(audit.levels, consumed);
    if WithinDepth(audit.levels, consumed) {
      UsedWithinDepth(levels);
      NothingNegative(levels);
    }
  }

  lemma {:induction false} RowsAreWithin(captured: seq<Level>, consumed: map<nat, int>)
    ensures WithinDepth(Rows(captured, 0), consumed) <==>
              forall i :: 0 <= i < |captured| ==> 0 <= Get(consumed, i) <= if i == 0 then 0 else captured[i].quantity
  {
    var rows := Rows(captured, 0);
    if WithinDepth(rows, consumed) {
      forall i | 0 <= i < |captured| ensures 0 <= Get(consumed, i) <= if i == 0 then 0 else captured[i].quantity {
        assert rows[i].index == i;
      }
    }
  }

  lemma {:induction false} NothingNegative(rows: seq<LevelAudit>)
    requires forall k :: 0 <= k < |rows| ==> 0 <= rows[k].consumed
    ensures 0 <= SumColumn(rows, Consumed)
  {
    if rows != [] {
      NothingNegative(rows[1..]);
    }
  }

  lemma {:induction false} SumOfConsumed(captured: seq<Level>, i: nat, consumed: map<nat, int>)
    requires i <= |captured|
    ensures SumColumn(Updated(Rows(captured, i), consumed), Consumed)
         == ConsumedSum(consumed, |captured|) - ConsumedSum(consumed, i)
    decreases |captured| - i
  {
    if i < |captured| {
      hide Rows, Updated, SumColumn;
      UpdatedHead(captured, i, consumed);
      SumOfConsumed(captured, i + 1, consumed);
    }
  }
}
