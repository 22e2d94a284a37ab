/** The exact quadratic fee: integer arithmetic per fill, and a sub-cent
    accumulator and rebate carried from fill to fill (src/vtrade/broker.py). */
module Fees {
  import opened Arithmetic
  import opened Domain

  /** Resolved multiplier and rate of a policy snapshot, and its waiver flag. */
  datatype FeePolicy = FeePolicy(multNum: nat, multDen: pos, rateNum: nat, rateDen: pos, waiver: bool)

  /** A quantity at a price: one planned or confirmed fill. `level` is the
      position of its price level on the captured ladder. */
  datatype Lot = Lot(level: nat, price: int, units: int)

  predicate ValidLot(l: Lot) {
    0 < l.units && 0 <= l.price <= DOLLAR_MICROS
  }

  datatype FeeCalculation = FeeCalculation(
    gross: nat, rawNanos: int, tradeFee: int, roundingFee: int, rebate: int, netFee: int,
    posted: int, accumulatorBefore: int, accumulatorAfter: int)

  datatype FeeError = QuantityNotPositive | PriceOutsideRange | AccumulatorNotSubCent
                    | FeeUnderstated | NegativeNetFee

  // ----- one fill -----

  /** Policy- and price-dependent factor of the raw fee. */
  function FeeFactor(price: Price, policy: FeePolicy): nat {
    Mul(Mul(policy.multNum, policy.rateNum), Mul(price, DOLLAR_MICROS - price))
  }

  function Numerator(units: nat, price: Price, policy: FeePolicy): nat {
    Mul(units, FeeFactor(price, policy))
  }

  function Denominator(policy: FeePolicy): pos {
    DenominatorPositive(policy);
    Mul(policy.multDen, policy.rateDen) * 100 * DOLLAR_MICROS
  }

  lemma {:induction false} DenominatorPositive(policy: FeePolicy)
    ensures Mul(policy.multDen, policy.rateDen) > 0
  {
    MulMonotone(1, policy.multDen, policy.rateDen);
  }

  /** The raw fee, rounded up to a micro-dollar. */
  function RawCeil(units: nat, price: Price, policy: FeePolicy): nat {
    if Numerator(units, price, policy) == 0 then 0
    else CeilDiv(Numerator(units, price, policy), Denominator(policy))
  }

  /** The next whole cent at or above an amount. */
  function CentCeil(amount: nat): nat {
    (amount + CENT_MICROS - 1) / CENT_MICROS * CENT_MICROS
  }

  function TradeFee(units: nat, price: Price, policy: FeePolicy): int {
    var gross := GrossCash(units, price);
    var num := Numerator(units, price, policy);
    if policy.waiver || num == 0 then 0
    else CentCeil(CeilDiv(gross * Denominator(policy) + num, Denominator(policy))) - gross
  }

  /** Gross cash as a balance change: out for a BUY, in for a SELL. */
  function Signed(gross: int, action: Side): int {
    if action.Sell? then gross else -gross
  }

  /** The record of one fill, before the guards. */
  function Charge(units: nat, price: Price, policy: FeePolicy, action: Side, before: nat): FeeCalculation {
    Align(GrossCash(units, price), TradeFee(units, price, policy), RawNanos(units, price, policy), action, before)
  }

  function RawNanos(units: nat, price: Price, policy: FeePolicy): int {
    Numerator(units, price, policy) * 1000 / Denominator(policy)
  }

  /** Post the balance change on a cent boundary, and hand whole accumulated
      cents back as a rebate that may not exceed the fee itself. */
  function Align(gross: nat, trade: int, rawNanos: int, action: Side, before: nat): FeeCalculation {
    var balance := Signed(gross, action) - trade;
    var postedFloor := balance / CENT_MICROS * CENT_MICROS;
    var rounding := balance - postedFloor;
    var accumulated := before + rounding;
    var fullCents := accumulated / CENT_MICROS * CENT_MICROS;
    var rebate := if fullCents <= trade + rounding then fullCents else trade + rounding;
    FeeCalculation(
      gross, rawNanos, trade, rounding, rebate, trade + rounding - rebate, postedFloor + rebate,
      before, accumulated - rebate)
  }

  /** ExactFeeCalculator.calculate with every guard it carries. */
  function Calculate(units: int, price: int, policy: FeePolicy, action: Side, before: int)
    : Result<FeeCalculation, FeeError>
  {
    if units <= 0 then Failure(QuantityNotPositive)
    else if !(0 <= price <= DOLLAR_MICROS) then Failure(PriceOutsideRange)
    else if before < 0 || before >= CENT_MICROS then Failure(AccumulatorNotSubCent)
    else
      var c := Charge(units, price, policy, action, before);
      if !policy.waiver && c.tradeFee < RawCeil(units, price, policy) then Failure(FeeUnderstated)
      else if c.netFee < 0 then Failure(NegativeNetFee)
      else Success(c)
  }

  lemma {:induction false} CentCeilBounds(amount: nat)
    ensures amount <= CentCeil(amount) < amount + CENT_MICROS
    ensures CentCeil(amount) % CENT_MICROS == 0
  {
  }

  lemma {:induction false} CentCeilMonotone(a: nat, b: nat)
    requires a <= b
    ensures CentCeil(a) <= CentCeil(b)
  {
  }

  /** A charged trade fee tops gross plus raw fee up to a whole cent. */
  lemma {:induction false} TradeFeeIsCentTopUp(units: nat, price: Price, policy: FeePolicy)
    requires !policy.waiver && Numerator(units, price, policy) != 0
    ensures GrossCash(units, price) + TradeFee(units, price, policy)
         == CentCeil(GrossCash(units, price) + RawCeil(units, price, policy))
  {
    CeilDivShift(GrossCash(units, price), Numerator(units, price, policy), Denominator(policy));
  }

  /** Every charged trade fee lies in [ceil(raw), ceil(raw) + 9999]; a waived one is zero. */
  lemma {:induction false} TradeFeeBounds(units: nat, price: Price, policy: FeePolicy)
    ensures policy.waiver || Numerator(units, price, policy) == 0 ==> TradeFee(units, price, policy) == 0
    ensures !policy.waiver ==>
              RawCeil(units, price, policy) <= TradeFee(units, price, policy) <= RawCeil(units, price, policy) + 9999
  {
    if !policy.waiver && Numerator(units, price, policy) != 0 {
      TradeFeeIsCentTopUp(units, price, policy);
      CentCeilBounds(GrossCash(units, price) + RawCeil(units, price, policy));
    }
  }

  /** One fill conserves money and keeps the accumulator below one cent. */
  lemma {:induction false} ChargeIsSound(units: nat, price: Price, policy: FeePolicy, action: Side, before: nat)
    requires before < CENT_MICROS
    ensures var c := Charge(units, price, policy, action, before);
            && 0 <= c.accumulatorAfter < CENT_MICROS
            && 0 <= c.tradeFee && 0 <= c.roundingFee < CENT_MICROS && 0 <= c.rebate && 0 <= c.netFee
            && c.accumulatorBefore == before
            && c.netFee == c.tradeFee + c.accumulatorAfter - before
            && c.posted == Signed(c.gross, action) - c.netFee
            && (c.posted - c.rebate) % CENT_MICROS == 0
            && c.accumulatorAfter == before + c.roundingFee - c.rebate
            && (c.netFee == 0 || c.accumulatorAfter == (before + c.roundingFee) % CENT_MICROS)
  {
    hide GrossCash, TradeFee, RawNanos;
    TradeFeeBounds(units, price, policy);
    AlignIsSound(GrossCash(units, price), TradeFee(units, price, policy), RawNanos(units, price, policy),
                 action, before);
  }

  lemma {:induction false} ChargeUsesTradeFee(units: nat, price: Price, policy: FeePolicy, action: Side, before: nat)
    ensures Charge(units, price, policy, action, before).tradeFee == TradeFee(units, price, policy)
  {
  }

  /** The cent alignment behind it: the posting apart from the rebate is whole
      cents, and the rebate is every whole accumulated cent unless that would
      make the fee negative. */
  lemma {:induction false} AlignIsSound(gross: nat, trade: nat, rawNanos: int, action: Side, before: nat)
    requires before < CENT_MICROS
    ensures var c := Align(gross, trade, rawNanos, action, before);
            && c.gross == gross && c.tradeFee == trade && c.accumulatorBefore == before
            && 0 <= c.accumulatorAfter < CENT_MICROS
            && 0 <= c.roundingFee < CENT_MICROS && 0 <= c.rebate && 0 <= c.netFee
            && c.netFee == trade + c.accumulatorAfter - before
            && c.posted == Signed(gross, action) - c.netFee
            && (c.posted - c.rebate) % CENT_MICROS == 0
            && c.accumulatorAfter == before + c.roundingFee - c.rebate
            && (c.netFee == 0 || c.accumulatorAfter == (before + c.roundingFee) % CENT_MICROS)
  {
  }

  /** The two internal guards of the calculator never fire: it fails exactly
      on its three documented input errors. */
  lemma {:induction false} GuardsNeverFire(units: int, price: int, policy: FeePolicy, action: Side, before: int)
    ensures Calculate(units, price, policy, action, before).Success?
       <==> 0 < units && 0 <= price <= DOLLAR_MICROS && 0 <= before < CENT_MICROS
    ensures var r := Calculate(units, price, policy, action, before);
            && (r.Failure? ==> r.error in {QuantityNotPositive, PriceOutsideRange, AccumulatorNotSubCent})
            && (r.Success? ==> r.value == Charge(units, price, policy, action, before))
            && (r == Failure(AccumulatorNotSubCent) ==> !(0 <= before < CENT_MICROS))
  {
    if 0 < units && 0 <= price <= DOLLAR_MICROS && 0 <= before < CENT_MICROS {
      ChargeIsSound(units, price, policy, action, before);
      TradeFeeBounds(units, price, policy);
    }
  }

  // ----- the same, measured against the published rule -----

  /** The only record the published rule allows, in plain products of the inputs.
      With n / d the raw fee in micro-dollars: gross is a nearest integer to units
      times price over 100, the raw fee is kept in whole nano-dollars, an unwaived
      trade fee is the least that covers n / d and lifts gross to a whole cent, the
      posting is aligned down to a cent, and whole accumulated cents come back as
      far as the fee allows. */
  ghost predicate ExactRecord(c: FeeCalculation, l: Lot, policy: FeePolicy, action: Side, before: int)
    requires ValidLot(l)
  {
    var n := policy.multNum * policy.rateNum * l.units * l.price * (1_000_000 - l.price);
    var d := policy.multDen * policy.rateDen * 100 * 1_000_000;
    && -50 < 100 * c.gross - l.units * l.price <= 50
    && c.rawNanos * d <= 1000 * n < c.rawNanos * d + d
    && (if policy.waiver || n == 0 then c.tradeFee == 0
        else (c.gross + c.tradeFee) % 10_000 == 0 && (c.tradeFee - 10_000) * d < n <= c.tradeFee * d)
    && Aligned(c, action, before)
  }

  /** Posting and rebate of a record, given its gross and its trade fee. */
  ghost predicate Aligned(c: FeeCalculation, action: Side, before: int) {
    var balance := (if action.Sell? then c.gross else 0 - c.gross) - c.tradeFee;
    var cents := (before + c.roundingFee) - (before + c.roundingFee) % 10_000;
    && 0 <= c.roundingFee < 10_000 && (balance - c.roundingFee) % 10_000 == 0
    && 0 <= c.rebate <= cents && 0 <= c.netFee
    && c.netFee == c.tradeFee + c.roundingFee - c.rebate && (c.netFee == 0 || c.rebate == cents)
    && c.posted == balance - c.roundingFee + c.rebate
    && c.accumulatorBefore == before && c.accumulatorAfter == before + c.roundingFee - c.rebate
  }

  lemma {:induction false} PlainProducts(a: nat, b: nat, x: nat, p: nat, q: nat)
    ensures Mul(x, Mul(Mul(a, b), Mul(p, q))) == a * b * x * p * q
  {
    var m := a * b;
    assert m * (p * q) * x == (m * x) * (p * q) by { Regroup(m, p * q, x); }
    assert (m * x) * (p * q) == m * x * p * q by { Regroup(p, q, m * x); }
  }

  lemma {:induction false} Regroup(p: nat, q: nat, z: nat)
    ensures p * q * z == (p * z) * q && z * (p * q) == z * p * q
  {
  }

  lemma {:induction false} NumeratorPlainly(units: nat, price: Price, policy: FeePolicy)
    ensures Numerator(units, price, policy)
         == policy.multNum * policy.rateNum * units * price * (1_000_000 - price)
    ensures Denominator(policy) == policy.multDen * policy.rateDen * 100 * 1_000_000
  {
    PlainProducts(policy.multNum, policy.rateNum, units, price, 1_000_000 - price);
  }

  /** The raw fee in whole micro-dollars is the quotient of the plain products,
      rounded up, and nothing else is. */
  lemma {:induction false} RawCeilIsExact(units: nat, price: Price, policy: FeePolicy, q: nat)
    ensures var n := policy.multNum * policy.rateNum * units * price * (1_000_000 - price);
            var d := policy.multDen * policy.rateDen * 100 * 1_000_000;
            q == RawCeil(units, price, policy) <==> q * d - d < n <= q * d
  {
    NumeratorPlainly(units, price, policy);
    var n, d := Numerator(units, price, policy), Denominator(policy);
    CeilDivBounds(n, d);
    if q * d - d < n <= q * d {
      CeilDivUnique(n, d, q);
    }
    if n == 0 {
      CeilDivUnique(0, d, 0);
    }
  }

  /** The raw fee in nano-dollars is that quotient rounded down. */
  lemma {:induction false} RawNanosIsFloor(units: nat, price: Price, policy: FeePolicy, q: int)
    ensures var n := policy.multNum * policy.rateNum * units * price * (1_000_000 - price);
            var d := policy.multDen * policy.rateDen * 100 * 1_000_000;
            q == RawNanos(units, price, policy) <==> q * d <= 1000 * n < q * d + d
  {
    NumeratorPlainly(units, price, policy);
    FloorUnique(Numerator(units, price, policy) * 1000, Denominator(policy), q);
  }

  lemma {:induction false} FloorUnique(n: nat, d: pos, q: int)
    ensures q == n / d <==> q * d <= n < q * d + d
  {
    assert n == n / d * d + n % d;
    if q * d <= n < q * d + d {
      MultiplesOrdered(q, n / d, d);
      MultiplesOrdered(n / d, q, d);
    }
  }

  /** A charged trade fee covers the raw fee, lifts gross to a whole cent, and no
      smaller amount does both. */
  lemma {:induction false} TradeFeeIsLeast(units: nat, price: Price, policy: FeePolicy, t: int)
    ensures var n := policy.multNum * policy.rateNum * units * price * (1_000_000 - price);
            var d := policy.multDen * policy.rateDen * 100 * 1_000_000;
            var fee, gross := TradeFee(units, price, policy), GrossCash(units, price);
            if policy.waiver || n == 0 then fee == 0
            else && (gross + fee) % 10_000 == 0 && n <= fee * d
                 && ((gross + t) % 10_000 == 0 && n <= t * d ==> fee <= t)
  {
    hide Numerator, Denominator, GrossCash, CentCeil;
    NumeratorPlainly(units, price, policy);
    var n, d, gross := Numerator(units, price, policy), Denominator(policy), GrossCash(units, price);
    if !policy.waiver && n != 0 {
      TradeFeeIsCentTopUp(units, price, policy);
      hide TradeFee;
      LeastTopUp(gross, n, d, t);
    }
  }

  /** The least amount that covers n / d and tops gross up to a whole cent. */
  lemma {:induction false} LeastTopUp(gross: nat, n: nat, d: pos, t: int)
    ensures var fee := CentCeil(gross + CeilDiv(n, d)) - gross;
            && (gross + fee) % 10_000 == 0 && n <= fee * d
            && ((gross + t) % 10_000 == 0 && n <= t * d ==> fee <= t)
  {
    hide CeilDiv, CentCeil;
    var raw := CeilDiv(n, d);
    var fee := CentCeil(gross + raw) - gross;
    CeilDivBounds(n, d);
    CentCeilBounds(gross + raw);
    MulMonotone(raw, fee, d);
    if (gross + t) % 10_000 == 0 && n <= t * d {
      MultiplesOrdered(raw, t, d);
      CentsApart(gross + fee, gross + t);
    }
  }

  /** Whole cents are in order once they are less than a cent apart. */
  lemma {:induction false} CentsApart(a: int, b: int)
    requires a % CENT_MICROS == 0 && b % CENT_MICROS == 0 && a < b + CENT_MICROS
    ensures a <= b
  {
  }

  lemma {:induction false} AlignIsAligned(gross: nat, trade: nat, rawNanos: int, action: Side, before: nat)
    requires before < CENT_MICROS
    ensures Aligned(Align(gross, trade, rawNanos, action, before), action, before)
  {
  }

  lemma {:induction false} AlignedIsUnique(c: FeeCalculation, e: FeeCalculation, action: Side, before: nat)
    requires Aligned(c, action, before) && Aligned(e, action, before)
    requires c.gross == e.gross && c.tradeFee == e.tradeFee && c.rawNanos == e.rawNanos
    ensures c == e
  {
    var balance := (if action.Sell? then c.gross else 0 - c.gross) - c.tradeFee;
    assert c.roundingFee == e.roundingFee by {
      CentsApart(balance - c.roundingFee, balance - e.roundingFee);
      CentsApart(balance - e.roundingFee, balance - c.roundingFee);
    }
  }

  /** The calculator's record is the one the published rule allows, and no other. */
  lemma {:induction false} ChargeIsTheOnlyRecord(c: FeeCalculation, l: Lot, policy: FeePolicy, action: Side,
                                                 before: nat)
    requires ValidLot(l) && before < CENT_MICROS
    ensures c == Charge(l.units, l.price, policy, action, before) <==> ExactRecord(c, l, policy, action, before)
  {
    hide Align, Aligned, GrossCash, TradeFee, RawNanos;
    var gross, trade := GrossCash(l.units, l.price), TradeFee(l.units, l.price, policy);
    var raw := RawNanos(l.units, l.price, policy);
    TradeFeeBounds(l.units, l.price, policy);
    AlignIsAligned(gross, trade, raw, action, before);
    ChargeParts(l, policy, action, before);
    if ExactRecord(c, l, policy, action, before) && c.gross == gross && c.tradeFee == trade && c.rawNanos == raw {
      AlignedIsUnique(c, Charge(l.units, l.price, policy, action, before), action, before);
    }
    assert c.gross == gross <==> -50 < 100 * c.gross - l.units * l.price <= 50 by {
      GrossCashIsNearest(l.units, l.price);
    }
    RawNanosIsFloor(l.units, l.price, policy, c.rawNanos);
    if c.gross == gross {
      TradeFeeIsOnly(l, policy, c.tradeFee);
    }
  }

  lemma {:induction false} ChargeParts(l: Lot, policy: FeePolicy, action: Side, before: nat)
    requires ValidLot(l)
    ensures var c := Charge(l.units, l.price, policy, action, before);
            && c == Align(c.gross, c.tradeFee, c.rawNanos, action, before)
            && c.gross == GrossCash(l.units, l.price) && c.tradeFee == TradeFee(l.units, l.price, policy)
            && c.rawNanos == RawNanos(l.units, l.price, policy)
  {
  }

  lemma {:induction false} TradeFeeIsOnly(l: Lot, policy: FeePolicy, t: int)
    requires ValidLot(l)
    ensures var n := policy.multNum * policy.rateNum * l.units * l.price * (1_000_000 - l.price);
            var d := policy.multDen * policy.rateDen * 100 * 1_000_000;
            t == TradeFee(l.units, l.price, policy) <==>
              if policy.waiver || n == 0 then t == 0
              else (GrossCash(l.units, l.price) + t) % 10_000 == 0 && (t - 10_000) * d < n <= t * d
  {
    hide Numerator, Denominator, GrossCash, CentCeil;
    NumeratorPlainly(l.units, l.price, policy);
    if !policy.waiver && Numerator(l.units, l.price, policy) != 0 {
      TradeFeeIsCentTopUp(l.units, l.price, policy);
      hide TradeFee;
      OnlyTopUp(GrossCash(l.units, l.price), Numerator(l.units, l.price, policy), Denominator(policy), t);
    }
  }

  /** Of the amounts that lift gross to a whole cent only the least covers n / d without
      a cent to spare. */
  lemma {:induction false} OnlyTopUp(gross: nat, n: nat, d: pos, t: int)
    ensures t == CentCeil(gross + CeilDiv(n, d)) - gross <==>
              (gross + t) % 10_000 == 0 && (t - 10_000) * d < n <= t * d
  {
    hide CentCeil, CeilDiv;
    var fee := CentCeil(gross + CeilDiv(n, d)) - gross;
    LeastTopUp(gross, n, d, t);
    LeastTopUp(gross, n, d, fee - 10_000);
    assert (gross + fee - 10_000) % 10_000 == 0;
    if (gross + t) % 10_000 == 0 && (t - 10_000) * d < n <= t * d && fee < t {
      CentsApart(gross + fee, gross + t - 10_000);
      Scaled(fee, t - 10_000, d);
      assert false;
    }
  }

  lemma {:induction false} Scaled(a: int, b: int, d: pos)
    requires a <= b
    ensures a * d <= b * d
  {
    assert b * d == a * d + (b - a) * d;
  }

  // ----- a list of fills -----

  ghost predicate ValidLots(lots: seq<Lot>) {
    forall i :: 0 <= i < |lots| ==> ValidLot(lots[i])
  }

  /** The records of a fill list, the accumulator passing from each to the next. */
  function FeeRun(lots: seq<Lot>, policy: FeePolicy, action: Side, before: nat): (r: seq<FeeCalculation>)
    requires ValidLots(lots) && before < CENT_MICROS
    ensures |r| == |lots|
  {
    if lots == [] then []
    else
      var c := Charge(lots[0].units, lots[0].price, policy, action, before);
      ChargeIsSound(lots[0].units, lots[0].price, policy, action, before);
      [c] + FeeRun(lots[1..], policy, action, c.accumulatorAfter)
  }

  /** Accumulator that fill number i starts from. */
  function Carried(run: seq<FeeCalculation>, before: int, i: nat): int
    requires i <= |run|
  {
    if i == 0 then before else run[i-1].accumulatorAfter
  }

  /** Every record is the one the rule allows for its fill, after the accumulator
      that the record before it left. */
  ghost predicate ExactRecords(run: seq<FeeCalculation>, lots: seq<Lot>, policy: FeePolicy, action: Side, before: int)
    requires ValidLots(lots)
  {
    && |run| == |lots|
    && forall i :: 0 <= i < |run| ==> ExactRecord(run[i], lots[i], policy, action, Carried(run, before, i))
  }

  lemma {:induction false} RunIsExact(lots: seq<Lot>, policy: FeePolicy, action: Side, before: nat)
    requires ValidLots(lots) && before < CENT_MICROS
    ensures ExactRecords(FeeRun(lots, policy, action, before), lots, policy, action, before)
  {
    hide Charge, ExactRecord;
    if lots != [] {
      var c := Charge(lots[0].units, lots[0].price, policy, action, before);
      ChargeIsSound(lots[0].units, lots[0].price, policy, action, before);
      ChargeIsTheOnlyRecord(c, lots[0], policy, action, before);
      RunIsExact(lots[1..], policy, action, c.accumulatorAfter);
      var run, rest := FeeRun(lots, policy, action, before), FeeRun(lots[1..], policy, action, c.accumulatorAfter);
      assert run == [c] + rest;
      forall i | 0 <= i < |run| ensures ExactRecord(run[i], lots[i], policy, action, Carried(run, before, i)) {
        if i > 0 {
          assert run[i] == rest[i-1] && lots[i] == lots[1..][i-1];
          assert Carried(run, before, i) == Carried(rest, c.accumulatorAfter, i - 1);
          assert ExactRecord(rest[i-1], lots[1..][i-1], policy, action, Carried(rest, c.accumulatorAfter, i - 1));
        }
      }
    }
  }

  /** ExactFeeCalculator.calculate_fills. */
  method CalculateFills(lots: seq<Lot>, policy: FeePolicy, action: Side)
    returns (r: Result<seq<FeeCalculation>, FeeError>)
    ensures r.Success? <==> ValidLots(lots)
    ensures r.Success? ==> r.value == FeeRun(lots, policy, action, 0)
    ensures r.Success? ==> ExactRecords(r.value, lots, policy, action, 0)
    ensures r.Failure? ==> r.error in {QuantityNotPositive, PriceOutsideRange}
  {
    hide Charge, Calculate, ExactRecords;
    var accumulator := 0;
    var calculations: seq<FeeCalculation> := [];
    for i := 0 to |lots|
      invariant ValidLots(lots[..i])
      invariant 0 <= accumulator < CENT_MICROS
      invariant ValidLots(lots[i..]) ==>
                  FeeRun(lots, policy, action, 0) == calculations + FeeRun(lots[i..], policy, action, accumulator)
    {
      GuardsNeverFire(lots[i].units, lots[i].price, policy, action, accumulator);
      var calculation := Calculate(lots[i].units, lots[i].price, policy, action, accumulator);
      if calculation.Failure? {
        return Failure(calculation.error);
      }
      ChargeIsSound(lots[i].units, lots[i].price, policy, action, accumulator);
      assert lots[..i+1] == lots[..i] + [lots[i]];
      assert lots[i..][1..] == lots[i+1..];
      calculations := calculations + [calculation.value];
      accumulator := calculation.value.accumulatorAfter;
    }
    assert lots[..|lots|] == lots;
    RunIsExact(lots, policy, action, 0);
    return Success(calculations);
  }

  function SumNet(run: seq<FeeCalculation>): int {
    if run == [] then 0 else run[0].netFee + SumNet(run[1..])
  }

  ghost function SumTrade(run: seq<FeeCalculation>): int {
    if run == [] then 0 else run[0].tradeFee + SumTrade(run[1..])
  }

  function SumGross(run: seq<FeeCalculation>): int {
    if run == [] then 0 else run[0].gross + SumGross(run[1..])
  }

  ghost function SumPosted(run: seq<FeeCalculation>): int {
    if run == [] then 0 else run[0].posted + SumPosted(run[1..])
  }

  ghost function FinalAccumulator(run: seq<FeeCalculation>, before: int): int {
    if run == [] then before else FinalAccumulator(run[1..], run[0].accumulatorAfter)
  }

  /** A record whose accumulator is sub-cent, whose net fee is not negative, and
      whose trade fee is waived or within one cent above the raw fee. */
  ghost predicate SoundRecord(c: FeeCalculation, l: Lot, policy: FeePolicy)
    requires ValidLot(l)
  {
    && 0 <= c.accumulatorAfter < CENT_MICROS
    && 0 <= c.netFee
    && if policy.waiver then c.tradeFee == 0
       else RawCeil(l.units, l.price, policy) <= c.tradeFee <= RawCeil(l.units, l.price, policy) + 9999
  }

  lemma {:induction false} ChargeIsSoundRecord(l: Lot, policy: FeePolicy, action: Side, before: nat)
    requires ValidLot(l) && before < CENT_MICROS
    ensures SoundRecord(Charge(l.units, l.price, policy, action, before), l, policy)
  {
    ChargeIsSound(l.units, l.price, policy, action, before);
    TradeFeeBounds(l.units, l.price, policy);
  }

  lemma {:induction false} RecordsAreSound(lots: seq<Lot>, policy: FeePolicy, action: Side, before: nat)
    requires ValidLots(lots) && before < CENT_MICROS
    ensures var run := FeeRun(lots, policy, action, before);
            && 0 <= FinalAccumulator(run, before) < CENT_MICROS
            && forall i :: 0 <= i < |run| ==> SoundRecord(run[i], lots[i], policy)
  {
    hide Charge, SoundRecord;
    if lots != [] {
      var l := lots[0];
      var c := Charge(l.units, l.price, policy, action, before);
      ChargeIsSound(l.units, l.price, policy, action, before);
      ChargeIsSoundRecord(l, policy, action, before);
      RecordsAreSound(lots[1..], policy, action, c.accumulatorAfter);
      var run := FeeRun(lots, policy, action, before);
      assert run == [c] + run[1..];
    }
  }

  /** However many fills, the fees charged beyond the trade fees are exactly the
      final accumulator, hence less than one cent; and the postings move exactly
      gross cash less net fees. */
  lemma {:induction false} FeesAreConserved(lots: seq<Lot>, policy: FeePolicy, action: Side, before: nat)
    requires ValidLots(lots) && before < CENT_MICROS
    ensures var run := FeeRun(lots, policy, action, before);
            && SumNet(run) == SumTrade(run) + FinalAccumulator(run, before) - before
            && SumPosted(run) == Signed(SumGross(run), action) - SumNet(run)
  {
    hide Charge;
    if lots != [] {
      var l := lots[0];
      var c := Charge(l.units, l.price, policy, action, before);
      ChargeIsSound(l.units, l.price, policy, action, before);
      FeesAreConserved(lots[1..], policy, action, c.accumulatorAfter);
      var run := FeeRun(lots, policy, action, before);
      assert run[0] == c && run[1..] == FeeRun(lots[1..], policy, action, c.accumulatorAfter);
    }
  }

  // ----- what a BUY list costs, and why more units never cost less -----

  /** A lot that may also be absent, which is written as zero units. */
  predicate LotOrAbsent(l: Lot) {
    0 <= l.units && 0 <= l.price <= DOLLAR_MICROS
  }

  /** Cash spent so far, gross and net fees together, and the accumulator. */
  datatype Spend = Spend(cost: int, acc: int)

  /** Spend after one more BUY fill; an absent fill, of zero units, changes nothing. */
  function BuyOne(s: Spend, l: Lot, policy: FeePolicy): (t: Spend)
    requires LotOrAbsent(l) && 0 <= s.acc < CENT_MICROS
    ensures 0 <= t.acc < CENT_MICROS
  {
    if l.units == 0 then s
    else
      var c := Charge(l.units, l.price, policy, Side.Buy, s.acc);
      ChargeIsSound(l.units, l.price, policy, Side.Buy, s.acc);
      Spend(s.cost + c.gross + c.netFee, c.accumulatorAfter)
  }

  /** The order that makes cost monotone: costing no less, and holding a larger
      accumulator only if that was paid for by at least the missing cent. */
  ghost predicate NoCheaper(s: Spend, t: Spend) {
    && s.cost <= t.cost
    && (s.acc < t.acc ==> s.cost + CENT_MICROS - s.acc <= t.cost)
  }

  predicate Charged(price: Price, policy: FeePolicy) {
    !policy.waiver && FeeFactor(price, policy) != 0
  }

  lemma {:induction false} NumeratorZero(units: nat, price: Price, policy: FeePolicy)
    requires 0 < units
    ensures Numerator(units, price, policy) == 0 <==> FeeFactor(price, policy) == 0
  {
    if FeeFactor(price, policy) != 0 {
      MulMonotone(1, units, FeeFactor(price, policy));
    }
  }

  /** A BUY whose gross and trade fee fill whole cents posts without residue;
      one without a trade fee adds its cent shortfall, or is rebated all of it. */
  lemma {:induction false} AlignBuy(gross: nat, trade: nat, rawNanos: int, before: nat)
    requires before < CENT_MICROS
    requires trade == 0 || (gross + trade) % CENT_MICROS == 0
    ensures var c := Align(gross, trade, rawNanos, Side.Buy, before);
            var short := CentCeil(gross) - gross;
            && c.gross == gross
            && if trade != 0 || short == 0 then c.netFee == trade && c.accumulatorAfter == before
            else if before + short < CENT_MICROS then c.netFee == short && c.accumulatorAfter == before + short
            else c.netFee == 0 && c.accumulatorAfter == before
  {
  }

  /** What a BUY fill does to the spend, in the three cases that can occur. */
  lemma {:induction false} BuyCases(s: Spend, l: Lot, policy: FeePolicy)
    requires ValidLot(l) && 0 <= s.acc < CENT_MICROS
    ensures var gross := GrossCash(l.units, l.price);
            var short := CentCeil(gross) - gross;
            BuyOne(s, l, policy) ==
              if Charged(l.price, policy)
              then Spend(s.cost + CentCeil(gross + RawCeil(l.units, l.price, policy)), s.acc)
              else if s.acc + short < CENT_MICROS then Spend(s.cost + gross + short, s.acc + short)
              else Spend(s.cost + gross, s.acc)
  {
    hide RawCeil, GrossCash, Numerator, Align, FeeFactor, TradeFee, CentCeil;
    var gross, trade := GrossCash(l.units, l.price), TradeFee(l.units, l.price, policy);
    NumeratorZero(l.units, l.price, policy);
    TradeFeeBounds(l.units, l.price, policy);
    if Charged(l.price, policy) {
      TradeFeeIsCentTopUp(l.units, l.price, policy);
      CentCeilBounds(gross + RawCeil(l.units, l.price, policy));
    }
    CentCeilBounds(gross);
    AlignBuy(gross, trade, RawNanos(l.units, l.price, policy), s.acc);
  }

  lemma {:induction false} RawCeilMonotone(units: nat, more: nat, price: Price, policy: FeePolicy)
    requires units <= more
    ensures RawCeil(units, price, policy) <= RawCeil(more, price, policy)
  {
    MulMonotone(units, more, FeeFactor(price, policy));
    CeilDivMonotone(Numerator(units, price, policy), Numerator(more, price, policy), Denominator(policy));
  }

  /** The same price with no more units. */
  predicate NoLarger(l: Lot, more: Lot) {
    l.price == more.price && l.units <= more.units
  }

  /** More units at one level never make the spend cheaper. */
  lemma {:induction false} BuyGrows(s: Spend, l: Lot, more: Lot, policy: FeePolicy)
    requires LotOrAbsent(l) && LotOrAbsent(more) && NoLarger(l, more)
    requires 0 <= s.acc < CENT_MICROS
    ensures NoCheaper(BuyOne(s, l, policy), BuyOne(s, more, policy))
  {
    hide Charge, RawCeil, GrossCash, CentCeil;
    if more.units > 0 {
      BuyCases(s, more, policy);
    }
    CentCeilBounds(GrossCash(more.units, more.price));
    if l.units > 0 {
      BuyCases(s, l, policy);
      GrossCashMonotone(l.units, more.units, l.price);
      RawCeilMonotone(l.units, more.units, l.price, policy);
      var gross, grossMore := GrossCash(l.units, l.price), GrossCash(more.units, l.price);
      CentCeilMonotone(gross, grossMore);
      CentCeilMonotone(gross + RawCeil(l.units, l.price, policy), grossMore + RawCeil(more.units, l.price, policy));
      CentCeilBounds(gross);
    }
  }

  /** The same fill keeps two spends in order. */
  lemma {:induction false} BuyKeepsOrder(s: Spend, t: Spend, l: Lot, policy: FeePolicy)
    requires LotOrAbsent(l)
    requires 0 <= s.acc < CENT_MICROS && 0 <= t.acc < CENT_MICROS && NoCheaper(s, t)
    ensures NoCheaper(BuyOne(s, l, policy), BuyOne(t, l, policy))
  {
    hide Charge, RawCeil, GrossCash;
    if l.units > 0 {
      BuyCases(s, l, policy);
      BuyCases(t, l, policy);
    }
  }

  /** Spend after a whole list, absent lots included. */
  function BuyAll(s: Spend, lots: seq<Lot>, policy: FeePolicy): (t: Spend)
    requires (forall i :: 0 <= i < |lots| ==> LotOrAbsent(lots[i])) && 0 <= s.acc < CENT_MICROS
    ensures 0 <= t.acc < CENT_MICROS
    decreases |lots|
  {
    if lots == [] then s else BuyAll(BuyOne(s, lots[0], policy), lots[1..], policy)
  }

  /** Cash a BUY of these lots takes, starting from an empty accumulator. */
  function BuyCost(lots: seq<Lot>, policy: FeePolicy): int
    requires ValidLots(lots)
  {
    BuyAll(Spend(0, 0), lots, policy).cost
  }

  /** The spend agrees with the records of the fee calculator. */
  lemma {:induction false} BuyAllIsFeeRun(s: Spend, lots: seq<Lot>, policy: FeePolicy)
    requires ValidLots(lots) && 0 <= s.acc < CENT_MICROS
    ensures var run := FeeRun(lots, policy, Side.Buy, s.acc);
            BuyAll(s, lots, policy).cost == s.cost + SumGross(run) + SumNet(run)
    decreases |lots|
  {
    hide Charge;
    if lots != [] {
      var run := FeeRun(lots, policy, Side.Buy, s.acc);
      var t := BuyOne(s, lots[0], policy);
      assert run[1..] == FeeRun(lots[1..], policy, Side.Buy, t.acc);
      BuyAllIsFeeRun(t, lots[1..], policy);
    }
  }

  /** Gross cash plus net fees of a BUY list never falls when quantities grow,
      at any number of levels, under any policy, waived or not. */
  lemma {:induction false} BuyAllMonotone(s: Spend, t: Spend, lots: seq<Lot>, more: seq<Lot>, policy: FeePolicy)
    requires |lots| == |more|
    requires forall i :: 0 <= i < |lots| ==> LotOrAbsent(lots[i]) && LotOrAbsent(more[i]) && NoLarger(lots[i], more[i])
    requires 0 <= s.acc < CENT_MICROS && 0 <= t.acc < CENT_MICROS && NoCheaper(s, t)
    ensures NoCheaper(BuyAll(s, lots, policy), BuyAll(t, more, policy))
    decreases |lots|
  {
    hide BuyOne;
    if lots != [] {
      BuyKeepsOrder(s, t, lots[0], policy);
      BuyGrows(t, lots[0], more[0], policy);
      BuyAllMonotone(BuyOne(s, lots[0], policy), BuyOne(t, more[0], policy), lots[1..], more[1..], policy);
    }
  }

  /** The fee calculator's own total, gross plus net fees, never falls when one
      fill of a BUY list grows. */
  lemma {:induction false} TotalCostNeverFalls(lots: seq<Lot>, i: nat, units: int, policy: FeePolicy)
    requires ValidLots(lots) && i < |lots| && lots[i].units <= units
    ensures ValidLots(lots[i := lots[i].(units := units)])
    ensures var small := FeeRun(lots, policy, Side.Buy, 0);
            var large := FeeRun(lots[i := lots[i].(units := units)], policy, Side.Buy, 0);
            SumGross(small) + SumNet(small) <= SumGross(large) + SumNet(large)
  {
    var more := lots[i := lots[i].(units := units)];
    BuyAllMonotone(Spend(0, 0), Spend(0, 0), lots, more, policy);
    BuyAllIsFeeRun(Spend(0, 0), lots, policy);
    BuyAllIsFeeRun(Spend(0, 0), more, policy);
  }

  lemma {:induction false} BuyAllConcat(s: Spend, first: seq<Lot>, second: seq<Lot>, policy: FeePolicy)
    requires forall i :: 0 <= i < |first| ==> LotOrAbsent(first[i])
    requires forall i :: 0 <= i < |second| ==> LotOrAbsent(second[i])
    requires 0 <= s.acc < CENT_MICROS
    ensures BuyAll(s, first + second, policy) == BuyAll(BuyAll(s, first, policy), second, policy)
    decreases |first|
  {
    hide BuyOne;
    if first == [] {
      assert first + second == second;
    } else {
      assert (first + second)[1..] == first[1..] + second;
      BuyAllConcat(BuyOne(s, first[0], policy), first[1..], second, policy);
    }
  }
}
