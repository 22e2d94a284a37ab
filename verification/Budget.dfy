/** Monthly budget circuit breaker: estimates are reserved before a request and
    replaced by the actual cost after it (src/vtrade/budget.py). */
module Budget {
  import opened Domain
  import opened Sums

  /** Only one provider is free in dollars; its nominal cost is still counted. */
  datatype Provider = Exa | Billed(id: int)

  datatype Reservation = Reservation(id: nat, estimate: nat, provider: Provider)

  datatype Pending = Pending(provider: Provider, dollars: nat)

  datatype Alert = Alert(threshold: int, projected: int)

  datatype Settings = Settings(limit: pos, thresholds: seq<pos>)

  /** What the constructor accepts: thresholds rising, none above the limit. */
  ghost predicate ValidSettings(c: Settings) {
    && (forall i, j :: 0 <= i < j < |c.thresholds| ==> c.thresholds[i] < c.thresholds[j])
    && (forall i :: 0 <= i < |c.thresholds| ==> c.thresholds[i] <= c.limit)
  }

  datatype Breaker = Breaker(
    month: Option<int>, billed: nat, nominal: nat, reserved: map<nat, Pending>, alerted: set<int>, alerts: seq<Alert>,
    issued: nat)

  const NEW_BREAKER := Breaker(None, 0, 0, map[], {}, [], 0)

  datatype Verdict = Accepted | Exceeded | Inconsistent

  function DollarsOf(p: Pending): int { p.dollars }

  ghost function Outstanding(s: Breaker): int {
    Total(s.reserved, DollarsOf)
  }

  /** Dollars an estimate or a cost counts for. */
  function Dollars(p: Provider, cost: nat): nat {
    if p.Exa? then 0 else cost
  }

  /** _roll_month. */
  function Roll(s: Breaker, month: int): Breaker {
    if s.month == Some(month) then s
    else s.(month := Some(month), billed := 0, nominal := 0, reserved := map[], alerted := {})
  }

  /** _open_alerts from threshold number i on. */
  function OpenAlerts(c: Settings, s: Breaker, projected: int, i: nat): Breaker
    requires i <= |c.thresholds|
    decreases |c.thresholds| - i
  {
    if i == |c.thresholds| then s
    else if projected >= c.thresholds[i] && c.thresholds[i] !in s.alerted then
      OpenAlerts(c, s.(alerted := s.alerted + {c.thresholds[i] as int},
                       alerts := s.alerts + [Alert(c.thresholds[i], projected)]), projected, i + 1)
    else OpenAlerts(c, s, projected, i + 1)
  }

  /** reserve: refused when the projection would pass the limit. */
  ghost function Reserve(c: Settings, s: Breaker, month: int, provider: Provider, estimate: nat)
    : (Breaker, Option<Reservation>)
  {
    var r := Roll(s, month);
    var dollars := Dollars(provider, estimate);
    var projected := r.billed + Outstanding(r) + dollars;
    if projected > c.limit then (r, None)
    else
      var a := OpenAlerts(c, r, projected, 0);
      (a.(reserved := a.reserved[a.issued := Pending(provider, dollars)], issued := a.issued + 1),
       Some(Reservation(a.issued, estimate, provider)))
  }

  /** reconcile: the reservation is taken out even when it turns out inconsistent,
      and the cost is recorded even when it breaks the limit. */
  ghost function Reconcile(c: Settings, s: Breaker, month: int, res: Reservation, cost: nat, nominal: nat)
    : (Breaker, Verdict)
  {
    var r := Roll(s, month);
    var popped := r.(reserved := r.reserved - {res.id});
    if res.id !in r.reserved || r.reserved[res.id] != Pending(res.provider, Dollars(res.provider, res.estimate)) then
      (popped, Inconsistent)
    else
      var paid := popped.(billed := r.billed + Dollars(res.provider, cost), nominal := r.nominal + nominal);
      var projected := paid.billed + Outstanding(paid);
      (OpenAlerts(c, paid, projected, 0), if projected > c.limit then Exceeded else Accepted)
  }

  class MonthlyBudgetCircuitBreaker {
    const settings: Settings
    var month: Option<int>
    var billed: nat
    var nominal: nat
    var reserved: map<nat, Pending>
    var alerted: set<int>
    var alerts: seq<Alert>
    var issued: nat

    function State(): Breaker
      reads this
    {
      Breaker(month, billed, nominal, reserved, alerted, alerts, issued)
    }

    constructor (settings: Settings)
      ensures this.settings == settings && State() == NEW_BREAKER
    {
      this.settings := settings;
      month, billed, nominal, reserved, alerted, alerts, issued := None, 0, 0, map[], {}, [], 0;
    }

    method RollMonth(now: int)
      modifies this
      ensures State() == Roll(old(State()), now)
    {
      if month != Some(now) {
        month, billed, nominal, reserved, alerted := Some(now), 0, 0, map[], {};
      }
    }

    method Alarm(projected: int)
      modifies this`alerted, this`alerts
      ensures State() == OpenAlerts(settings, old(State()), projected, 0)
    {
      for i := 0 to |settings.thresholds|
        invariant OpenAlerts(settings, old(State()), projected, 0) == OpenAlerts(settings, State(), projected, i)
      {
        var threshold := settings.thresholds[i];
        if projected >= threshold && threshold !in alerted {
          alerted := alerted + {threshold as int};
          alerts := alerts + [Alert(threshold, projected)];
        }
      }
    }

    /** Sum of the outstanding reservations. */
    method Reserved() returns (sum: int)
      ensures sum == Outstanding(State())
    {
      var rest := reserved;
      sum := 0;
      while rest != map[]
        invariant sum + Total(rest, DollarsOf) == Outstanding(State())
        decreases |rest|
      {
        var id :| id in rest;
        TotalRemove(rest, id, DollarsOf);
        sum := sum + rest[id].dollars;
        rest := rest - {id};
      }
    }

    method ReserveCost(now: int, provider: Provider, estimate: nat) returns (r: Option<Reservation>)
      modifies this
      ensures (State(), r) == Reserve(settings, old(State()), now, provider, estimate)
    {
      RollMonth(now);
      var dollars := Dollars(provider, estimate);
      var outstanding := Reserved();
      var projected := billed + outstanding + dollars;
      if projected > settings.limit {
        return None;
      }
      Alarm(projected);
      r := Some(Reservation(issued, estimate, provider));
      reserved := reserved[issued := Pending(provider, dollars)];
      issued := issued + 1;
    }

    method ReconcileCost(now: int, res: Reservation, cost: nat, nominalCost: nat) returns (v: Verdict)
      modifies this
      ensures (State(), v) == Reconcile(settings, old(State()), now, res, cost, nominalCost)
    {
      RollMonth(now);
      var pending := if res.id in reserved then Some(reserved[res.id]) else None;
      reserved := reserved - {res.id};
      if pending != Some(Pending(res.provider, Dollars(res.provider, res.estimate))) {
        return Inconsistent;
      }
      billed := billed + Dollars(res.provider, cost);
      nominal := nominal + nominalCost;
      var outstanding := Reserved();
      var projected := billed + outstanding;
      Alarm(projected);
      return if projected > settings.limit then Exceeded else Accepted;
    }
  }

  // ----- what any sequence of calls keeps within a month -----

  datatype Call = ReserveCall(month: int, provider: Provider, estimate: nat)
                | ReconcileCall(month: int, reservation: Reservation, cost: nat, nominal: nat)

  ghost function Step(c: Settings, s: Breaker, call: Call): Breaker {
    match call
    case ReserveCall(month, provider, estimate) => Reserve(c, s, month, provider, estimate).0
    case ReconcileCall(month, res, cost, nominal) => Reconcile(c, s, month, res, cost, nominal).0
  }

  /** History of the current month: overruns so far, and where its alerts begin. */
  datatype Month = Month(overruns: nat, firstAlert: nat)

  /** What a call adds to the overruns: actual cost above its estimate. */
  ghost function Overrun(c: Settings, s: Breaker, call: Call): nat {
    if call.ReconcileCall? && !Reconcile(c, s, call.month, call.reservation, call.cost, call.nominal).1.Inconsistent?
       && Dollars(call.reservation.provider, call.cost) > Dollars(call.reservation.provider, call.reservation.estimate)
    then call.cost - call.reservation.estimate
    else 0
  }

  ghost function NextMonth(c: Settings, s: Breaker, call: Call, m: Month): Month {
    var here := if s.month == Some(call.month) then m else Month(0, |s.alerts|);
    here.(overruns := here.overruns + Overrun(c, s, call))
  }

  /** Each threshold at or below the projection was alerted exactly once this month. */
  ghost predicate AlertedOnce(c: Settings, s: Breaker, m: Month) {
    && m.firstAlert <= |s.alerts|
    && (forall i, j :: m.firstAlert <= i < j < |s.alerts| ==> s.alerts[i].threshold != s.alerts[j].threshold)
    && (forall i :: m.firstAlert <= i < |s.alerts| ==> s.alerts[i].threshold in s.alerted)
    && (forall t :: t in s.alerted ==> exists i :: m.firstAlert <= i < |s.alerts| && s.alerts[i].threshold == t)
  }

  ghost predicate Within(c: Settings, s: Breaker, m: Month) {
    && (forall id :: id in s.reserved ==> id < s.issued)
    && s.billed + Outstanding(s) <= c.limit + m.overruns
    && AlertedOnce(c, s, m)
    && (forall i :: 0 <= i < |c.thresholds| && c.thresholds[i] <= s.billed + Outstanding(s) ==>
          c.thresholds[i] as int in s.alerted)
  }

  /** Opening alerts adds exactly the reached thresholds, each once. */
  lemma {:induction false} AlarmKeeps(c: Settings, s: Breaker, projected: int, i: nat, m: Month)
    requires ValidSettings(c) && i <= |c.thresholds| && AlertedOnce(c, s, m)
    ensures var t := OpenAlerts(c, s, projected, i);
            && AlertedOnce(c, t, m) && s.alerted <= t.alerted
            && t.billed == s.billed && t.reserved == s.reserved && t.issued == s.issued && t.month == s.month
            && (forall j :: i <= j < |c.thresholds| && c.thresholds[j] <= projected ==>
                  c.thresholds[j] as int in t.alerted)
    decreases |c.thresholds| - i
  {
    if i < |c.thresholds| {
      var threshold := c.thresholds[i];
      if projected >= threshold && threshold !in s.alerted {
        var next := s.(alerted := s.alerted + {threshold as int}, alerts := s.alerts + [Alert(threshold, projected)]);
        assert next.alerts[|s.alerts|].threshold == threshold;
        assert forall k :: 0 <= k < |s.alerts| ==> next.alerts[k] == s.alerts[k];
        AlarmKeeps(c, next, projected, i + 1, m);
      } else {
        AlarmKeeps(c, s, projected, i + 1, m);
      }
    }
  }

  lemma {:induction false} RollKeeps(c: Settings, s: Breaker, month: int, m: Month)
    requires ValidSettings(c) && Within(c, s, m)
    ensures Within(c, Roll(s, month), if s.month == Some(month) then m else Month(0, |s.alerts|))
  {
  }

  lemma {:induction false} ReserveKeeps(c: Settings, s: Breaker, month: int, provider: Provider, estimate: nat,
                                        m: Month)
    requires ValidSettings(c) && Within(c, s, m) && s.month == Some(month)
    ensures Within(c, Reserve(c, s, month, provider, estimate).0, m)
  {
    hide OpenAlerts, AlertedOnce;
    var dollars := Dollars(provider, estimate);
    AlarmKeeps(c, s, s.billed + Outstanding(s) + dollars, 0, m);
    TotalSet(s.reserved, s.issued, Pending(provider, dollars), DollarsOf);
    assert s.reserved - {s.issued} == s.reserved;
    if s.billed + Outstanding(s) + dollars <= c.limit {
      AlertsIgnoreReservations(c, OpenAlerts(c, s, s.billed + Outstanding(s) + dollars, 0),
                               Reserve(c, s, month, provider, estimate).0, m);
    }
  }

  lemma {:induction false} ReconcileKeeps(c: Settings, s: Breaker, month: int, res: Reservation, cost: nat,
                                          nominal: nat, m: Month)
    requires ValidSettings(c) && Within(c, s, m) && s.month == Some(month)
    ensures Within(c, Reconcile(c, s, month, res, cost, nominal).0,
                   m.(overruns := m.overruns + Overrun(c, s, ReconcileCall(month, res, cost, nominal))))
  {
    hide OpenAlerts, AlertedOnce;
    var popped := s.(reserved := s.reserved - {res.id});
    if res.id in s.reserved {
      TotalRemove(s.reserved, res.id, DollarsOf);
    } else {
      assert popped.reserved == s.reserved;
    }
    var paid := popped.(billed := s.billed + Dollars(res.provider, cost), nominal := s.nominal + nominal);
    AlertsIgnoreReservations(c, s, popped, m);
    AlertsIgnoreReservations(c, s, paid, m);
    AlarmKeeps(c, paid, paid.billed + Outstanding(paid), 0, m);
    var more := m.(overruns := m.overruns + Overrun(c, s, ReconcileCall(month, res, cost, nominal)));
    AlertsIgnoreOverruns(c, Reconcile(c, s, month, res, cost, nominal).0, m, more);
  }

  lemma {:induction false} AlertsIgnoreReservations(c: Settings, s: Breaker, t: Breaker, m: Month)
    requires AlertedOnce(c, s, m) && t.alerts == s.alerts && t.alerted == s.alerted
    ensures AlertedOnce(c, t, m)
  {
  }

  lemma {:induction false} AlertsIgnoreOverruns(c: Settings, s: Breaker, m: Month, n: Month)
    requires AlertedOnce(c, s, m) && m.firstAlert == n.firstAlert
    ensures AlertedOnce(c, s, n)
  {
  }

  lemma {:induction false} StepKeepsWithin(c: Settings, s: Breaker, call: Call, m: Month)
    requires ValidSettings(c) && Within(c, s, m)
    ensures Within(c, Step(c, s, call), NextMonth(c, s, call, m))
  {
    hide Within, OpenAlerts;
    var r := Roll(s, call.month);
    var here := if s.month == Some(call.month) then m else Month(0, |s.alerts|);
    RollKeeps(c, s, call.month, m);
    assert Roll(r, call.month) == r;
    match call {
      case ReserveCall(month, provider, estimate) =>
        ReserveKeeps(c, r, month, provider, estimate, here);
      case ReconcileCall(month, res, cost, nominal) =>
        ReconcileKeeps(c, r, month, res, cost, nominal, here);
    }
  }

  ghost function RunCalls(c: Settings, s: Breaker, calls: seq<Call>, m: Month): (Breaker, Month)
    decreases |calls|
  {
    if calls == [] then (s, m) else RunCalls(c, Step(c, s, calls[0]), calls[1..], NextMonth(c, s, calls[0], m))
  }

  lemma {:induction false} RunKeepsWithin(c: Settings, s: Breaker, calls: seq<Call>, m: Month)
    requires ValidSettings(c) && Within(c, s, m)
    ensures Within(c, RunCalls(c, s, calls, m).0, RunCalls(c, s, calls, m).1)
    decreases |calls|
  {
    hide Step, NextMonth, Within;
    if calls != [] {
      StepKeepsWithin(c, s, calls[0], m);
      RunKeepsWithin(c, Step(c, s, calls[0]), calls[1..], NextMonth(c, s, calls[0], m));
    }
  }

  /** From a new breaker, after any calls: within the month, billed cost plus
      outstanding reservations never exceeds the limit plus the overruns of that
      month, and every threshold reached has been alerted exactly once. */
  lemma {:induction false} SpendingStaysBounded(c: Settings, calls: seq<Call>)
    requires ValidSettings(c)
    ensures var (s, m) := RunCalls(c, NEW_BREAKER, calls, Month(0, 0));
            && s.billed + Outstanding(s) <= c.limit + m.overruns && AlertedOnce(c, s, m)
            && forall i :: 0 <= i < |c.thresholds| && c.thresholds[i] <= s.billed + Outstanding(s) ==>
                 c.thresholds[i] as int in s.alerted
  {
    RunKeepsWithin(c, NEW_BREAKER, calls, Month(0, 0));
  }

  /** A reservation can be settled once: just after it was made it reconciles, and
      then never again, whatever other calls come between, in any month. */
  lemma {:induction false} ReservationSettlesOnce(c: Settings, s: Breaker, month: int, provider: Provider,
                                                  estimate: nat, cost: nat,
                               nominal: nat, calls: seq<Call>, later: int, m: Month)
    requires ValidSettings(c) && Within(c, s, m)
    requires Reserve(c, s, month, provider, estimate).1.Some?
    ensures var (t, r) := Reserve(c, s, month, provider, estimate);
            var (u, verdict) := Reconcile(c, t, month, r.value, cost, nominal);
            && !verdict.Inconsistent?
            && (verdict.Exceeded? <==> u.billed + Outstanding(u) > c.limit)
            && u.billed == Roll(s, month).billed + Dollars(provider, cost)
            && Outstanding(u) == Outstanding(Roll(s, month))
            && Reconcile(c, RunCalls(c, u, calls, m).0, later, r.value, cost, nominal).1.Inconsistent?
  {
    hide Within, AlertedOnce;
    RollKeeps(c, s, month, m);
    var r := Roll(s, month);
    var here := if s.month == Some(month) then m else Month(0, |s.alerts|);
    WithinMeans(c, r, here);
    AlertsOnly(c, r, r.billed + Outstanding(r) + Dollars(provider, estimate), 0);
    var (t, res) := Reserve(c, s, month, provider, estimate);
    assert t.reserved - {res.value.id} == r.reserved;
    var paid := Roll(t, month).(reserved := t.reserved - {res.value.id},
                     billed := t.billed + Dollars(provider, cost), nominal := t.nominal + nominal);
    AlertsOnly(c, paid, paid.billed + Outstanding(paid), 0);
    var u := Reconcile(c, t, month, res.value, cost, nominal).0;
    SettledStays(c, u, calls, m, res.value.id);
  }

  lemma {:induction false} WithinMeans(c: Settings, s: Breaker, m: Month)
    requires Within(c, s, m)
    ensures forall id :: id in s.reserved ==> id < s.issued
  {
  }

  /** Alerts touch nothing but the alerts. */
  lemma {:induction false} AlertsOnly(c: Settings, s: Breaker, projected: int, i: nat)
    requires i <= |c.thresholds|
    ensures var t := OpenAlerts(c, s, projected, i);
            t == s.(alerted := t.alerted, alerts := t.alerts)
    decreases |c.thresholds| - i
  {
    if i < |c.thresholds| {
      var threshold := c.thresholds[i];
      AlertsOnly(c, s, projected, i + 1);
      AlertsOnly(c, s.(alerted := s.alerted + {threshold as int}, alerts := s.alerts + [Alert(threshold, projected)]),
                 projected, i + 1);
    }
  }

  lemma {:induction false} SettledStays(c: Settings, s: Breaker, calls: seq<Call>, m: Month, id: nat)
    requires id < s.issued && id !in s.reserved
    ensures var t := RunCalls(c, s, calls, m).0; id < t.issued && id !in t.reserved
    decreases |calls|
  {
    hide Roll, OpenAlerts, Outstanding;
    if calls != [] {
      SettledStaysHere(c, s, calls[0], id);
      SettledStays(c, Step(c, s, calls[0]), calls[1..], NextMonth(c, s, calls[0], m), id);
    }
  }

  lemma {:induction false} SettledStaysHere(c: Settings, s: Breaker, call: Call, id: nat)
    requires id < s.issued && id !in s.reserved
    ensures var t := Step(c, s, call); id < t.issued && id !in t.reserved
  {
    hide OpenAlerts, Outstanding;
    var r := Roll(s, call.month);
    match call {
      case ReserveCall(month, provider, estimate) =>
        AlertsOnly(c, r, r.billed + Outstanding(r) + Dollars(provider, estimate), 0);
      case ReconcileCall(month, res, cost, nominal) =>
        var paid := r.(reserved := r.reserved - {res.id}, billed := r.billed + Dollars(res.provider, cost),
                       nominal := r.nominal + nominal);
        AlertsOnly(c, paid, paid.billed + Outstanding(paid), 0);
    }
  }

  // ----- each call, by what it is given -----

  /** What is left of the books when a call comes in some month. */
  ghost function BilledIn(s: Breaker, month: int): nat {
    if s.month == Some(month) then s.billed else 0
  }

  ghost function ReservedIn(s: Breaker, month: int): map<nat, Pending> {
    if s.month == Some(month) then s.reserved else map[]
  }

  /** Opening alerts adds just the thresholds reached and not alerted before, each
      with the projection that reached it, in rising order. */
  lemma {:induction false} AlertsAreExact(c: Settings, s: Breaker, projected: int, i: nat)
    requires ValidSettings(c) && i <= |c.thresholds|
    ensures var t := OpenAlerts(c, s, projected, i);
            && (forall x :: x in t.alerted <==>
                  x in s.alerted || exists j :: i <= j < |c.thresholds| && c.thresholds[j] == x && x <= projected)
            && s.alerts <= t.alerts
            && forall k :: |s.alerts| <= k < |t.alerts| ==>
                 && t.alerts[k].projected == projected && t.alerts[k].threshold <= projected
                 && t.alerts[k].threshold !in s.alerted
    decreases |c.thresholds| - i
  {
    if i < |c.thresholds| {
      var threshold := c.thresholds[i];
      if projected >= threshold && threshold !in s.alerted {
        var next := s.(alerted := s.alerted + {threshold as int}, alerts := s.alerts + [Alert(threshold, projected)]);
        AlertsAreExact(c, next, projected, i + 1);
      } else {
        AlertsAreExact(c, s, projected, i + 1);
      }
    }
  }

  /** A reservation is granted if and only if cost billed in the month, outstanding
      reservations and the new estimate together stay within the limit; the one free
      provider counts nothing. Granting records the estimate under a new id, and
      nothing else but alerts; a refusal records nothing. */
  lemma {:induction false} ReserveExactlyWhen(c: Settings, s: Breaker, month: int, provider: Provider, estimate: nat,
                                              m: Month)
    requires ValidSettings(c) && Within(c, s, m)
    ensures var (t, r) := Reserve(c, s, month, provider, estimate);
            var billed, held := BilledIn(s, month), ReservedIn(s, month);
            var dollars := if provider.Exa? then 0 else estimate;
            && (r.Some? <==> billed + Total(held, DollarsOf) + dollars <= c.limit)
            && t.month == Some(month) && t.billed == billed
            && t.nominal == (if s.month == Some(month) then s.nominal else 0)
            && (r.None? ==> t.reserved == held && t.alerts == s.alerts)
            && (r.Some? ==>
                  && r.value.estimate == estimate && r.value.provider == provider && r.value.id !in held
                  && t.reserved == held[r.value.id := Pending(provider, dollars)]
                  && Outstanding(t) == Total(held, DollarsOf) + dollars
                  && (forall x :: x in t.alerted <==>
                        || (s.month == Some(month) && x in s.alerted)
                        || exists j :: 0 <= j < |c.thresholds| && c.thresholds[j] == x && x <= billed + Outstanding(t)))
  {
    hide OpenAlerts, AlertedOnce;
    var r, dollars := Roll(s, month), Dollars(provider, estimate);
    var projected := r.billed + Outstanding(r) + dollars;
    AlertsOnly(c, r, projected, 0);
    AlertsAreExact(c, r, projected, 0);
    TotalSet(r.reserved, r.issued, Pending(provider, dollars), DollarsOf);
    assert r.issued !in r.reserved && r.reserved - {r.issued} == r.reserved;
  }

  /** A reconciliation takes the reservation out in any case. It is consistent if and
      only if that is outstanding in this month with its provider and estimate; then
      its cost is billed, unless the provider is free, and the verdict says whether
      billed and outstanding cost exceed the limit. */
  lemma {:induction false} ReconcileExactlyWhen(c: Settings, s: Breaker, month: int, res: Reservation, cost: nat,
                                                nominal: nat)
    ensures var (t, v) := Reconcile(c, s, month, res, cost, nominal);
            var billed, held := BilledIn(s, month), ReservedIn(s, month);
            && t.month == Some(month) && t.reserved == held - {res.id}
            && (!v.Inconsistent? <==>
                  && res.id in held && held[res.id].provider == res.provider
                  && held[res.id].dollars == if res.provider.Exa? then 0 else res.estimate)
            && t.billed == billed + (if v.Inconsistent? || res.provider.Exa? then 0 else cost)
            && t.nominal == (if s.month == Some(month) then s.nominal else 0) + (if v.Inconsistent? then 0 else nominal)
            && (!v.Inconsistent? ==> (v.Exceeded? <==> c.limit < t.billed + Outstanding(t)))
            && (res.id in held ==> Total(held, DollarsOf) == Outstanding(t) + held[res.id].dollars)
  {
    hide OpenAlerts;
    var r := Roll(s, month);
    var paid := r.(reserved := r.reserved - {res.id}, billed := r.billed + Dollars(res.provider, cost),
                   nominal := r.nominal + nominal);
    AlertsOnly(c, paid, paid.billed + Outstanding(paid), 0);
    if res.id in r.reserved {
      TotalRemove(r.reserved, res.id, DollarsOf);
    }
  }
}
