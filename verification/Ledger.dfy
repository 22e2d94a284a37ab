/** Double-entry postings, balanced entries and the append-only ledger
    (src/vtrade/ledger.py). */
module Ledger {
  import opened Domain

  datatype Account = CashAccount | OwnerEquity | PositionCost | Fees | Proceeds | RealizedPnl | SettlementPayout

  datatype Posting = Posting(
    account: Account, amount: int, key: Option<PositionKey>, unitsDelta: Option<int>, feesDelta: Option<int>)

  /** What names an accounting event once and for all. */
  datatype EntryKey = Opening(agent: AgentId) | OrderAccounting(operation: int)
                    | SettlementOf(agent: AgentId, market: MarketRef, settledAt: int)

  datatype LedgerEntry = LedgerEntry(agent: AgentId, key: EntryKey, postings: seq<Posting>)

  /** What Posting's constructor accepts. */
  predicate ValidPosting(p: Posting) {
    && !(p.amount == 0 && p.unitsDelta.None? && p.feesDelta.None?)
    && (p.unitsDelta.Some? ==> p.unitsDelta.value != 0 && p.key.Some? && p.account == PositionCost)
    && (p.feesDelta.Some? ==> p.feesDelta.value != 0 && p.key.Some? && p.account == Fees)
  }

  /** What a sum over postings looks at. */
  datatype Measure = Amount | AmountIn(account: Account) | AmountAt(account: Account, key: PositionKey)
                   | EntryFeesAt(key: PositionKey)

  function Measured(p: Posting, m: Measure): int {
    match m
    case Amount => p.amount
    case AmountIn(a) => if p.account == a then p.amount else 0
    case AmountAt(a, k) => if p.account == a && p.key == Some(k) then p.amount else 0
    case EntryFeesAt(k) => if p.feesDelta.Some? && p.key == Some(k) then p.feesDelta.value else 0
  }

  function SumOf(postings: seq<Posting>, m: Measure): int {
    if postings == [] then 0 else Measured(postings[0], m) + SumOf(postings[1..], m)
  }

  lemma {:induction false} SumOfConcat(p: seq<Posting>, q: seq<Posting>, m: Measure)
    ensures SumOf(p + q, m) == SumOf(p, m) + SumOf(q, m)
  {
    if p == [] {
      assert p + q == q;
    } else {
      assert (p + q)[1..] == p[1..] + q;
      SumOfConcat(p[1..], q, m);
    }
  }

  /** What LedgerEntry's constructor accepts. */
  predicate ValidEntry(e: LedgerEntry) {
    && e.postings != []
    && (forall i :: 0 <= i < |e.postings| ==> ValidPosting(e.postings[i]))
    && SumOf(e.postings, Amount) == 0
  }

  /** A measure added up over the entries of one agent. */
  function Tally(entries: seq<LedgerEntry>, agent: AgentId, m: Measure): int {
    if entries == [] then 0
    else
      var last := entries[|entries|-1];
      Tally(entries[..|entries|-1], agent, m) + if last.agent == agent then SumOf(last.postings, m) else 0
  }

  lemma {:induction false} TallyAppend(entries: seq<LedgerEntry>, e: LedgerEntry, agent: AgentId, m: Measure)
    ensures Tally(entries + [e], agent, m)
         == Tally(entries, agent, m) + if e.agent == agent then SumOf(e.postings, m) else 0
  {
    assert (entries + [e])[..|entries|] == entries;
  }

  /** Balance of an account over the entries of one agent. */
  function Balance(entries: seq<LedgerEntry>, agent: AgentId, a: Account): int {
    Tally(entries, agent, AmountIn(a))
  }

  ghost predicate DistinctKeys(entries: seq<LedgerEntry>) {
    forall i, j :: 0 <= i < j < |entries| ==> entries[i].key != entries[j].key
  }

  lemma {:induction false} KeyNamesOneEntry(entries: seq<LedgerEntry>, e: LedgerEntry, f: LedgerEntry)
    requires DistinctKeys(entries) && e in entries && f in entries && e.key == f.key
    ensures e == f
  {
    var i :| 0 <= i < |entries| && entries[i] == e;
    var j :| 0 <= j < |entries| && entries[j] == f;
  }

  datatype AppendResult = Appended | AlreadyPresent | KeyConflict

  class AppendOnlyLedger {
    var entries: seq<LedgerEntry>
    var idempotency: map<EntryKey, LedgerEntry>

    /** The dictionary indexes exactly the entries, which never share a key. */
    ghost predicate Valid()
      reads this
    {
      && DistinctKeys(entries)
      && (forall i :: 0 <= i < |entries| ==>
            entries[i].key in idempotency && idempotency[entries[i].key] == entries[i])
      && (forall k :: k in idempotency ==> idempotency[k] in entries && idempotency[k].key == k)
    }

    constructor ()
      ensures Valid() && entries == []
    {
      entries := [];
      idempotency := map[];
    }

    /** A new key appends, the same event again is a no-op, and a key reused for
        another event is refused without change. */
    method Append(entry: LedgerEntry) returns (r: AppendResult)
      requires Valid()
      modifies this
      ensures Valid()
      ensures r.Appended? <==> forall e :: e in old(entries) ==> e.key != entry.key
      ensures r.AlreadyPresent? <==> entry in old(entries)
      ensures entries == if r.Appended? then old(entries) + [entry] else old(entries)
    {
      if entry.key in idempotency {
        return if idempotency[entry.key] != entry then KeyConflict else AlreadyPresent;
      }
      entries := entries + [entry];
      idempotency := idempotency[entry.key := entry];
      return Appended;
    }

    /** One pass over the entries and their postings. */
    method Balances(agent: AgentId) returns (balances: map<Account, int>)
      ensures forall a: Account :: a in balances && balances[a] == Balance(entries, agent, a)
    {
      balances := map[CashAccount := 0, OwnerEquity := 0, PositionCost := 0, Fees := 0, Proceeds := 0,
                      RealizedPnl := 0, SettlementPayout := 0];
      forall a: Account ensures a in balances && balances[a] == 0 {
        match a case CashAccount => case _ =>
      }
      assert entries[..0] == [];
      for i := 0 to |entries|
        invariant forall a: Account :: a in balances && balances[a] == Balance(entries[..i], agent, a)
      {
        assert entries[..i+1] == entries[..i] + [entries[i]];
        forall a { TallyAppend(entries[..i], entries[i], agent, AmountIn(a)); }
        if entries[i].agent == agent {
          var postings := entries[i].postings;
          ghost var before := balances;
          for j := 0 to |postings|
            invariant forall a: Account :: a in before && a in balances
                        && balances[a] + SumOf(postings[j..], AmountIn(a)) == before[a] + SumOf(postings, AmountIn(a))
          {
            assert postings[j..][1..] == postings[j+1..];
            balances := balances[postings[j].account := balances[postings[j].account] + postings[j].amount];
          }
        }
      }
      assert entries[..|entries|] == entries;
    }
  }
}
