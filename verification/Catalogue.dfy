/** Bounded streaming selection of discovery markets (src/vtrade/kalshi.py): one
    pass over the catalogue pages keeps only a shortlist, yet selects the same
    markets as ranking the whole catalogue at once. */
module Catalogue {
  import opened Domain

  datatype Candidate = Candidate(key: MarketRef, volume: int, liquidity: int)

  /** A catalogue row; some rows are not ordinary markets at all. */
  datatype Row = Ignored | Listed(candidate: Candidate, tradeable: bool)

  datatype ScanRequest = ScanRequest(
    held: seq<MarketRef>, touched: seq<MarketRef>, historical: seq<MarketRef>,
    maximumHistorical: nat, maximumAdditional: nat)
  {
    /** Keys kept whatever their rank, in the order they are reported. */
    function Preferred(): seq<MarketRef> {
      (if |historical| <= maximumHistorical then historical else historical[..maximumHistorical]) + held + touched
    }
  }

  /** Rank order: higher volume, then higher liquidity, then smaller reference. */
  predicate Better(a: Candidate, b: Candidate) {
    || a.volume > b.volume
    || (a.volume == b.volume && a.liquidity > b.liquidity)
    || (a.volume == b.volume && a.liquidity == b.liquidity && a.key < b.key)
  }

  // ----- the K best of a set -----

  ghost predicate IsBest(b: Candidate, s: set<Candidate>) {
    b in s && forall c :: c in s && c != b ==> Better(b, c)
  }

  lemma {:induction false} BestExists(s: set<Candidate>)
    requires s != {}
    ensures exists b :: IsBest(b, s)
    decreases |s|
  {
    var x :| x in s;
    var others := s - {x};
    if others == {} {
      assert forall c :: c in s ==> c in others || c == x;
      assert IsBest(x, s);
    } else {
      BestExists(others);
      var y :| IsBest(y, others);
      BetterOfTwo(x, y, s);
    }
  }

  lemma {:induction false} BetterOfTwo(x: Candidate, y: Candidate, s: set<Candidate>)
    requires x in s && IsBest(y, s - {x})
    ensures IsBest(if Better(x, y) then x else y, s)
  {
    forall c | c in s && c != x ensures c == y || Better(y, c) {
      assert c in s - {x};
    }
  }

  function Best(s: set<Candidate>): (b: Candidate)
    requires s != {}
    ensures IsBest(b, s)
  {
    BestExists(s);
    assert exists b :: b in s && forall c :: c in s && c != b ==> Better(b, c) by {
      var b :| IsBest(b, s);
      assert b in s;
    }
    var b :| b in s && forall c :: c in s && c != b ==> Better(b, c);
    b
  }

  /** All candidates of a set, best first. */
  function Ranked(s: set<Candidate>): seq<Candidate>
    decreases |s|
  {
    if s == {} then [] else [Best(s)] + Ranked(s - {Best(s)})
  }

  /** The k best candidates, chosen one after another from the whole set. */
  function TopSet(s: set<Candidate>, k: nat): set<Candidate> {
    if k == 0 || s == {} then {} else {Best(s)} + TopSet(s - {Best(s)}, k - 1)
  }

  /** t holds k candidates of s, or all of them, and nothing left out is better. */
  ghost predicate IsTop(t: set<Candidate>, s: set<Candidate>, k: nat) {
    && t <= s && |t| == (if k <= |s| then k else |s|)
    && forall x, y :: x in t && y in s - t ==> Better(x, y)
  }

  lemma {:induction false} TopSetIsTop(s: set<Candidate>, k: nat)
    ensures IsTop(TopSet(s, k), s, k)
  {
    if k != 0 && s != {} {
      TopSetIsTop(s - {Best(s)}, k - 1);
    }
  }

  lemma {:induction false} TopIsUnique(t: set<Candidate>, u: set<Candidate>, s: set<Candidate>, k: nat)
    requires IsTop(t, s, k) && IsTop(u, s, k)
    ensures t == u
  {
    assert t <= s && u <= s && |t| == |u|;
    hide IsTop;
    if x, y :| x in t && x !in u && y in u && y !in t {
      TopOrder(t, s, k, x, y);
      TopOrder(u, s, k, y, x);
    } else if t < u {
      SmallerSubset(t, u);
    } else if u < t {
      SmallerSubset(u, t);
    }
  }

  lemma {:induction false} TopOrder(t: set<Candidate>, s: set<Candidate>, k: nat, x: Candidate, y: Candidate)
    requires IsTop(t, s, k) && x in t && y in s && y !in t
    ensures Better(x, y)
  {
  }

  lemma {:induction false} SmallerSubset(t: set<Candidate>, u: set<Candidate>)
    requires t < u
    ensures |t| < |u|
  {
    var x :| x in u && x !in t;
    assert t <= u - {x};
    SubsetSize(t, u - {x});
  }

  lemma {:induction false} SubsetSize(t: set<Candidate>, u: set<Candidate>)
    requires t <= u
    ensures |t| <= |u|
    decreases |t|
  {
    if t != {} {
      var x :| x in t;
      SubsetSize(t - {x}, u - {x});
    }
  }

  /** A shortlist that is not full yet takes every newcomer. */
  lemma {:induction false} TopGrows(t: set<Candidate>, s: set<Candidate>, k: nat, c: Candidate)
    requires IsTop(t, s, k) && c !in s && |t| < k
    ensures IsTop(t + {c}, s + {c}, k)
  {
    if t != s {
      SmallerSubset(t, s);
    }
    assert (s + {c}) - (t + {c}) == {};
  }

  /** A full shortlist swaps its worst member for a better newcomer, or stays. */
  lemma {:induction false} TopReplaces(t: set<Candidate>, s: set<Candidate>, k: nat, c: Candidate, worst: Candidate)
    requires IsTop(t, s, k) && c !in s && |t| == k
    requires worst in t && forall x :: x in t && x != worst ==> Better(x, worst)
    ensures IsTop(if Better(c, worst) then t - {worst} + {c} else t, s + {c}, k)
  {
    SubsetSize(t, s);
    var next := if Better(c, worst) then t - {worst} + {c} else t;
    forall x, y | x in next && y in (s + {c}) - next ensures Better(x, y) {
      assert x == c || x == worst || Better(x, worst);
      assert y == c || y == worst || Better(worst, y);
    }
  }

  // ----- the scan -----

  /** Tradeable rows, kept by key if `kept` and competing by rank otherwise. */
  ghost function Select(q: ScanRequest, rows: seq<Row>, kept: bool): set<Candidate> {
    if rows == [] then {}
    else
      var last := rows[|rows|-1];
      Select(q, rows[..|rows|-1], kept)
      + if last.Listed? && last.tradeable && (last.candidate.key in q.Preferred()) == kept then {last.candidate} else {}
  }

  ghost function Kept(q: ScanRequest, rows: seq<Row>): set<Candidate> {
    Select(q, rows, true)
  }

  ghost function Others(q: ScanRequest, rows: seq<Row>): set<Candidate> {
    Select(q, rows, false)
  }

  ghost function KeysIn(rows: seq<Row>): set<MarketRef> {
    if rows == [] then {}
    else
      var last := rows[|rows|-1];
      KeysIn(rows[..|rows|-1]) + if last.Listed? then {last.candidate.key} else {}
  }

  ghost predicate DuplicateFree(rows: seq<Row>) {
    forall i, j :: 0 <= i < j < |rows| && rows[i].Listed? && rows[j].Listed? ==>
      rows[i].candidate.key != rows[j].candidate.key
  }

  /** The dictionary m holds exactly the candidates of t, by key. */
  ghost predicate Holds(m: map<MarketRef, Candidate>, t: set<Candidate>) {
    && |m| == |t|
    && (forall k :: k in m ==> m[k].key == k && m[k] in t)
    && (forall c :: c in t ==> c.key in m && m[c.key] == c)
  }

  /** State of the scan after some rows. */
  ghost predicate Scanned(q: ScanRequest, done: seq<Row>, seen: set<MarketRef>,
                          retained: map<MarketRef, Candidate>, additional: map<MarketRef, Candidate>)
  {
    && DuplicateFree(done) && seen == KeysIn(done)
    && Holds(retained, Kept(q, done))
    && Holds(additional, TopSet(Others(q, done), q.maximumAdditional))
  }

  lemma {:induction false} KeysMembers(rows: seq<Row>, k: MarketRef)
    ensures k in KeysIn(rows) <==> exists i :: 0 <= i < |rows| && rows[i].Listed? && rows[i].candidate.key == k
  {
    if rows != [] {
      KeysMembers(rows[..|rows|-1], k);
      var n := |rows| - 1;
      assert forall i :: 0 <= i < n ==> rows[..n][i] == rows[i];
      if rows[n].Listed? && rows[n].candidate.key == k {
        assert 0 <= n < |rows|;
      }
    }
  }

  lemma {:induction false} SelectMembers(q: ScanRequest, rows: seq<Row>, kept: bool, c: Candidate)
    ensures c in Select(q, rows, kept) <==> Listed(c, true) in rows && (c.key in q.Preferred()) == kept
  {
    if rows != [] {
      var n := |rows| - 1;
      SelectMembers(q, rows[..n], kept, c);
      assert rows == rows[..n] + [rows[n]];
    }
  }

  lemma {:induction false} AppendRow(q: ScanRequest, done: seq<Row>, row: Row, kept: bool)
    ensures KeysIn(done + [row]) == KeysIn(done) + (if row.Listed? then {row.candidate.key} else {})
    ensures DuplicateFree(done + [row]) <==> DuplicateFree(done) && (row.Listed? ==> row.candidate.key !in KeysIn(done))
    ensures Select(q, done + [row], kept) == Select(q, done, kept)
              + if row.Listed? && row.tradeable && (row.candidate.key in q.Preferred()) == kept
                then {row.candidate} else {}
  {
    var rows := done + [row];
    assert rows[..|done|] == done;
    if row.Listed? {
      KeysMembers(done, row.candidate.key);
    }
    assert forall i :: 0 <= i < |done| ==> rows[i] == done[i];
    assert rows[|done|] == row;
    if DuplicateFree(rows) && row.Listed? {
      assert forall i :: 0 <= i < |done| && rows[i].Listed? ==> rows[i].candidate.key != rows[|done|].candidate.key;
    }
  }

  lemma {:induction false} HoldsMore(m: map<MarketRef, Candidate>, t: set<Candidate>, c: Candidate)
    requires Holds(m, t) && c.key !in m
    ensures Holds(m[c.key := c], t + {c})
  {
    assert c !in t;
    assert m[c.key := c].Keys == m.Keys + {c.key};
  }

  lemma {:induction false} HoldsLess(m: map<MarketRef, Candidate>, t: set<Candidate>, c: Candidate)
    requires Holds(m, t) && c in t
    ensures Holds(m - {c.key}, t - {c})
  {
    assert (m - {c.key}).Keys == m.Keys - {c.key};
  }

  /** The candidates in a dictionary. */
  function ValuesOf(m: map<MarketRef, Candidate>): set<Candidate> {
    set k | k in m :: m[k]
  }

  lemma {:induction false} ValuesHeld(m: map<MarketRef, Candidate>, t: set<Candidate>)
    requires Holds(m, t)
    ensures ValuesOf(m) == t
  {
    assert forall c :: c in t ==> c.key in m && m[c.key] == c;
    assert forall c :: c in t ==> c in ValuesOf(m);
  }

  /** The worst member of a non-empty shortlist. */
  method WorstOf(m: map<MarketRef, Candidate>, ghost t: set<Candidate>) returns (worst: Candidate)
    requires Holds(m, t) && t != {}
    ensures worst in t && forall c :: c in t && c != worst ==> Better(c, worst)
  {
    ValuesHeld(m, t);
    var rest := ValuesOf(m);
    worst :| worst in rest;
    rest := rest - {worst};
    while rest != {}
      invariant rest <= t && worst in t && worst !in rest
      invariant forall c :: c in t && c !in rest && c != worst ==> Better(c, worst)
      decreases |rest|
    {
      var c :| c in rest;
      if Better(worst, c) {
        worst := c;
      }
      rest := rest - {c};
    }
  }

  /** One row of the scan, for a market not seen before. */
  method ScanRow(q: ScanRequest, ghost done: seq<Row>, row: Row, seen: set<MarketRef>,
                 retained: map<MarketRef, Candidate>, additional: map<MarketRef, Candidate>)
    returns (seen': set<MarketRef>, retained': map<MarketRef, Candidate>, additional': map<MarketRef, Candidate>)
    requires Scanned(q, done, seen, retained, additional)
    requires row.Listed? ==> row.candidate.key !in seen
    ensures Scanned(q, done + [row], seen', retained', additional')
  {
    hide Select, TopSet, DuplicateFree, KeysIn;
    AppendRow(q, done, row, true);
    AppendRow(q, done, row, false);
    seen', retained', additional' := seen, retained, additional;
    if row.Ignored? {
      return;
    }
    var c := row.candidate;
    ghost var others, k := Others(q, done), q.maximumAdditional;
    ghost var top := TopSet(others, k);
    TopSetIsTop(others, k);
    TopSetIsTop(Others(q, done + [row]), k);
    FreshCandidate(q, done, c);
    seen' := seen + {c.key};
    if !row.tradeable {
      return;
    }
    if c.key in q.Preferred() {
      HoldsMore(retained, Kept(q, done), c);
      retained' := retained[c.key := c];
      return;
    }
    if q.maximumAdditional <= 0 {
      return;
    }
    if |additional| < q.maximumAdditional {
      ShortlistGrows(additional, others, k, c);
      additional' := additional[c.key := c];
      return;
    }
    var worst := WorstOf(additional, top);
    ShortlistReplaces(additional, others, k, c, worst);
    if Better(c, worst) {
      additional' := (additional - {worst.key})[c.key := c];
    }
  }

  lemma {:induction false} ShortlistGrows(m: map<MarketRef, Candidate>, s: set<Candidate>, k: nat, c: Candidate)
    requires Holds(m, TopSet(s, k)) && c.key !in m && c !in s && |m| < k
    ensures Holds(m[c.key := c], TopSet(s + {c}, k))
  {
    hide TopSet, IsTop;
    var top := TopSet(s, k);
    TopSetIsTop(s, k);
    TopSetIsTop(s + {c}, k);
    TopGrows(top, s, k, c);
    TopIsUnique(top + {c}, TopSet(s + {c}, k), s + {c}, k);
    HoldsMore(m, top, c);
  }

  lemma {:induction false} ShortlistReplaces(m: map<MarketRef, Candidate>, s: set<Candidate>, k: nat, c: Candidate,
                                             worst: Candidate)
    requires Holds(m, TopSet(s, k)) && c.key !in m && c !in s && |m| == k
    requires worst in TopSet(s, k) && forall x :: x in TopSet(s, k) && x != worst ==> Better(x, worst)
    ensures Holds(if Better(c, worst) then (m - {worst.key})[c.key := c] else m, TopSet(s + {c}, k))
  {
    hide TopSet, IsTop, Better;
    var top := TopSet(s, k);
    TopSetIsTop(s, k);
    TopSetIsTop(s + {c}, k);
    TopReplaces(top, s, k, c, worst);
    TopIsUnique(if Better(c, worst) then top - {worst} + {c} else top, TopSet(s + {c}, k), s + {c}, k);
    if Better(c, worst) {
      HoldsLess(m, top, worst);
      HoldsMore(m - {worst.key}, top - {worst}, c);
    }
  }

  /** A new key is in no selection yet. */
  lemma {:induction false} FreshCandidate(q: ScanRequest, done: seq<Row>, c: Candidate)
    requires c.key !in KeysIn(done)
    ensures forall d ::
              d in Kept(q, done) || d in TopSet(Others(q, done), q.maximumAdditional) || d in Others(q, done) ==>
                d.key != c.key
  {
    TopSetIsTop(Others(q, done), q.maximumAdditional);
    forall d, kept | d in Select(q, done, kept) ensures d.key != c.key {
      SelectMembers(q, done, kept, d);
      KeysMembers(done, d.key);
    }
  }

  // ----- what is selected -----

  /** Keys of the list that are allowed, each at its first place. */
  function FirstPlaces(keys: seq<MarketRef>, allowed: set<MarketRef>): seq<MarketRef> {
    if keys == [] then []
    else
      var before, k := FirstPlaces(keys[..|keys|-1], allowed), keys[|keys|-1];
      if k in allowed && k !in before then before + [k] else before
  }

  function KeysOf(ranked: seq<Candidate>): seq<MarketRef> {
    if ranked == [] then [] else [ranked[0].key] + KeysOf(ranked[1..])
  }

  ghost function KeptKeys(q: ScanRequest, rows: seq<Row>): set<MarketRef> {
    set c | c in Kept(q, rows) :: c.key
  }

  /** The selection as one ranking of the whole catalogue: preferred markets that
      are tradeable, then the best of all other tradeable markets, best first. */
  ghost function Selection(q: ScanRequest, rows: seq<Row>): seq<MarketRef> {
    FirstPlaces(q.Preferred(), KeptKeys(q, rows)) + KeysOf(Ranked(TopSet(Others(q, rows), q.maximumAdditional)))
  }

  function Flatten(pages: seq<seq<Row>>): seq<Row> {
    if pages == [] then [] else Flatten(pages[..|pages|-1]) + pages[|pages|-1]
  }

  lemma {:induction false} KeyHeld(m: map<MarketRef, Candidate>, t: set<Candidate>, k: MarketRef)
    requires Holds(m, t)
    ensures k in m <==> k in set c | c in t :: c.key
  {
    if k in m {
      assert m[k] in t && m[k].key == k;
    }
  }

  lemma {:induction false} KeptKeysHeld(q: ScanRequest, rows: seq<Row>, retained: map<MarketRef, Candidate>)
    requires Holds(retained, Kept(q, rows))
    ensures forall k :: k in retained <==> k in KeptKeys(q, rows)
  {
    hide Select;
    forall k ensures k in retained <==> k in KeptKeys(q, rows) {
      KeyHeld(retained, Kept(q, rows), k);
    }
  }

  /** Preferred keys in order, each once, if retained. */
  method PreferredPart(q: ScanRequest, ghost rows: seq<Row>, retained: map<MarketRef, Candidate>)
    returns (values: seq<MarketRef>)
    requires Holds(retained, Kept(q, rows))
    ensures values == FirstPlaces(q.Preferred(), KeptKeys(q, rows))
  {
    var preferred := q.Preferred();
    ghost var allowed := KeptKeys(q, rows);
    assert forall k :: k in retained <==> k in allowed by {
      KeptKeysHeld(q, rows, retained);
    }
    hide Select, Holds, KeptKeys;
    values := [];
    for i := 0 to |preferred|
      invariant values == FirstPlaces(preferred[..i], allowed)
    {
      assert preferred[..i+1][..i] == preferred[..i];
      if preferred[i] in retained && preferred[i] !in values {
        values := values + [preferred[i]];
      }
    }
    assert preferred[..|preferred|] == preferred;
  }

  /** _discovery_keys: preferred keys, then the shortlist by rank. */
  method DiscoveryKeys(q: ScanRequest, ghost rows: seq<Row>, retained: map<MarketRef, Candidate>,
                       additional: map<MarketRef, Candidate>)
    returns (values: seq<MarketRef>)
    requires DuplicateFree(rows) && Holds(retained, Kept(q, rows))
    requires Holds(additional, TopSet(Others(q, rows), q.maximumAdditional))
    ensures values == Selection(q, rows)
  {
    hide Select, TopSet, Ranked, KeysOf, FirstPlaces, Holds, DuplicateFree;
    values := PreferredPart(q, rows, retained);
    ghost var first := values;
    ValuesHeld(additional, TopSet(Others(q, rows), q.maximumAdditional));
    var ranked := Ranked(ValuesOf(additional));
    assert KeysOf(ranked[..0]) == [] by { KeysOfNothing(ranked); }
    for i := 0 to |ranked|
      invariant values == first + KeysOf(ranked[..i])
    {
      ShortlistKeyIsNew(q, rows, ranked, i);
      KeysOfAppend(ranked, i);
      if ranked[i].key !in values {
        values := values + [ranked[i].key];
      }
    }
    assert ranked[..|ranked|] == ranked;
  }

  lemma {:induction false} KeysOfNothing(ranked: seq<Candidate>)
    ensures KeysOf(ranked[..0]) == []
  {
  }

  lemma {:induction false} KeysOfAppend(ranked: seq<Candidate>, i: nat)
    requires i < |ranked|
    ensures KeysOf(ranked[..i+1]) == KeysOf(ranked[..i]) + [ranked[i].key]
  {
    if i == 0 {
      assert ranked[..1] == [ranked[0]];
    } else {
      KeysOfAppend(ranked[1..], i - 1);
      assert ranked[..i+1][1..] == ranked[1..][..i] && ranked[..i][1..] == ranked[1..][..i-1];
    }
  }

  /** Ranking lists every candidate once, each better than those after it. */
  lemma {:induction false} RankedMembers(s: set<Candidate>)
    ensures var r := Ranked(s);
            && (forall c :: c in r <==> c in s)
            && (forall i, j :: 0 <= i < j < |r| ==> Better(r[i], r[j]))
    decreases |s|
  {
    if s != {} {
      RankedMembers(s - {Best(s)});
    }
  }

  lemma {:induction false} KeysOfMembers(ranked: seq<Candidate>, k: MarketRef)
    ensures k in KeysOf(ranked) <==> exists i :: 0 <= i < |ranked| && ranked[i].key == k
  {
    if ranked != [] {
      KeysOfMembers(ranked[1..], k);
      assert forall i :: 1 <= i < |ranked| ==> ranked[i] == ranked[1..][i-1];
    }
  }

  lemma {:induction false} FirstPlacesMembers(keys: seq<MarketRef>, allowed: set<MarketRef>, k: MarketRef)
    ensures k in FirstPlaces(keys, allowed) <==> k in keys && k in allowed
  {
    if keys != [] {
      FirstPlacesMembers(keys[..|keys|-1], allowed, k);
      assert keys == keys[..|keys|-1] + [keys[|keys|-1]];
    }
  }

  /** A shortlisted key is neither preferred nor listed before. */
  lemma {:induction false} ShortlistKeyIsNew(q: ScanRequest, rows: seq<Row>, ranked: seq<Candidate>, i: nat)
    requires DuplicateFree(rows) && i < |ranked|
    requires ranked == Ranked(TopSet(Others(q, rows), q.maximumAdditional))
    ensures ranked[i].key !in FirstPlaces(q.Preferred(), KeptKeys(q, rows)) + KeysOf(ranked[..i])
  {
    hide Ranked, TopSet, KeysOf, FirstPlaces;
    var top := TopSet(Others(q, rows), q.maximumAdditional);
    TopSetIsTop(Others(q, rows), q.maximumAdditional);
    RankedMembers(top);
    var c := ranked[i];
    SelectMembers(q, rows, false, c);
    FirstPlacesMembers(q.Preferred(), KeptKeys(q, rows), c.key);
    KeysOfMembers(ranked[..i], c.key);
    if j :| 0 <= j < i && ranked[j].key == c.key {
      assert ranked[j] in ranked;
      SelectMembers(q, rows, false, ranked[j]);
      SameKeySameRow(rows, ranked[j], c);
    }
  }

  lemma {:induction false} SameKeySameRow(rows: seq<Row>, c: Candidate, d: Candidate)
    requires DuplicateFree(rows) && Listed(c, true) in rows && Listed(d, true) in rows && c.key == d.key
    ensures c == d
  {
    var i :| 0 <= i < |rows| && rows[i] == Listed(c, true);
    var j :| 0 <= j < |rows| && rows[j] == Listed(d, true);
  }

  /** scan_catalogue: one pass over pages and rows. It fails exactly on a market
      that occurs twice, and else returns the selection of the whole catalogue. */
  method ScanCatalogue(q: ScanRequest, pages: seq<seq<Row>>) returns (selected: Option<seq<MarketRef>>)
    ensures selected == if DuplicateFree(Flatten(pages)) then Some(Selection(q, Flatten(pages))) else None
  {
    hide Selection, Select, TopSet, KeysIn, Scanned;
    var seen: set<MarketRef> := {};
    var retained: map<MarketRef, Candidate>, additional: map<MarketRef, Candidate> := map[], map[];
    ghost var done: seq<Row> := [];
    assert Scanned(q, done, seen, retained, additional) by { NothingScanned(q); }
    assert pages[..0] == [];
    for i := 0 to |pages|
      invariant done == Flatten(pages[..i]) && Scanned(q, done, seen, retained, additional)
    {
      assert pages[..i+1][..i] == pages[..i];
      FlattenPrefix(pages, i + 1);
      for j := 0 to |pages[i]|
        invariant done == Flatten(pages[..i]) + pages[i][..j] && Scanned(q, done, seen, retained, additional)
      {
        var row := pages[i][j];
        SeenAreKeys(q, done, seen, retained, additional);
        AppendRow(q, done, row, true);
        assert pages[i][..j+1] == pages[i][..j] + [row];
        assert done + [row] == Flatten(pages[..i]) + pages[i][..j+1];
        if row.Listed? && row.candidate.key in seen {
          assert done + [row] <= Flatten(pages[..i]) + pages[i] <= Flatten(pages);
          DuplicatesStay(done + [row], Flatten(pages));
          return None;
        }
        seen, retained, additional := ScanRow(q, done, row, seen, retained, additional);
        done := done + [row];
      }
      assert pages[i][..|pages[i]|] == pages[i];
    }
    assert pages[..|pages|] == pages;
    ScannedHolds(q, done, seen, retained, additional);
    var values := DiscoveryKeys(q, done, retained, additional);
    return Some(values);
  }

  lemma {:induction false} NothingScanned(q: ScanRequest)
    ensures Scanned(q, [], {}, map[], map[])
  {
  }

  lemma {:induction false} SeenAreKeys(q: ScanRequest, done: seq<Row>, seen: set<MarketRef>,
                                       retained: map<MarketRef, Candidate>,
                    additional: map<MarketRef, Candidate>)
    requires Scanned(q, done, seen, retained, additional)
    ensures seen == KeysIn(done)
  {
  }

  lemma {:induction false} ScannedHolds(q: ScanRequest, done: seq<Row>, seen: set<MarketRef>,
                                        retained: map<MarketRef, Candidate>,
                     additional: map<MarketRef, Candidate>)
    requires Scanned(q, done, seen, retained, additional)
    ensures DuplicateFree(done) && Holds(retained, Kept(q, done))
    ensures Holds(additional, TopSet(Others(q, done), q.maximumAdditional))
  {
  }

  lemma {:induction false} FlattenPrefix(pages: seq<seq<Row>>, i: nat)
    requires i <= |pages|
    ensures Flatten(pages[..i]) <= Flatten(pages)
    decreases |pages| - i
  {
    if i == |pages| {
      assert pages[..i] == pages;
    } else {
      FlattenPrefix(pages, i + 1);
      assert pages[..i+1][..i] == pages[..i];
    }
  }

  lemma {:induction false} DuplicatesStay(first: seq<Row>, rows: seq<Row>)
    requires first <= rows && !DuplicateFree(first)
    ensures !DuplicateFree(rows)
  {
    var i, j :| 0 <= i < j < |first| && first[i].Listed? && first[j].Listed?
      && first[i].candidate.key == first[j].candidate.key;
    assert rows[i] == first[i] && rows[j] == first[j];
  }

  /** The selection depends on which rows the catalogue holds, not on their order
      or on how they are split into pages. */
  lemma {:induction false} OrderAndPagesDoNotMatter(q: ScanRequest, pages: seq<seq<Row>>, others: seq<seq<Row>>)
    requires forall r :: r in Flatten(pages) <==> r in Flatten(others)
    ensures Selection(q, Flatten(pages)) == Selection(q, Flatten(others))
  {
    var a, b := Flatten(pages), Flatten(others);
    forall c, kept ensures c in Select(q, a, kept) <==> c in Select(q, b, kept) {
      SelectMembers(q, a, kept, c);
      SelectMembers(q, b, kept, c);
    }
    assert Kept(q, a) == Kept(q, b) && Others(q, a) == Others(q, b);
  }

  /** What a selection holds: every preferred tradeable market, and of the other
      tradeable markets the K best, none of those left out being better. */
  lemma {:induction false} SelectionHolds(q: ScanRequest, rows: seq<Row>, c: Candidate)
    requires DuplicateFree(rows) && Listed(c, true) in rows
    ensures c.key in Selection(q, rows) <==>
              c.key in q.Preferred() || c in TopSet(Others(q, rows), q.maximumAdditional)
    ensures IsTop(TopSet(Others(q, rows), q.maximumAdditional), Others(q, rows), q.maximumAdditional)
  {
    hide Ranked, TopSet, KeysOf, FirstPlaces;
    var top := TopSet(Others(q, rows), q.maximumAdditional);
    var ranked := Ranked(top);
    TopSetIsTop(Others(q, rows), q.maximumAdditional);
    RankedMembers(top);
    SelectMembers(q, rows, true, c);
    SelectMembers(q, rows, false, c);
    FirstPlacesMembers(q.Preferred(), KeptKeys(q, rows), c.key);
    KeysOfMembers(ranked, c.key);
    if c in top {
      assert c in ranked;
    }
    if i :| 0 <= i < |ranked| && ranked[i].key == c.key {
      assert ranked[i] in ranked;
      SelectMembers(q, rows, false, ranked[i]);
      SameKeySameRow(rows, ranked[i], c);
    }
  }

  /** Of two candidates: more volume first, then more liquidity, then the smaller
      reference. */
  lemma {:induction false} BetterMeans(a: Candidate, b: Candidate)
    requires Better(a, b)
    ensures a.volume >= b.volume
    ensures a.volume == b.volume ==> a.liquidity >= b.liquidity
    ensures a.volume == b.volume && a.liquidity == b.liquidity ==> a.key < b.key
  {
  }

  /** Among the markets that are not preferred, one that is selected has more volume
      than one that is not, or as much and more liquidity, or as much of both and the
      smaller reference. */
  lemma {:induction false} SelectionFollowsRank(q: ScanRequest, rows: seq<Row>, a: Candidate, b: Candidate)
    requires DuplicateFree(rows) && Listed(a, true) in rows && Listed(b, true) in rows
    requires a.key !in q.held + q.touched + q.historical && b.key !in q.held + q.touched + q.historical
    requires a.key in Selection(q, rows) && b.key !in Selection(q, rows)
    ensures a.volume >= b.volume
    ensures a.volume == b.volume ==> a.liquidity >= b.liquidity
    ensures a.volume == b.volume && a.liquidity == b.liquidity ==> a.key < b.key
  {
    hide Selection, Select, Better, TopSet;
    NotPreferred(q, a.key);
    NotPreferred(q, b.key);
    SelectionHolds(q, rows, a);
    SelectionHolds(q, rows, b);
    SelectMembers(q, rows, false, b);
    assert Better(a, b);
    BetterMeans(a, b);
  }

  /** The keys that are kept whatever their rank: the historical ones up to their
      maximum, then the held, then the touched ones. */
  lemma {:induction false} PreferredMembers(q: ScanRequest, k: MarketRef)
    ensures var n := if |q.historical| <= q.maximumHistorical then |q.historical| else q.maximumHistorical;
            q.Preferred() == q.historical[..n] + q.held + q.touched
    ensures k in q.Preferred() <==>
              || k in q.held || k in q.touched
              || exists i :: 0 <= i < |q.historical| && i < q.maximumHistorical && q.historical[i] == k
  {
    var kept := if |q.historical| <= q.maximumHistorical then q.historical else q.historical[..q.maximumHistorical];
    if i :| 0 <= i < |q.historical| && i < q.maximumHistorical && q.historical[i] == k {
      assert kept[i] == k;
    }
    if i :| 0 <= i < |kept| && kept[i] == k {
      assert q.historical[i] == k;
    }
  }

  lemma {:induction false} NotPreferred(q: ScanRequest, k: MarketRef)
    requires k !in q.held + q.touched + q.historical
    ensures k !in q.Preferred()
  {
    PreferredMembers(q, k);
  }

  /** The shortlisted part of a selection, without the preferred markets in front. */
  ghost function Shortlist(q: ScanRequest, rows: seq<Row>): seq<MarketRef> {
    Selection(q, rows)[|FirstPlaces(q.Preferred(), KeptKeys(q, rows))|..]
  }

  /** The shortlist is reported in rank order. */
  lemma {:induction false} ShortlistIsRanked(q: ScanRequest, rows: seq<Row>, i: nat, j: nat)
    returns (a: Candidate, b: Candidate)
    requires i < j < |Shortlist(q, rows)|
    ensures Listed(a, true) in rows && Listed(b, true) in rows
    ensures a.key == Shortlist(q, rows)[i] && b.key == Shortlist(q, rows)[j]
    ensures a.volume >= b.volume
    ensures a.volume == b.volume ==> a.liquidity >= b.liquidity
    ensures a.volume == b.volume && a.liquidity == b.liquidity ==> a.key < b.key
  {
    hide Select, TopSet, Ranked, FirstPlaces, Better;
    var top := TopSet(Others(q, rows), q.maximumAdditional);
    var ranked := Ranked(top);
    assert Shortlist(q, rows) == KeysOf(ranked);
    KeysOfAt(ranked);
    a, b := ranked[i], ranked[j];
    RankedMembers(top);
    TopSetIsTop(Others(q, rows), q.maximumAdditional);
    SelectMembers(q, rows, false, a);
    SelectMembers(q, rows, false, b);
    BetterMeans(a, b);
  }

  lemma {:induction false} KeysOfAt(ranked: seq<Candidate>)
    ensures |KeysOf(ranked)| == |ranked|
    ensures forall i :: 0 <= i < |ranked| ==> KeysOf(ranked)[i] == ranked[i].key
  {
    if ranked != [] {
      KeysOfAt(ranked[1..]);
      assert forall i :: 1 <= i < |ranked| ==> ranked[i] == ranked[1..][i-1];
    }
  }

  /** Preferred markets come in the order of their first places in the request. */
  lemma {:induction false} FirstPlacesInOrder(keys: seq<MarketRef>, allowed: set<MarketRef>, i: nat, j: nat)
    returns (at: nat)
    requires i < j < |FirstPlaces(keys, allowed)|
    ensures at < |keys| && keys[at] == FirstPlaces(keys, allowed)[i]
    ensures FirstPlaces(keys, allowed)[j] !in keys[..at+1]
  {
    var n := |keys| - 1;
    var front := keys[..n];
    var before := FirstPlaces(front, allowed);
    if j < |before| {
      at := FirstPlacesInOrder(front, allowed, i, j);
      assert front[..at+1] == keys[..at+1];
    } else {
      assert FirstPlaces(keys, allowed) == before + [keys[n]];
      FirstPlacesMembers(front, allowed, before[i]);
      FirstPlacesMembers(front, allowed, keys[n]);
      assert before[i] in before;
      at :| 0 <= at < n && front[at] == before[i];
      assert forall l :: 0 <= l <= at ==> keys[..at+1][l] == front[l];
    }
  }
}
