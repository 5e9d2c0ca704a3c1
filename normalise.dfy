/**
 * What the database makes of the loader's inserts: the mapping batch, the
 * INSERT ... SELECT statements that fill `tld` and `domain` from `url_temp`,
 * the rows the `url` loop batches, and the `url` batch itself.
 */
module Normalise {
  import opened Common
  import opened Sql
  import opened Rows
  import opened Ordering
  import opened Conflicts
  import opened Staging

  // ---------------------------------------------------------------------------
  // mapping: INSERT INTO mapping (tld, description) VALUES (?, ?) ON CONFLICT DO NOTHING

  function SameTld(a: MappingRow, b: MappingRow): bool { a.tld == b.tld }

  /** The row one batch entry inserts; both parameters must have been set. */
  function BoundRow(b: Binding): (r: Result<MappingRow>)
    ensures r.Ok? <==> b.tld.Some? && b.description.Some?
    ensures r.Ok? ==> r.value.tld == b.tld.value && r.value.description == b.description.value
  {
    if b.tld.None? then Err(ParameterNotSet(1))
    else if b.description.None? then Err(ParameterNotSet(2))
    else Ok(MappingRow(b.tld.value, b.description.value))
  }

  /**
   * `executeBatch` of the mapping insert: every entry must have both
   * parameters; then each row is offered in turn under PRIMARY KEY (tld).
   */
  function ExecuteMappingBatch(table: seq<MappingRow>, batch: seq<Binding>): Result<seq<MappingRow>>
  {
    match CollectAll(batch, BoundRow)
    case Err(e) => Err(e)
    case Ok(rows) => Ok(InsertIgnore(table, rows, SameTld))
  }

  /** The mapping insert keeps tld a key and leaves the rows already there as they were. */
  lemma MappingInsertKeepsKey(table: seq<MappingRow>, rows: seq<MappingRow>)
    requires Consistent(table, SameTld)
    ensures var r := InsertIgnore(table, rows, SameTld);
      r[..|table|] == table && Consistent(r, SameTld)
  {
    assert Symmetric(SameTld);
    InsertIgnoreConsistent(table, rows, SameTld);
  }

  /** Every offered tld ends up in the table, with no error for one already there. */
  lemma MappingInsertCovers(table: seq<MappingRow>, rows: seq<MappingRow>, i: nat)
    requires i < |rows|
    ensures exists x :: x in InsertIgnore(table, rows, SameTld) && x.tld == rows[i].tld
  {
    var r := InsertIgnore(table, rows, SameTld);
    InsertIgnoreMaximal(table, rows, SameTld);
    assert rows[i] in rows;
    if rows[i] !in r {
      var x :| x in r && SameTld(x, rows[i]);
      assert x.tld == rows[i].tld;
    } else {
      assert rows[i].tld == rows[i].tld;
    }
  }

  /** In file order, the first line for a tld not yet in the table is the one inserted. */
  lemma MappingFirstWins(table: seq<MappingRow>, rows: seq<MappingRow>, i: nat)
    requires i < |rows|
    requires forall x :: x in table ==> x.tld != rows[i].tld
    requires forall j :: 0 <= j < i ==> rows[j].tld != rows[i].tld
    ensures rows[i] in InsertIgnore(table, rows, SameTld)
  {
    InsertIgnoreFirstWins(table, rows, SameTld, i);
  }

  // ---------------------------------------------------------------------------
  // tld: SELECT row_number() OVER (ORDER BY min(pos)), tld1, tld2 FROM url_temp GROUP BY tld1, tld2

  /** Each staged row's (tld1, tld2), with its rank. */
  function PairRanks(staged: seq<StagedRow>): (r: seq<((string, string), int)>)
    ensures |r| == |staged|
    ensures forall i :: 0 <= i < |staged| ==> r[i] == ((staged[i].tld1, staged[i].tld2), staged[i].pos)
  {
    seq(|staged|, i requires 0 <= i < |staged| => ((staged[i].tld1, staged[i].tld2), staged[i].pos))
  }

  /** min(pos) of a staged TLD pair. */
  function MinPos(staged: seq<StagedRow>, tld1: string, tld2: string): int
    requires HasKey(PairRanks(staged), (tld1, tld2))
  {
    MinFor(PairRanks(staged), (tld1, tld2))
  }

  function Rank(e: ((string, string), int)): int { e.1 }

  /** The tld rows: the ranked groups numbered 1, 2, ... */
  function TldOf(staged: seq<StagedRow>): (r: seq<TldRow>)
    ensures |r| == |RankedPairs(staged)|
    ensures forall i :: 0 <= i < |r| ==> r[i].tldId == i + 1 && (r[i].tld1, r[i].tld2) == RankedPairs(staged)[i].0
  {
    var ranked := RankedPairs(staged);
    seq(|ranked|, i requires 0 <= i < |ranked| => TldRow(i + 1, ranked[i].0.0, ranked[i].0.1))
  }

  /** The tld ids are exactly 1..k and each (tld1, tld2) appears once. */
  lemma TldIdsDense(staged: seq<StagedRow>)
    ensures var r := TldOf(staged);
      && (forall i :: 0 <= i < |r| ==> r[i].tldId == i + 1)
      && (forall i, j :: 0 <= i < j < |r| ==> r[i].tld1 != r[j].tld1 || r[i].tld2 != r[j].tld2)
  {
    var r := TldOf(staged);
    var ranked := RankedPairs(staged);
    forall i, j | 0 <= i < j < |r| ensures r[i].tld1 != r[j].tld1 || r[i].tld2 != r[j].tld2 {
      assert ranked[i].0 != ranked[j].0;
    }
  }

  /** Every tld row is the pair of some staged row. */
  lemma TldPairsAreStaged(staged: seq<StagedRow>, i: nat)
    requires i < |TldOf(staged)|
    ensures exists s :: s in staged && s.tld1 == TldOf(staged)[i].tld1 && s.tld2 == TldOf(staged)[i].tld2
  {
    var ranked := RankedPairs(staged);
    var xs := PairRanks(staged);
    assert HasKey(xs, ranked[i].0);
    var k :| 0 <= k < |xs| && xs[k].0 == ranked[i].0;
    assert staged[k] in staged;
  }

  /** Every staged pair has its tld row. */
  lemma TldCoversStaged(staged: seq<StagedRow>, s: StagedRow)
    requires s in staged
    ensures exists i :: 0 <= i < |TldOf(staged)| && TldOf(staged)[i].tld1 == s.tld1 && TldOf(staged)[i].tld2 == s.tld2
  {
    var r := TldOf(staged);
    var ranked := RankedPairs(staged);
    var xs := PairRanks(staged);
    var k :| 0 <= k < |staged| && staged[k] == s;
    var key := (s.tld1, s.tld2);
    assert xs[k].0 == key;
    assert HasKey(xs, key);
    var i :| 0 <= i < |ranked| && ranked[i].0 == key;
    assert (r[i].tld1, r[i].tld2) == key;
  }

  /** A staged pair whose best rank is smaller gets a smaller tld id. */
  lemma TldOrderedByBestRank(staged: seq<StagedRow>, i: nat, j: nat)
    requires var r := TldOf(staged); i < |r| && j < |r|
    ensures var r := TldOf(staged);
      && HasKey(PairRanks(staged), (r[i].tld1, r[i].tld2))
      && HasKey(PairRanks(staged), (r[j].tld1, r[j].tld2))
      && (MinPos(staged, r[i].tld1, r[i].tld2) < MinPos(staged, r[j].tld1, r[j].tld2) ==> r[i].tldId < r[j].tldId)
  {
    var ranked := RankedPairs(staged);
    if j <= i {
      assert Rank(ranked[j]) <= Rank(ranked[i]);
    }
  }

  /** The groups of `PairRanks`, each with its min(pos), ordered by it. */
  function RankedPairs(staged: seq<StagedRow>): (r: seq<((string, string), int)>)
    ensures SortedBy(r, Rank)
    ensures forall i :: 0 <= i < |r| ==> HasKey(PairRanks(staged), r[i].0) && r[i].1 == MinFor(PairRanks(staged), r[i].0)
    ensures forall i, j :: 0 <= i < j < |r| ==> r[i].0 != r[j].0
    ensures forall k :: HasKey(PairRanks(staged), k) ==> exists i :: 0 <= i < |r| && r[i].0 == k
  {
    var r := SortBy(GroupMin(PairRanks(staged)), Rank);
    ReorderedGroups(PairRanks(staged), r);
    r
  }

  /** A distinct-pair table whose ids are all different never collides with itself. */
  lemma TldRowsConsistent(staged: seq<StagedRow>)
    ensures Consistent([] + TldOf(staged), SameTldId)
  {
    var r := TldOf(staged);
    assert [] + r == r;
    NumberedConsistent(r);
  }

  lemma NumberedConsistent(r: seq<TldRow>)
    requires forall i :: 0 <= i < |r| ==> r[i].tldId == i + 1
    ensures Consistent(r, SameTldId)
  {
    forall i, j | 0 <= i < |r| && 0 <= j < |r| && i != j ensures !SameTldId(r[i], r[j]) {
      assert r[i].tldId == i + 1 && r[j].tldId == j + 1;
    }
  }

  function SameTldId(a: TldRow, b: TldRow): bool { a.tldId == b.tldId }

  // ---------------------------------------------------------------------------
  // domain: SELECT domain_name FROM url_temp GROUP BY domain_name

  function DomainNames(staged: seq<StagedRow>): (r: seq<string>)
    ensures |r| == |staged| && forall i :: 0 <= i < |staged| ==> r[i] == staged[i].domainName
  {
    seq(|staged|, i requires 0 <= i < |staged| => staged[i].domainName)
  }

  /** Each staged domain name once; the table's order is not modelled (first occurrence here). */
  function DomainsOf(staged: seq<StagedRow>): (r: seq<string>)
    ensures forall d :: d in r <==> exists s :: s in staged && s.domainName == d
    ensures Unique(r)
  {
    var names := DomainNames(staged);
    var r := Distinct(names);
    forall d ensures d in r <==> exists s :: s in staged && s.domainName == d {
      if d in names {
        var i :| 0 <= i < |names| && names[i] == d;
        assert staged[i] in staged;
      }
      if exists s :: s in staged && s.domainName == d {
        var s :| s in staged && s.domainName == d;
        var i :| 0 <= i < |staged| && staged[i] == s;
        assert names[i] == d;
      }
    }
    r
  }

  function SameDomain(a: string, b: string): bool { a == b }

  // ---------------------------------------------------------------------------
  // url: the loop over SELECT pos, domain_name, tld_id FROM url_temp NATURAL JOIN tld ... ORDER BY pos

  /** url_temp NATURAL JOIN tld: a staged row meets the tld row of its (tld1, tld2). */
  function StagedWithTld(s: StagedRow, t: TldRow): Option<UrlRow>
  {
    if s.tld1 == t.tld1 && s.tld2 == t.tld2 then Some(UrlRow(s.domainName, t.tldId, s.pos)) else None
  }

  function Position(u: UrlRow): int { u.position }

  /** The rows the url loop batches, in ascending rank. */
  function UrlOffer(staged: seq<StagedRow>, tld: seq<TldRow>): (r: seq<UrlRow>)
    ensures SortedBy(r, Position)
    ensures forall u :: u in r <==> exists s, t :: s in staged && t in tld && StagedWithTld(s, t) == Some(u)
  {
    var joined := JoinBy(staged, tld, StagedWithTld);
    var r := SortBy(joined, Position);
    assert forall u :: u in r <==> u in joined by {
      forall u ensures u in r <==> u in joined {
        assert u in r <==> u in multiset(r);
        assert u in joined <==> u in multiset(joined);
      }
    }
    r
  }

  /** The tld row numbered `id` holds the staged row's pair. */
  predicate IdOfPair(tld: seq<TldRow>, id: int, s: StagedRow)
  {
    1 <= id <= |tld| && tld[id - 1].tld1 == s.tld1 && tld[id - 1].tld2 == s.tld2
  }

  /** Every row the url loop batches is a staged row under the id tld gave its pair. */
  lemma UrlOfferRow(staged: seq<StagedRow>, u: UrlRow)
    requires u in UrlOffer(staged, TldOf(staged))
    ensures exists s :: s in staged && u.domainName == s.domainName && u.position == s.pos && IdOfPair(TldOf(staged), u.tldId, s)
  {
    OfferedRow(staged, TldOf(staged), u);
  }

  lemma OfferedRow(staged: seq<StagedRow>, tld: seq<TldRow>, u: UrlRow)
    requires forall i :: 0 <= i < |tld| ==> tld[i].tldId == i + 1
    requires u in UrlOffer(staged, tld)
    ensures exists s :: s in staged && u.domainName == s.domainName && u.position == s.pos && IdOfPair(tld, u.tldId, s)
  {
    var s, t :| s in staged && t in tld && StagedWithTld(s, t) == Some(u);
    var i :| 0 <= i < |tld| && tld[i] == t;
    assert u.tldId == i + 1 && t.tld1 == s.tld1 && t.tld2 == s.tld2;
    assert IdOfPair(tld, u.tldId, s);
  }

  /** Every staged row is batched for url, under the id tld gave its pair. */
  lemma UrlOfferCovers(staged: seq<StagedRow>, s: StagedRow)
    requires s in staged
    ensures exists u :: u in UrlOffer(staged, TldOf(staged)) && u.domainName == s.domainName && u.position == s.pos && IdOfPair(TldOf(staged), u.tldId, s)
  {
    TldCoversStaged(staged, s);
    var tld := TldOf(staged);
    var i :| 0 <= i < |tld| && tld[i].tld1 == s.tld1 && tld[i].tld2 == s.tld2;
    OfferedCovers(staged, tld, s, i);
  }

  lemma OfferedCovers(staged: seq<StagedRow>, tld: seq<TldRow>, s: StagedRow, i: nat)
    requires forall i :: 0 <= i < |tld| ==> tld[i].tldId == i + 1
    requires s in staged && i < |tld| && tld[i].tld1 == s.tld1 && tld[i].tld2 == s.tld2
    ensures exists u :: u in UrlOffer(staged, tld) && u.domainName == s.domainName && u.position == s.pos && IdOfPair(tld, u.tldId, s)
  {
    var u := UrlRow(s.domainName, tld[i].tldId, s.pos);
    assert StagedWithTld(s, tld[i]) == Some(u);
    assert tld[i] in tld;
    assert u in UrlOffer(staged, tld);
    assert IdOfPair(tld, u.tldId, s);
  }

  // ---------------------------------------------------------------------------
  // url: INSERT INTO url (position, domain_name, tld_id) VALUES (?, ?, ?) ON CONFLICT DO NOTHING

  /** Two url rows collide under PRIMARY KEY (domain_name, tld_id) or UNIQUE (position). */
  function UrlConflict(a: UrlRow, b: UrlRow): bool
  {
    (a.domainName == b.domainName && a.tldId == b.tldId) || a.position == b.position
  }

  const MinPosition: int := 1
  const MaxPosition: int := 10000

  /** CHECK (position >= 1 AND position <= 10000) */
  predicate PositionAllowed(p: int) { MinPosition <= p <= MaxPosition }

  /**
   * `executeBatch` of the url insert, entry by entry: the CHECK is evaluated
   * before conflicts are looked for; a colliding row is skipped; a row that
   * goes in needs its domain and its tld (FOREIGN KEYs). The batch is one
   * transaction: any failing entry fails it all.
   */
  function ExecuteUrlBatch(table: seq<UrlRow>, batch: seq<UrlRow>, domains: set<string>, tldIds: set<int>): Result<seq<UrlRow>>
    decreases |batch|
  {
    if batch == [] then Ok(table)
    else
      var o := batch[0];
      if !PositionAllowed(o.position) then Err(CheckViolation(o.position))
      else if CollidesWithAny(table, o, UrlConflict) then ExecuteUrlBatch(table, batch[1..], domains, tldIds)
      else if o.domainName !in domains || o.tldId !in tldIds then Err(ForeignKeyViolation(o.domainName, o.tldId))
      else ExecuteUrlBatch(table + [o], batch[1..], domains, tldIds)
  }

  /** The rows a url batch would add, whether or not it succeeds. */
  predicate ReferencesHold(rows: seq<UrlRow>, from: nat, domains: set<string>, tldIds: set<int>)
  {
    forall k :: from <= k < |rows| ==> rows[k].domainName in domains && rows[k].tldId in tldIds
  }

  /** The references of the rows from `from` on: those of the first, then of the rest. */
  lemma ReferencesHoldStep(rows: seq<UrlRow>, from: nat, domains: set<string>, tldIds: set<int>)
    requires from < |rows|
    ensures ReferencesHold(rows, from, domains, tldIds) <==>
      rows[from].domainName in domains && rows[from].tldId in tldIds && ReferencesHold(rows, from + 1, domains, tldIds)
  {
  }

  /**
   * The url batch succeeds exactly when every position passes the CHECK and
   * every row that goes in has its domain and its tld; it then leaves the
   * table as ON CONFLICT DO NOTHING does, row by row.
   */
  lemma {:induction false} ExecuteUrlBatchSpec(table: seq<UrlRow>, batch: seq<UrlRow>, domains: set<string>, tldIds: set<int>)
    ensures var r := ExecuteUrlBatch(table, batch, domains, tldIds);
      var inserted := InsertIgnore(table, batch, UrlConflict);
      && (r.Ok? <==> (forall o :: o in batch ==> PositionAllowed(o.position)) &&
                     ReferencesHold(inserted, |table|, domains, tldIds))
      && (r.Ok? ==> r.value == inserted)
    decreases |batch|
  {
    if batch != [] {
      var o := batch[0];
      var rest := batch[1..];
      assert (forall x :: x in batch ==> PositionAllowed(x.position)) <==>
        PositionAllowed(o.position) && forall x :: x in rest ==> PositionAllowed(x.position) by {
        assert forall x :: x in batch <==> x == o || x in rest;
      }
      if PositionAllowed(o.position) {
        if CollidesWithAny(table, o, UrlConflict) {
          ExecuteUrlBatchSpec(table, rest, domains, tldIds);
          assert InsertIgnore(table, batch, UrlConflict) == InsertIgnore(table, rest, UrlConflict);
        } else {
          var next := table + [o];
          var inserted := InsertIgnore(next, rest, UrlConflict);
          assert InsertIgnore(table, batch, UrlConflict) == inserted;
          ExecuteUrlBatchSpec(next, rest, domains, tldIds);
          assert inserted[|table|] == next[|table|] == o;
          ReferencesHoldStep(inserted, |table|, domains, tldIds);
        }
      }
    }
  }

  /** Only a position outside 1..10000 or a missing reference can fail the url batch. */
  lemma UrlBatchFailsOnlyOn(table: seq<UrlRow>, batch: seq<UrlRow>, domains: set<string>, tldIds: set<int>)
    requires forall o :: o in batch ==> PositionAllowed(o.position) && o.domainName in domains && o.tldId in tldIds
    ensures ExecuteUrlBatch(table, batch, domains, tldIds) == Ok(InsertIgnore(table, batch, UrlConflict))
  {
    ExecuteUrlBatchSpec(table, batch, domains, tldIds);
    var inserted := InsertIgnore(table, batch, UrlConflict);
    assert forall k :: |table| <= k < |inserted| ==> inserted[k] in batch;
  }
}
