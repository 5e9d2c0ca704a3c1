/**
 * What a run of `loadDatabase` leaves behind: when it succeeds, what each
 * table holds and that the views are there; when it fails, why; and that a
 * second run rebuilds the same database.
 */
module LoaderFacts {
  import opened Common
  import opened Sql
  import opened Rows
  import opened Ordering
  import opened Conflicts
  import opened Staging
  import opened Normalise
  import opened Catalog
  import opened Loader
  import opened Views
  import Ddl

  // ---------------------------------------------------------------------------
  // Vocabulary

  /** `name` is a table holding exactly `rows`. */
  ghost predicate Holds(objs: Objects, name: string, rows: seq<Tuple>)
  {
    name in objs && objs[name].TableObject? && objs[name].rows == rows
  }

  /** No object is a view. */
  ghost predicate NotView(objs: Objects, name: string)
  {
    !(name in objs && objs[name].ViewObject?)
  }

  /**
   * Going from `before` to `after` touched `name` only: every other object
   * is as it was or gone, and every other table stayed.
   */
  ghost predicate Survives(before: Objects, after: Objects, name: string)
  {
    && (forall n :: n in after && n != name ==> n in before && after[n] == before[n])
    && (forall n :: n in before && n != name && before[n].TableObject? ==> n in after)
  }

  /** None of the loader's table names is a view and none of its view names is a table. */
  ghost predicate Unclaimed(objs: Objects)
  {
    && NotView(objs, MappingTable.name) && NotView(objs, UrlTempTable.name) && NotView(objs, TldTable.name)
    && NotView(objs, DomainTable.name) && NotView(objs, UrlTable.name)
    && ViewNamesFree(objs)
  }

  /** What the mapping insert leaves in a new, empty mapping table; `Ok([])` without a file. */
  function MappingContents(file: Option<seq<string>>): Result<seq<MappingRow>>
  {
    match file
    case None => Ok([])
    case Some(lines) =>
      match MappingBatch(Fields(lines))
      case Err(e) => Err(e)
      case Ok(batch) => ExecuteMappingBatch([], batch)
  }

  /** The rows of the ranking file; `Ok([])` without a file. */
  function StagedContents(file: Option<seq<string>>): Result<seq<StagedRow>>
  {
    match file
    case None => Ok([])
    case Some(lines) => StagedRows(lines)
  }

  /** What the url insert leaves in a new, empty url table. */
  function UrlContents(staged: seq<StagedRow>): seq<UrlRow>
  {
    InsertIgnore([], UrlOffer(staged, TldOf(staged)), UrlConflict)
  }

  /** Both files read, and every rank within url's CHECK. */
  predicate Loadable(mappingFile: Option<seq<string>>, urlFile: Option<seq<string>>)
  {
    && MappingContents(mappingFile).Ok?
    && StagedContents(urlFile).Ok?
    && forall s :: s in StagedContents(urlFile).value ==> PositionAllowed(s.pos)
  }

  /** The view is in the catalog as the loader defines it. */
  ghost predicate HasView(objs: Objects, v: View)
  {
    v.name in objs && objs[v.name] == ViewObject(v.definition, v.sources)
  }

  /** The database a successful run leaves. */
  ghost predicate Loaded(objs: Objects, mappingFile: Option<seq<string>>, urlFile: Option<seq<string>>)
    requires Loadable(mappingFile, urlFile)
  {
    && Filled(objs, MappingContents(mappingFile).value, StagedContents(urlFile).value)
    && HasView(objs, UrlView) && HasView(objs, TldView) && HasView(objs, DomainView)
  }

  // ---------------------------------------------------------------------------
  // One constructor at a time

  /** Storing rows in a table keeps the catalog closed. */
  lemma WriteKeepsClosed(objs: Objects, name: string, rows: seq<Tuple>)
    requires Closed(objs) && name in objs && objs[name].TableObject?
    ensures Closed(objs[name := objs[name].(rows := rows)])
  {
    var after := objs[name := objs[name].(rows := rows)];
    assert after.Keys == objs.Keys;
    forall n | n in after && after[n].ViewObject? ensures after[n].sources <= after.Keys {
      assert n != name && after[n] == objs[n];
    }
  }

  /** A table that touched only another name keeps its rows. */
  lemma HoldsAfter(before: Objects, after: Objects, name: string, n: string, rows: seq<Tuple>)
    requires Survives(before, after, name) && n != name && Holds(before, n, rows)
    ensures Holds(after, n, rows)
  {
  }

  /** `Table.initialise` over a name no view holds: a new, empty table, nothing else touched. */
  lemma InitialiseFresh(objs: Objects, t: Table)
    requires Closed(objs) && NotView(objs, t.name)
    ensures var s := InitialiseTableEffect(objs, t);
      && s.outcome == Done && Closed(s.objects) && Survives(objs, s.objects, t.name)
      && Holds(s.objects, t.name, [])
  {
    InitialiseTableSpec(objs, t);
  }

  /** Storing rows in the table just initialised touches nothing else. */
  lemma WriteSurvives(before: Objects, objs: Objects, name: string, rows: seq<Tuple>)
    requires Closed(objs) && Survives(before, objs, name) && name in objs && objs[name].TableObject?
    ensures var after := objs[name := objs[name].(rows := rows)];
      Closed(after) && Survives(before, after, name) && Holds(after, name, rows)
  {
    WriteKeepsClosed(objs, name, rows);
  }

  /** An empty table reads as no rows. */
  lemma ReadEmpty<T>(objs: Objects, name: string, decode: Tuple -> Option<T>)
    requires Holds(objs, name, [])
    ensures ReadTable(objs, name, decode) == Ok([])
  {
  }

  /** A table written through an encoding reads back as the same rows. */
  lemma ReadWritten<T>(objs: Objects, name: string, rows: seq<T>, encode: T -> Tuple, decode: Tuple -> Option<T>)
    requires forall x :: decode(encode(x)) == Some(x)
    requires Holds(objs, name, EncodeAll(rows, encode))
    ensures ReadTable(objs, name, decode) == Ok(rows)
  {
    DecodeEncode(rows, encode, decode);
  }

  /** `new Mapping()` succeeds exactly when its file, if any, binds and inserts. */
  lemma MappingPhaseSpec(objs: Objects, file: Option<seq<string>>)
    requires Closed(objs) && NotView(objs, MappingTable.name)
    ensures var s := MappingPhase(objs, file);
      && (s.outcome == Done <==> MappingContents(file).Ok?)
      && (s.outcome.Failed? ==> s.outcome.error == MappingContents(file).error)
      && (s.outcome == Done ==>
            && Closed(s.objects) && Survives(objs, s.objects, MappingTable.name)
            && Holds(s.objects, MappingTable.name, EncodeAll(MappingContents(file).value, EncodeMapping)))
  {
    InitialiseTableSpec(objs, MappingTable);
    var o := InitialiseTableEffect(objs, MappingTable).objects;
    ReadEmpty(o, MappingTable.name, DecodeMapping);
    if MappingContents(file).Ok? {
      var rows := MappingContents(file).value;
      WriteKeepsClosed(o, MappingTable.name, EncodeAll(rows, EncodeMapping));
      if file.None? {
        assert Holds(o, MappingTable.name, EncodeAll(rows, EncodeMapping));
      }
    }
  }

  /** `new UrlTemp()` succeeds exactly when its file, if any, parses. */
  lemma UrlTempPhaseSpec(objs: Objects, file: Option<seq<string>>)
    requires Closed(objs) && NotView(objs, UrlTempTable.name)
    ensures var s := UrlTempPhase(objs, file);
      && (s.outcome == Done <==> StagedContents(file).Ok?)
      && (s.outcome.Failed? ==> s.outcome.error == StagedContents(file).error)
      && (s.outcome == Done ==>
            && Closed(s.objects) && Survives(objs, s.objects, UrlTempTable.name)
            && Holds(s.objects, UrlTempTable.name, EncodeAll(StagedContents(file).value, EncodeStaged)))
  {
    InitialiseTableSpec(objs, UrlTempTable);
    var o := InitialiseTableEffect(objs, UrlTempTable).objects;
    ReadEmpty(o, UrlTempTable.name, DecodeStaged);
    if StagedContents(file).Ok? {
      var rows := StagedContents(file).value;
      assert [] + rows == rows;
      WriteKeepsClosed(o, UrlTempTable.name, EncodeAll(rows, EncodeStaged));
      if file.None? {
        assert Holds(o, UrlTempTable.name, EncodeAll(rows, EncodeStaged));
      }
    }
  }

  /** Over an empty tld, the fill stores the numbered pairs of url_temp. */
  lemma TldFillWrites(objs: Objects, staged: seq<StagedRow>)
    requires Holds(objs, UrlTempTable.name, EncodeAll(staged, EncodeStaged)) && Holds(objs, TldTable.name, [])
    ensures TldFill(objs) == Step(WriteTable(objs, TldTable.name, TldOf(staged), EncodeTld), Done)
  {
    ReadWritten(objs, UrlTempTable.name, staged, EncodeStaged, DecodeStaged);
    ReadEmpty(objs, TldTable.name, DecodeTld);
    TldRowsConsistent(staged);
    InsertIgnoreNoCollision([], TldOf(staged), SameTldId);
    assert [] + TldOf(staged) == TldOf(staged);
  }

  /** `new Tld()` always succeeds, and the table holds the numbered pairs of url_temp. */
  lemma TldPhaseSpec(objs: Objects, staged: seq<StagedRow>)
    requires Closed(objs) && NotView(objs, TldTable.name)
    requires Holds(objs, UrlTempTable.name, EncodeAll(staged, EncodeStaged))
    ensures var s := TldPhase(objs);
      && s.outcome == Done && Closed(s.objects) && Survives(objs, s.objects, TldTable.name)
      && Holds(s.objects, TldTable.name, EncodeAll(TldOf(staged), EncodeTld))
  {
    InitialiseFresh(objs, TldTable);
    var o := InitialiseTableEffect(objs, TldTable).objects;
    HoldsAfter(objs, o, TldTable.name, UrlTempTable.name, EncodeAll(staged, EncodeStaged));
    TldFillWrites(o, staged);
    WriteSurvives(objs, o, TldTable.name, EncodeAll(TldOf(staged), EncodeTld));
  }

  /** Distinct names never collide under the domain key. */
  lemma UniqueDomainsConsistent(names: seq<string>)
    requires Unique(names)
    ensures Consistent([] + names, SameDomain)
  {
    assert [] + names == names;
    forall i, j | 0 <= i < |names| && 0 <= j < |names| && i != j ensures !SameDomain(names[i], names[j]) {
      if i < j { assert names[i] != names[j]; } else { assert names[j] != names[i]; }
    }
  }

  /** Over an empty domain, the fill stores each domain of url_temp once. */
  lemma DomainFillWrites(objs: Objects, staged: seq<StagedRow>)
    requires Holds(objs, UrlTempTable.name, EncodeAll(staged, EncodeStaged)) && Holds(objs, DomainTable.name, [])
    ensures DomainFill(objs) == Step(WriteTable(objs, DomainTable.name, DomainsOf(staged), EncodeDomain), Done)
  {
    ReadWritten(objs, UrlTempTable.name, staged, EncodeStaged, DecodeStaged);
    ReadEmpty(objs, DomainTable.name, DecodeDomain);
    UniqueDomainsConsistent(DomainsOf(staged));
    InsertIgnoreNoCollision([], DomainsOf(staged), SameDomain);
    assert [] + DomainsOf(staged) == DomainsOf(staged);
  }

  /** `new Domain()` always succeeds, and the table holds each domain of url_temp once. */
  lemma DomainPhaseSpec(objs: Objects, staged: seq<StagedRow>)
    requires Closed(objs) && NotView(objs, DomainTable.name)
    requires Holds(objs, UrlTempTable.name, EncodeAll(staged, EncodeStaged))
    ensures var s := DomainPhase(objs);
      && s.outcome == Done && Closed(s.objects) && Survives(objs, s.objects, DomainTable.name)
      && Holds(s.objects, DomainTable.name, EncodeAll(DomainsOf(staged), EncodeDomain))
  {
    InitialiseFresh(objs, DomainTable);
    var o := InitialiseTableEffect(objs, DomainTable).objects;
    HoldsAfter(objs, o, DomainTable.name, UrlTempTable.name, EncodeAll(staged, EncodeStaged));
    DomainFillWrites(o, staged);
    WriteSurvives(objs, o, DomainTable.name, EncodeAll(DomainsOf(staged), EncodeDomain));
  }

  /** Every url row the insert adds has its domain and its tld. */
  lemma UrlReferencesHold(staged: seq<StagedRow>)
    ensures ReferencesHold(UrlContents(staged), 0, (set d | d in DomainsOf(staged)), TldIds(TldOf(staged)))
  {
    var tld := TldOf(staged);
    var rows := UrlContents(staged);
    forall k | 0 <= k < |rows|
      ensures rows[k].domainName in DomainsOf(staged) && rows[k].tldId in TldIds(tld)
    {
      assert rows[k] in UrlOffer(staged, tld);
      UrlOfferRow(staged, rows[k]);
      var s :| s in staged && rows[k].domainName == s.domainName && rows[k].position == s.pos
        && IdOfPair(tld, rows[k].tldId, s);
      var t := tld[rows[k].tldId - 1];
      assert t in tld && t.tldId == rows[k].tldId;
    }
  }

  /**
   * After a load, top_10_urls over the loaded url and tld tables has ten
   * rows, or one per url row when url holds fewer.
   */
  lemma LoadedTopUrlsSize(staged: seq<StagedRow>)
    ensures |TopUrls(UrlContents(staged), TldOf(staged))| == Min(ViewLimit, |UrlContents(staged)|)
  {
    var tld := TldOf(staged);
    var url := UrlContents(staged);
    UrlReferencesHold(staged);
    forall u | u in url ensures exists t :: t in tld && t.tldId == u.tldId {
      var k :| 0 <= k < |url| && url[k] == u;
      assert u.tldId in TldIds(tld);
    }
    TopUrlsSize(url, tld);
  }

  /** The url batch passes the CHECK exactly when every rank in url_temp is in 1..10000. */
  lemma UrlPositionsAllowed(staged: seq<StagedRow>)
    ensures (forall o :: o in UrlOffer(staged, TldOf(staged)) ==> PositionAllowed(o.position))
        <==> (forall s :: s in staged ==> PositionAllowed(s.pos))
  {
    var offer := UrlOffer(staged, TldOf(staged));
    if forall o :: o in offer ==> PositionAllowed(o.position) {
      forall s | s in staged ensures PositionAllowed(s.pos) {
        UrlOfferCovers(staged, s);
      }
    }
    if forall s :: s in staged ==> PositionAllowed(s.pos) {
      forall o | o in offer ensures PositionAllowed(o.position) {
        UrlOfferRow(staged, o);
      }
    }
  }

  /** The url batch the loader runs over url_temp's rows and the tables built from them. */
  function UrlBatch(staged: seq<StagedRow>): Result<seq<UrlRow>>
  {
    ExecuteUrlBatch([], UrlOffer(staged, TldOf(staged)), (set d | d in DomainsOf(staged)), TldIds(TldOf(staged)))
  }

  /** That batch succeeds exactly when every rank passes the CHECK, and fails only on the CHECK. */
  lemma UrlBatchOutcome(staged: seq<StagedRow>)
    ensures UrlBatch(staged).Ok? <==> forall x :: x in staged ==> PositionAllowed(x.pos)
    ensures UrlBatch(staged).Ok? ==> UrlBatch(staged).value == UrlContents(staged)
    ensures UrlBatch(staged).Err? ==> UrlBatch(staged).error.CheckViolation?
  {
    var offer := UrlOffer(staged, TldOf(staged));
    var domains := set d | d in DomainsOf(staged);
    ExecuteUrlBatchSpec([], offer, domains, TldIds(TldOf(staged)));
    UrlReferencesHold(staged);
    UrlPositionsAllowed(staged);
    if UrlBatch(staged).Err? {
      UrlBatchFailsWithCheck([], offer, domains, TldIds(TldOf(staged)));
    }
  }

  /** What `Url.insertData` does once url_temp, tld and domain hold their rows and url is empty. */
  lemma UrlFillReads(objs: Objects, staged: seq<StagedRow>)
    requires Holds(objs, UrlTempTable.name, EncodeAll(staged, EncodeStaged))
    requires Holds(objs, TldTable.name, EncodeAll(TldOf(staged), EncodeTld))
    requires Holds(objs, DomainTable.name, EncodeAll(DomainsOf(staged), EncodeDomain))
    requires Holds(objs, UrlTable.name, [])
    ensures UrlFill(objs) == match UrlBatch(staged)
      case Err(e) => Step(objs, Failed(e))
      case Ok(rows) => Step(WriteTable(objs, UrlTable.name, rows, EncodeUrl), Done)
  {
    ReadWritten(objs, UrlTempTable.name, staged, EncodeStaged, DecodeStaged);
    ReadWritten(objs, TldTable.name, TldOf(staged), EncodeTld, DecodeTld);
    ReadWritten(objs, DomainTable.name, DomainsOf(staged), EncodeDomain, DecodeDomain);
    ReadEmpty(objs, UrlTable.name, DecodeUrl);
  }

  /** `new Url()` succeeds exactly when every rank passes the CHECK. */
  lemma UrlPhaseSpec(objs: Objects, staged: seq<StagedRow>)
    requires Closed(objs) && NotView(objs, UrlTable.name)
    requires Holds(objs, UrlTempTable.name, EncodeAll(staged, EncodeStaged))
    requires Holds(objs, TldTable.name, EncodeAll(TldOf(staged), EncodeTld))
    requires Holds(objs, DomainTable.name, EncodeAll(DomainsOf(staged), EncodeDomain))
    ensures var s := UrlPhase(objs);
      && (s.outcome == Done <==> forall x :: x in staged ==> PositionAllowed(x.pos))
      && (s.outcome.Failed? ==> s.outcome.error.CheckViolation?)
      && (s.outcome == Done ==>
            && Closed(s.objects) && Survives(objs, s.objects, UrlTable.name)
            && Holds(s.objects, UrlTable.name, EncodeAll(UrlContents(staged), EncodeUrl)))
  {
    InitialiseFresh(objs, UrlTable);
    var o := InitialiseTableEffect(objs, UrlTable).objects;
    HoldsAfter(objs, o, UrlTable.name, UrlTempTable.name, EncodeAll(staged, EncodeStaged));
    HoldsAfter(objs, o, UrlTable.name, TldTable.name, EncodeAll(TldOf(staged), EncodeTld));
    HoldsAfter(objs, o, UrlTable.name, DomainTable.name, EncodeAll(DomainsOf(staged), EncodeDomain));
    UrlFillReads(o, staged);
    UrlBatchOutcome(staged);
    assert UrlPhase(objs) == UrlFill(o);
    if UrlBatch(staged).Ok? {
      WriteSurvives(objs, o, UrlTable.name, EncodeAll(UrlContents(staged), EncodeUrl));
    }
  }

  /** With every reference in place, only the CHECK can fail the url batch. */
  lemma {:induction false} UrlBatchFailsWithCheck(table: seq<UrlRow>, batch: seq<UrlRow>, domains: set<string>, tldIds: set<int>)
    requires ReferencesHold(InsertIgnore(table, batch, UrlConflict), |table|, domains, tldIds)
    requires ExecuteUrlBatch(table, batch, domains, tldIds).Err?
    ensures ExecuteUrlBatch(table, batch, domains, tldIds).error.CheckViolation?
    decreases |batch|
  {
    var o := batch[0];
    if PositionAllowed(o.position) {
      if CollidesWithAny(table, o, UrlConflict) {
        UrlBatchFailsWithCheck(table, batch[1..], domains, tldIds);
      } else {
        var next := table + [o];
        var inserted := InsertIgnore(next, batch[1..], UrlConflict);
        assert inserted[|table|] == next[|table|] == o;
        UrlBatchFailsWithCheck(next, batch[1..], domains, tldIds);
      }
    }
  }

  // ---------------------------------------------------------------------------
  // The views

  /** No object of that name is a table. */
  ghost predicate NotTable(objs: Objects, name: string)
  {
    !(name in objs && objs[name].TableObject?)
  }

  /** Every relation the view reads is a table. */
  ghost predicate ReadsTables(objs: Objects, v: View)
  {
    forall x :: x in v.sources ==> x in objs && objs[x].TableObject?
  }

  /** `View.initialise` over a name no table holds, reading only tables: the view, nothing else touched. */
  lemma ViewPhaseSpec(objs: Objects, v: View)
    requires Closed(objs) && NotTable(objs, v.name) && v.name !in v.sources && ReadsTables(objs, v)
    ensures var s := InitialiseViewEffect(objs, v);
      s.outcome == Done && Closed(s.objects) && Survives(objs, s.objects, v.name) && HasView(s.objects, v)
  {
    InitialiseViewSpec(objs, v);
  }

  /** A view over tables stays through `View.initialise` of another view. */
  lemma ViewKept(objs: Objects, v: View, w: View)
    requires Closed(objs) && HasView(objs, w) && w.name != v.name && ReadsTables(objs, w)
    ensures HasView(InitialiseViewEffect(objs, v).objects, w)
  {
    InitialiseViewSpec(objs, v);
    InitialiseViewKeepsViewOfTables(objs, v, w.name);
  }

  // ---------------------------------------------------------------------------
  // The whole run

  /** Touching one name keeps every other name free of views, or of tables. */
  lemma StillUnclaimed(before: Objects, after: Objects, name: string, n: string)
    requires Survives(before, after, name) && n != name
    ensures NotView(before, n) ==> NotView(after, n)
    ensures NotTable(before, n) ==> NotTable(after, n)
  {
  }

  /** The five tables hold what the loader puts in them. */
  ghost predicate Filled(objs: Objects, mapping: seq<MappingRow>, staged: seq<StagedRow>)
  {
    && Holds(objs, MappingTable.name, EncodeAll(mapping, EncodeMapping))
    && Holds(objs, UrlTempTable.name, EncodeAll(staged, EncodeStaged))
    && Holds(objs, TldTable.name, EncodeAll(TldOf(staged), EncodeTld))
    && Holds(objs, DomainTable.name, EncodeAll(DomainsOf(staged), EncodeDomain))
    && Holds(objs, UrlTable.name, EncodeAll(UrlContents(staged), EncodeUrl))
  }

  /** No table holds a view's name. */
  ghost predicate ViewNamesFree(objs: Objects)
  {
    NotTable(objs, UrlView.name) && NotTable(objs, TldView.name) && NotTable(objs, DomainView.name)
  }

  /** A run from some constructor on: it fails only on url's CHECK, and otherwise fills everything. */
  ghost predicate Finishes(s: Step, mapping: seq<MappingRow>, staged: seq<StagedRow>)
  {
    && (s.outcome == Done <==> forall x :: x in staged ==> PositionAllowed(x.pos))
    && (s.outcome.Failed? ==> s.outcome.error.CheckViolation?)
    && (s.outcome == Done ==>
          && Closed(s.objects) && Filled(s.objects, mapping, staged)
          && HasView(s.objects, UrlView) && HasView(s.objects, TldView) && HasView(s.objects, DomainView))
  }

  /** Touching a view's name leaves the tables' rows alone. */
  lemma FilledAfter(before: Objects, after: Objects, v: View, mapping: seq<MappingRow>, staged: seq<StagedRow>)
    requires OverTables(v)
    requires Survives(before, after, v.name) && Filled(before, mapping, staged)
    ensures Filled(after, mapping, staged)
  {
    HoldsAfter(before, after, v.name, MappingTable.name, EncodeAll(mapping, EncodeMapping));
    HoldsAfter(before, after, v.name, UrlTempTable.name, EncodeAll(staged, EncodeStaged));
    HoldsAfter(before, after, v.name, TldTable.name, EncodeAll(TldOf(staged), EncodeTld));
    HoldsAfter(before, after, v.name, DomainTable.name, EncodeAll(DomainsOf(staged), EncodeDomain));
    HoldsAfter(before, after, v.name, UrlTable.name, EncodeAll(UrlContents(staged), EncodeUrl));
  }

  /** A view that reads only mapping, tld and url, under a name that is not a table's. */
  predicate OverTables(v: View)
  {
    && (forall x :: x in v.sources ==> x == MappingTable.name || x == TldTable.name || x == UrlTable.name)
    && v.name != MappingTable.name && v.name != UrlTempTable.name && v.name != TldTable.name
    && v.name != DomainTable.name && v.name != UrlTable.name
  }

  lemma LoaderViewsOverTables()
    ensures OverTables(UrlView) && OverTables(TldView) && OverTables(DomainView)
  {
  }

  /** Such a view reads only filled tables. */
  lemma FilledReads(objs: Objects, v: View, mapping: seq<MappingRow>, staged: seq<StagedRow>)
    requires OverTables(v) && Filled(objs, mapping, staged)
    ensures ReadsTables(objs, v) && v.name !in v.sources
  {
    assert MappingTable.name in objs && objs[MappingTable.name].TableObject?;
    assert TldTable.name in objs && objs[TldTable.name].TableObject?;
    assert UrlTable.name in objs && objs[UrlTable.name].TableObject?;
  }

  /** One view of the loader over filled tables. */
  lemma ViewStep(objs: Objects, v: View, mapping: seq<MappingRow>, staged: seq<StagedRow>)
    requires OverTables(v)
    requires Closed(objs) && Filled(objs, mapping, staged) && NotTable(objs, v.name)
    ensures var s := InitialiseViewEffect(objs, v);
      && s.outcome == Done && Closed(s.objects) && Filled(s.objects, mapping, staged)
      && Survives(objs, s.objects, v.name) && HasView(s.objects, v)
  {
    FilledReads(objs, v, mapping, staged);
    ViewPhaseSpec(objs, v);
    FilledAfter(objs, InitialiseViewEffect(objs, v).objects, v, mapping, staged);
  }

  /** With top_10_urls in place, top_10_tlds and then top_10_repeated_domains join it. */
  lemma LaterViewsSpec(objs: Objects, mapping: seq<MappingRow>, staged: seq<StagedRow>)
    requires Closed(objs) && Filled(objs, mapping, staged) && HasView(objs, UrlView)
    requires NotTable(objs, TldView.name) && NotTable(objs, DomainView.name)
    ensures var s7 := InitialiseViewEffect(objs, TldView);
      var s8 := InitialiseViewEffect(s7.objects, DomainView);
      && s7.outcome == Done && s8.outcome == Done && Closed(s8.objects) && Filled(s8.objects, mapping, staged)
      && HasView(s8.objects, UrlView) && HasView(s8.objects, TldView) && HasView(s8.objects, DomainView)
  {
    LoaderViewsOverTables();
    ViewStep(objs, TldView, mapping, staged);
    FilledReads(objs, UrlView, mapping, staged);
    ViewKept(objs, TldView, UrlView);
    var o7 := InitialiseViewEffect(objs, TldView).objects;
    StillUnclaimed(objs, o7, TldView.name, DomainView.name);
    ViewStep(o7, DomainView, mapping, staged);
    FilledReads(o7, UrlView, mapping, staged);
    FilledReads(o7, TldView, mapping, staged);
    ViewKept(o7, DomainView, UrlView);
    ViewKept(o7, DomainView, TldView);
  }

  /** Once the tables are filled, the three views are created and all stay. */
  lemma CreateViewsSpec(objs: Objects, mapping: seq<MappingRow>, staged: seq<StagedRow>)
    requires Closed(objs) && Filled(objs, mapping, staged) && ViewNamesFree(objs)
    ensures var s := CreateViews(objs);
      && s.outcome == Done && Closed(s.objects) && Filled(s.objects, mapping, staged)
      && HasView(s.objects, UrlView) && HasView(s.objects, TldView) && HasView(s.objects, DomainView)
  {
    LoaderViewsOverTables();
    ViewStep(objs, UrlView, mapping, staged);
    var o6 := InitialiseViewEffect(objs, UrlView).objects;
    StillUnclaimed(objs, o6, UrlView.name, TldView.name);
    StillUnclaimed(objs, o6, UrlView.name, DomainView.name);
    LaterViewsSpec(o6, mapping, staged);
  }

  lemma LoadFromUrlSpec(objs: Objects, mapping: seq<MappingRow>, staged: seq<StagedRow>)
    requires Closed(objs) && NotView(objs, UrlTable.name) && ViewNamesFree(objs)
    requires Holds(objs, MappingTable.name, EncodeAll(mapping, EncodeMapping))
    requires Holds(objs, UrlTempTable.name, EncodeAll(staged, EncodeStaged))
    requires Holds(objs, TldTable.name, EncodeAll(TldOf(staged), EncodeTld))
    requires Holds(objs, DomainTable.name, EncodeAll(DomainsOf(staged), EncodeDomain))
    ensures Finishes(LoadFromUrl(objs), mapping, staged)
  {
    UrlPhaseSpec(objs, staged);
    var s := UrlPhase(objs);
    if s.outcome == Done {
      var o := s.objects;
      HoldsAfter(objs, o, UrlTable.name, MappingTable.name, EncodeAll(mapping, EncodeMapping));
      HoldsAfter(objs, o, UrlTable.name, UrlTempTable.name, EncodeAll(staged, EncodeStaged));
      HoldsAfter(objs, o, UrlTable.name, TldTable.name, EncodeAll(TldOf(staged), EncodeTld));
      HoldsAfter(objs, o, UrlTable.name, DomainTable.name, EncodeAll(DomainsOf(staged), EncodeDomain));
      StillUnclaimed(objs, o, UrlTable.name, UrlView.name);
      StillUnclaimed(objs, o, UrlTable.name, TldView.name);
      StillUnclaimed(objs, o, UrlTable.name, DomainView.name);
      CreateViewsSpec(o, mapping, staged);
    }
  }

  lemma LoadFromDomainSpec(objs: Objects, mapping: seq<MappingRow>, staged: seq<StagedRow>)
    requires Closed(objs) && NotView(objs, DomainTable.name) && NotView(objs, UrlTable.name) && ViewNamesFree(objs)
    requires Holds(objs, MappingTable.name, EncodeAll(mapping, EncodeMapping))
    requires Holds(objs, UrlTempTable.name, EncodeAll(staged, EncodeStaged))
    requires Holds(objs, TldTable.name, EncodeAll(TldOf(staged), EncodeTld))
    ensures Finishes(LoadFromDomain(objs), mapping, staged)
  {
    DomainPhaseSpec(objs, staged);
    var o := DomainPhase(objs).objects;
    HoldsAfter(objs, o, DomainTable.name, MappingTable.name, EncodeAll(mapping, EncodeMapping));
    HoldsAfter(objs, o, DomainTable.name, UrlTempTable.name, EncodeAll(staged, EncodeStaged));
    HoldsAfter(objs, o, DomainTable.name, TldTable.name, EncodeAll(TldOf(staged), EncodeTld));
    StillUnclaimed(objs, o, DomainTable.name, UrlTable.name);
    StillUnclaimed(objs, o, DomainTable.name, UrlView.name);
    StillUnclaimed(objs, o, DomainTable.name, TldView.name);
    StillUnclaimed(objs, o, DomainTable.name, DomainView.name);
    LoadFromUrlSpec(o, mapping, staged);
  }

  lemma LoadFromTldSpec(objs: Objects, mapping: seq<MappingRow>, staged: seq<StagedRow>)
    requires Closed(objs) && NotView(objs, TldTable.name) && NotView(objs, DomainTable.name)
    requires NotView(objs, UrlTable.name) && ViewNamesFree(objs)
    requires Holds(objs, MappingTable.name, EncodeAll(mapping, EncodeMapping))
    requires Holds(objs, UrlTempTable.name, EncodeAll(staged, EncodeStaged))
    ensures Finishes(LoadFromTld(objs), mapping, staged)
  {
    TldPhaseSpec(objs, staged);
    var o := TldPhase(objs).objects;
    HoldsAfter(objs, o, TldTable.name, MappingTable.name, EncodeAll(mapping, EncodeMapping));
    HoldsAfter(objs, o, TldTable.name, UrlTempTable.name, EncodeAll(staged, EncodeStaged));
    StillUnclaimed(objs, o, TldTable.name, DomainTable.name);
    StillUnclaimed(objs, o, TldTable.name, UrlTable.name);
    StillUnclaimed(objs, o, TldTable.name, UrlView.name);
    StillUnclaimed(objs, o, TldTable.name, TldView.name);
    StillUnclaimed(objs, o, TldTable.name, DomainView.name);
    LoadFromDomainSpec(o, mapping, staged);
  }

  lemma LoadFromUrlTempSpec(objs: Objects, mapping: seq<MappingRow>, urlFile: Option<seq<string>>)
    requires Closed(objs) && NotView(objs, UrlTempTable.name) && NotView(objs, TldTable.name)
    requires NotView(objs, DomainTable.name) && NotView(objs, UrlTable.name) && ViewNamesFree(objs)
    requires Holds(objs, MappingTable.name, EncodeAll(mapping, EncodeMapping))
    ensures var s := LoadFromUrlTemp(objs, urlFile);
      && (StagedContents(urlFile).Err? ==> s.outcome == Failed(StagedContents(urlFile).error))
      && (StagedContents(urlFile).Ok? ==> Finishes(s, mapping, StagedContents(urlFile).value))
  {
    UrlTempPhaseSpec(objs, urlFile);
    if StagedContents(urlFile).Ok? {
      var staged := StagedContents(urlFile).value;
      var o := UrlTempPhase(objs, urlFile).objects;
      HoldsAfter(objs, o, UrlTempTable.name, MappingTable.name, EncodeAll(mapping, EncodeMapping));
      StillUnclaimed(objs, o, UrlTempTable.name, TldTable.name);
      StillUnclaimed(objs, o, UrlTempTable.name, DomainTable.name);
      StillUnclaimed(objs, o, UrlTempTable.name, UrlTable.name);
      StillUnclaimed(objs, o, UrlTempTable.name, UrlView.name);
      StillUnclaimed(objs, o, UrlTempTable.name, TldView.name);
      StillUnclaimed(objs, o, UrlTempTable.name, DomainView.name);
      LoadFromTldSpec(o, mapping, staged);
    }
  }

  /**
   * Over a catalog where no view holds a table's name and no table a view's,
   * `loadDatabase` succeeds exactly when the mapping file (if there is one)
   * binds, the ranking file (if there is one) parses and every rank is in
   * 1..10000. A failure is the mapping file's error, else the ranking
   * file's, else url's CHECK. A success leaves the five tables holding what
   * the files say and the three views defined over them.
   */
  lemma LoadSpec(objs: Objects, mappingFile: Option<seq<string>>, urlFile: Option<seq<string>>)
    requires Closed(objs) && Unclaimed(objs)
    ensures var s := LoadEffect(objs, mappingFile, urlFile);
      && (s.outcome == Done <==> Loadable(mappingFile, urlFile))
      && (MappingContents(mappingFile).Err? ==> s.outcome == Failed(MappingContents(mappingFile).error))
      && (MappingContents(mappingFile).Ok? && StagedContents(urlFile).Err? ==>
            s.outcome == Failed(StagedContents(urlFile).error))
      && (MappingContents(mappingFile).Ok? && StagedContents(urlFile).Ok? && s.outcome.Failed? ==>
            s.outcome.error.CheckViolation?)
      && (s.outcome == Done ==> Closed(s.objects) && Loaded(s.objects, mappingFile, urlFile))
  {
    MappingPhaseSpec(objs, mappingFile);
    if MappingContents(mappingFile).Ok? {
      var o := MappingPhase(objs, mappingFile).objects;
      StillUnclaimed(objs, o, MappingTable.name, UrlTempTable.name);
      StillUnclaimed(objs, o, MappingTable.name, TldTable.name);
      StillUnclaimed(objs, o, MappingTable.name, DomainTable.name);
      StillUnclaimed(objs, o, MappingTable.name, UrlTable.name);
      StillUnclaimed(objs, o, MappingTable.name, UrlView.name);
      StillUnclaimed(objs, o, MappingTable.name, TldView.name);
      StillUnclaimed(objs, o, MappingTable.name, DomainView.name);
      LoadFromUrlTempSpec(o, MappingContents(mappingFile).value, urlFile);
    }
  }

  /** Dropping objects, or nothing, keeps every loader name unclaimed. */
  lemma UnclaimedSubset(before: Objects, after: Objects)
    requires forall n :: n in after ==> n in before && after[n] == before[n]
    requires Unclaimed(before)
    ensures Unclaimed(after)
  {
  }

  /** A second `loadDatabase` over what the first left succeeds and leaves the same tables and views. */
  lemma LoadAgain(objs: Objects, mappingFile: Option<seq<string>>, urlFile: Option<seq<string>>)
    requires Closed(objs) && Unclaimed(objs) && Loadable(mappingFile, urlFile)
    ensures var once := LoadEffect(objs, mappingFile, urlFile).objects;
      var twice := LoadEffect(once, mappingFile, urlFile);
      twice.outcome == Done && Closed(twice.objects) && Loaded(twice.objects, mappingFile, urlFile)
  {
    LoadSpec(objs, mappingFile, urlFile);
    var once := LoadEffect(objs, mappingFile, urlFile).objects;
    LoadSpec(once, mappingFile, urlFile);
  }

  /**
   * The same holds in a later session, once the temporary url_temp and
   * whatever read it have gone.
   */
  lemma LoadInNewSession(objs: Objects, mappingFile: Option<seq<string>>, urlFile: Option<seq<string>>)
    requires Closed(objs) && Unclaimed(objs) && Loadable(mappingFile, urlFile)
    ensures var later := EndSession(LoadEffect(objs, mappingFile, urlFile).objects);
      var again := LoadEffect(later, mappingFile, urlFile);
      again.outcome == Done && Closed(again.objects) && Loaded(again.objects, mappingFile, urlFile)
  {
    LoadSpec(objs, mappingFile, urlFile);
    var once := LoadEffect(objs, mappingFile, urlFile).objects;
    var later := EndSession(once);
    DropCascadeClosed(once, set n | n in once && once[n].TableObject? && once[n].temp);
    UnclaimedSubset(once, later);
    LoadSpec(later, mappingFile, urlFile);
  }

  // ---------------------------------------------------------------------------
  // The statements of a run

  function TableCreate(t: Table): string
  {
    Ddl.Render(Ddl.CreateTable(t.name, t.definition, t.isTemp))
  }

  function ViewCreate(v: View): string
  {
    Ddl.Render(Ddl.CreateView(v.name, v.definition))
  }

  /** None of the loader's eight names is taken. */
  ghost predicate Fresh(objs: Objects)
  {
    && MappingTable.name !in objs && UrlTempTable.name !in objs && TldTable.name !in objs
    && DomainTable.name !in objs && UrlTable.name !in objs
    && UrlView.name !in objs && TldView.name !in objs && DomainView.name !in objs
  }

  /** On a name nothing holds, `initialise` sends the CREATE alone. */
  lemma CreateOnly(objs: Objects, t: Table, v: View)
    ensures t.name !in objs ==> InitialiseTableStatements(objs, t) == [TableCreate(t)]
    ensures v.name !in objs ==> InitialiseViewStatements(objs, v) == [ViewCreate(v)]
  {
  }

  /** A fill only ever writes rows: it adds no name and removes none. */
  lemma MappingFillKeepsNames(objs: Objects, file: Option<seq<string>>)
    ensures MappingFill(objs, file).objects.Keys == objs.Keys
  {
  }

  lemma UrlTempFillKeepsNames(objs: Objects, file: Option<seq<string>>)
    ensures UrlTempFill(objs, file).objects.Keys == objs.Keys
  {
  }

  lemma TldFillKeepsNames(objs: Objects)
    ensures TldFill(objs).objects.Keys == objs.Keys
  {
  }

  lemma DomainFillKeepsNames(objs: Objects)
    ensures DomainFill(objs).objects.Keys == objs.Keys
  {
  }

  lemma UrlFillKeepsNames(objs: Objects)
    ensures UrlFill(objs).objects.Keys == objs.Keys
  {
  }

  /** `initialise` of an absent table or view adds its own name and no other. */
  lemma AddsOnlyItsName(objs: Objects, t: Table, v: View, n: string)
    requires n !in objs
    ensures t.name !in objs && n != t.name ==> n !in InitialiseTableEffect(objs, t).objects
    ensures v.name !in objs && n != v.name ==> n !in InitialiseViewEffect(objs, v).objects
  {
  }

  /** A statement in front of the ones that follow it. */
  lemma Prepend(a: string, b: string, c: string, d: string, e: string, f: string, g: string, h: string)
    ensures [a] + [b, c, d, e, f, g, h] == [a, b, c, d, e, f, g, h]
    ensures [b] + [c, d, e, f, g, h] == [b, c, d, e, f, g, h]
    ensures [c] + [d, e, f, g, h] == [c, d, e, f, g, h]
    ensures [d] + [e, f, g, h] == [d, e, f, g, h]
    ensures [e] + [f, g, h] == [e, f, g, h]
    ensures [f] + [g, h] == [f, g, h]
    ensures [g] + [h] == [g, h]
  {
  }

  /** The statements of the three views, none of whose names is taken. */
  lemma ViewStatementsFresh(objs: Objects)
    requires CreateViews(objs).outcome == Done
    requires UrlView.name !in objs && TldView.name !in objs && DomainView.name !in objs
    ensures ViewStatements(objs) == [ViewCreate(UrlView), ViewCreate(TldView), ViewCreate(DomainView)]
  {
    Prepend(TableCreate(MappingTable), TableCreate(UrlTempTable), TableCreate(TldTable), TableCreate(DomainTable), TableCreate(UrlTable), ViewCreate(UrlView), ViewCreate(TldView), ViewCreate(DomainView));
    CreateOnly(objs, UrlTable, UrlView);
    var o6 := InitialiseViewEffect(objs, UrlView).objects;
    AddsOnlyItsName(objs, UrlTable, UrlView, TldView.name);
    AddsOnlyItsName(objs, UrlTable, UrlView, DomainView.name);
    CreateOnly(o6, UrlTable, TldView);
    var o7 := InitialiseViewEffect(o6, TldView).objects;
    AddsOnlyItsName(o6, UrlTable, TldView, DomainView.name);
    CreateOnly(o7, UrlTable, DomainView);
  }

  /** No name from url on is taken. */
  ghost predicate FreshFromUrl(objs: Objects)
  {
    UrlTable.name !in objs && UrlView.name !in objs && TldView.name !in objs && DomainView.name !in objs
  }

  /** A phase over an absent table leaves the later names absent. */
  lemma StillFreshFromUrl(objs: Objects, t: Table, after: Objects)
    requires FreshFromUrl(objs) && t.name !in objs
    requires t.name != UrlTable.name && t.name != UrlView.name && t.name != TldView.name && t.name != DomainView.name
    requires after.Keys == InitialiseTableEffect(objs, t).objects.Keys
    ensures FreshFromUrl(after)
  {
    AddsOnlyItsName(objs, t, UrlView, UrlTable.name);
    AddsOnlyItsName(objs, t, UrlView, UrlView.name);
    AddsOnlyItsName(objs, t, UrlView, TldView.name);
    AddsOnlyItsName(objs, t, UrlView, DomainView.name);
  }

  lemma UrlStatementsFresh(objs: Objects)
    requires LoadFromUrl(objs).outcome == Done && FreshFromUrl(objs)
    ensures StatementsFromUrl(objs) ==
      [TableCreate(UrlTable), ViewCreate(UrlView), ViewCreate(TldView), ViewCreate(DomainView)]
  {
    Prepend(TableCreate(MappingTable), TableCreate(UrlTempTable), TableCreate(TldTable), TableCreate(DomainTable), TableCreate(UrlTable), ViewCreate(UrlView), ViewCreate(TldView), ViewCreate(DomainView));
    CreateOnly(objs, UrlTable, UrlView);
    var o := InitialiseTableEffect(objs, UrlTable).objects;
    UrlFillKeepsNames(o);
    AddsOnlyItsName(objs, UrlTable, UrlView, UrlView.name);
    AddsOnlyItsName(objs, UrlTable, UrlView, TldView.name);
    AddsOnlyItsName(objs, UrlTable, UrlView, DomainView.name);
    ViewStatementsFresh(UrlPhase(objs).objects);
  }

  lemma DomainStatementsFresh(objs: Objects)
    requires LoadFromDomain(objs).outcome == Done && DomainTable.name !in objs && FreshFromUrl(objs)
    ensures StatementsFromDomain(objs) ==
      [TableCreate(DomainTable), TableCreate(UrlTable), ViewCreate(UrlView), ViewCreate(TldView), ViewCreate(DomainView)]
  {
    Prepend(TableCreate(MappingTable), TableCreate(UrlTempTable), TableCreate(TldTable), TableCreate(DomainTable), TableCreate(UrlTable), ViewCreate(UrlView), ViewCreate(TldView), ViewCreate(DomainView));
    CreateOnly(objs, DomainTable, UrlView);
    DomainFillKeepsNames(InitialiseTableEffect(objs, DomainTable).objects);
    StillFreshFromUrl(objs, DomainTable, DomainPhase(objs).objects);
    UrlStatementsFresh(DomainPhase(objs).objects);
  }

  lemma TldStatementsFresh(objs: Objects)
    requires LoadFromTld(objs).outcome == Done && TldTable.name !in objs && DomainTable.name !in objs
    requires FreshFromUrl(objs)
    ensures StatementsFromTld(objs) ==
      [TableCreate(TldTable), TableCreate(DomainTable), TableCreate(UrlTable),
       ViewCreate(UrlView), ViewCreate(TldView), ViewCreate(DomainView)]
  {
    Prepend(TableCreate(MappingTable), TableCreate(UrlTempTable), TableCreate(TldTable), TableCreate(DomainTable), TableCreate(UrlTable), ViewCreate(UrlView), ViewCreate(TldView), ViewCreate(DomainView));
    CreateOnly(objs, TldTable, UrlView);
    TldFillKeepsNames(InitialiseTableEffect(objs, TldTable).objects);
    AddsOnlyItsName(objs, TldTable, UrlView, DomainTable.name);
    StillFreshFromUrl(objs, TldTable, TldPhase(objs).objects);
    DomainStatementsFresh(TldPhase(objs).objects);
  }

  lemma UrlTempStatementsFresh(objs: Objects, urlFile: Option<seq<string>>)
    requires LoadFromUrlTemp(objs, urlFile).outcome == Done
    requires UrlTempTable.name !in objs && TldTable.name !in objs && DomainTable.name !in objs && FreshFromUrl(objs)
    ensures StatementsFromUrlTemp(objs, urlFile) ==
      [TableCreate(UrlTempTable), TableCreate(TldTable), TableCreate(DomainTable), TableCreate(UrlTable),
       ViewCreate(UrlView), ViewCreate(TldView), ViewCreate(DomainView)]
  {
    Prepend(TableCreate(MappingTable), TableCreate(UrlTempTable), TableCreate(TldTable), TableCreate(DomainTable), TableCreate(UrlTable), ViewCreate(UrlView), ViewCreate(TldView), ViewCreate(DomainView));
    CreateOnly(objs, UrlTempTable, UrlView);
    UrlTempFillKeepsNames(InitialiseTableEffect(objs, UrlTempTable).objects, urlFile);
    AddsOnlyItsName(objs, UrlTempTable, UrlView, TldTable.name);
    AddsOnlyItsName(objs, UrlTempTable, UrlView, DomainTable.name);
    StillFreshFromUrl(objs, UrlTempTable, UrlTempPhase(objs, urlFile).objects);
    TldStatementsFresh(UrlTempPhase(objs, urlFile).objects);
  }

  /**
   * On a catalog where none of its names is taken, a successful run sends
   * the eight CREATE statements, tables first in constructor order, then
   * the views, and no DROP.
   */
  lemma FreshStatements(objs: Objects, mappingFile: Option<seq<string>>, urlFile: Option<seq<string>>)
    requires Closed(objs) && Fresh(objs) && Loadable(mappingFile, urlFile)
    ensures LoadStatements(objs, mappingFile, urlFile) ==
      [TableCreate(MappingTable), TableCreate(UrlTempTable), TableCreate(TldTable), TableCreate(DomainTable),
       TableCreate(UrlTable), ViewCreate(UrlView), ViewCreate(TldView), ViewCreate(DomainView)]
  {
    Prepend(TableCreate(MappingTable), TableCreate(UrlTempTable), TableCreate(TldTable), TableCreate(DomainTable), TableCreate(UrlTable), ViewCreate(UrlView), ViewCreate(TldView), ViewCreate(DomainView));
    LoadSpec(objs, mappingFile, urlFile);
    CreateOnly(objs, MappingTable, UrlView);
    MappingFillKeepsNames(InitialiseTableEffect(objs, MappingTable).objects, mappingFile);
    AddsOnlyItsName(objs, MappingTable, UrlView, UrlTempTable.name);
    AddsOnlyItsName(objs, MappingTable, UrlView, TldTable.name);
    AddsOnlyItsName(objs, MappingTable, UrlView, DomainTable.name);
    StillFreshFromUrl(objs, MappingTable, MappingPhase(objs, mappingFile).objects);
    UrlTempStatementsFresh(MappingPhase(objs, mappingFile).objects, urlFile);
  }
}
