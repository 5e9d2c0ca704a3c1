/**
 * `Database.loadDatabase`: the five tables and the three views, each set up
 * by its class's constructor (`initialise`, then `insertData` for a table),
 * in a fixed order over one connection. The first statement that fails
 * stops the run.
 */
module Loader {
  import opened Common
  import opened Sql
  import opened JavaText
  import opened Rows
  import opened Ordering
  import opened Conflicts
  import opened Staging
  import opened Normalise
  import opened Views
  import opened Catalog

  // ---------------------------------------------------------------------------
  // The eight objects

  const MappingTable := Table("mapping", "tld VARCHAR(15), description VARCHAR(200) NOT NULL, PRIMARY KEY (tld)", false)

  const UrlTempTable := Table("url_temp",
    "pos INT,\n  domain_name VARCHAR(50),\n  tld1 VARCHAR(15) NOT NULL,\n  tld2 VARCHAR(15)", true)

  const TldTable := Table("tld", "tld_id INT, tld1 VARCHAR(15) NOT NULL, tld2 VARCHAR(15), PRIMARY KEY (tld_id)", false)

  const DomainTable := Table("domain", "domain_name VARCHAR(50), PRIMARY KEY (domain_name)", false)

  const UrlTable := Table("url",
    "domain_name VARCHAR(50) NOT NULL, tld_id INT NOT NULL,\n  position INT NOT NULL, PRIMARY KEY (domain_name, tld_id), "
    + "FOREIGN KEY (domain_name) REFERENCES domain,\n  FOREIGN KEY (tld_id) REFERENCES tld,\n  UNIQUE (position),\n"
    + "  CHECK (position >= 1 AND position <= 10000)", false)

  const UrlView := View("top_10_urls",
    "SELECT position, domain_name, tld1, tld2\n  FROM url\n  NATURAL JOIN tld\n  ORDER BY position\n  LIMIT 10;",
    {"url", "tld"})

  const TldView := View("top_10_tlds",
    "SELECT min(position) AS best_position, tld1, tld2, description\n    FROM url\n    NATURAL JOIN tld, mapping\n"
    + "    WHERE\n    (\n      CASE\n        WHEN tld.tld2 = '' THEN tld.tld1\n        ELSE tld.tld2\n      END\n"
    + "    )  = mapping.tld\n    GROUP BY tld1, tld2, description\n    ORDER BY best_position\n    LIMIT 10;",
    {"url", "tld", "mapping"})

  const DomainView := View("top_10_repeated_domains",
    "SELECT min(position) AS best_position, domain_name\n  FROM url\n  GROUP BY domain_name\n  HAVING count(*) > 1\n"
    + "  ORDER BY best_position\n  LIMIT 10;",
    {"url"})

  // ---------------------------------------------------------------------------
  // Reading and writing a table's rows

  /** The rows of a table as a statement reading it sees them. */
  function ReadTable<T>(objs: Objects, name: string, decode: Tuple -> Option<T>): (r: Result<seq<T>>)
    ensures r.Ok? ==> name in objs && objs[name].TableObject?
  {
    if name !in objs then Err(UndefinedRelations({name}))
    else if objs[name].ViewObject? then Err(WrongObjectType(name))
    else match DecodeAll(objs[name].rows, decode)
      case None => Err(DatatypeMismatch(name))
      case Some(xs) => Ok(xs)
  }

  /** The catalog once an executed insert has left `rows` in the table. */
  function WriteTable<T>(objs: Objects, name: string, rows: seq<T>, encode: T -> Tuple): Objects
    requires name in objs && objs[name].TableObject?
  {
    objs[name := objs[name].(rows := EncodeAll(rows, encode))]
  }

  // ---------------------------------------------------------------------------
  // What each `insertData` does to the catalog

  /**
   * `Mapping.insertData`: a missing file is reported and leaves the table as
   * it is; otherwise every line is bound and batched, then the batch runs.
   */
  function MappingFill(objs: Objects, file: Option<seq<string>>): Step
  {
    match file
    case None => Step(objs, Done)
    case Some(lines) =>
      match MappingBatch(Fields(lines))
      case Err(e) => Step(objs, Failed(e))
      case Ok(batch) =>
        match ReadTable(objs, MappingTable.name, DecodeMapping)
        case Err(e) => Step(objs, Failed(e))
        case Ok(current) =>
          match ExecuteMappingBatch(current, batch)
          case Err(e) => Step(objs, Failed(e))
          case Ok(rows) => Step(WriteTable(objs, MappingTable.name, rows, EncodeMapping), Done)
  }

  /** `UrlTemp.insertData`: every line parsed and batched, then appended (url_temp has no key). */
  function UrlTempFill(objs: Objects, file: Option<seq<string>>): Step
  {
    match file
    case None => Step(objs, Done)
    case Some(lines) =>
      match StagedRows(lines)
      case Err(e) => Step(objs, Failed(e))
      case Ok(staged) =>
        match ReadTable(objs, UrlTempTable.name, DecodeStaged)
        case Err(e) => Step(objs, Failed(e))
        case Ok(current) => Step(WriteTable(objs, UrlTempTable.name, current + staged, EncodeStaged), Done)
  }

  /** `Tld.insertData`: the numbered TLD pairs of url_temp, ON CONFLICT DO NOTHING. */
  function TldFill(objs: Objects): Step
  {
    match ReadTable(objs, UrlTempTable.name, DecodeStaged)
    case Err(e) => Step(objs, Failed(e))
    case Ok(staged) =>
      match ReadTable(objs, TldTable.name, DecodeTld)
      case Err(e) => Step(objs, Failed(e))
      case Ok(current) => Step(WriteTable(objs, TldTable.name, InsertIgnore(current, TldOf(staged), SameTldId), EncodeTld), Done)
  }

  /** `Domain.insertData`: the distinct domain names of url_temp, ON CONFLICT DO NOTHING. */
  function DomainFill(objs: Objects): Step
  {
    match ReadTable(objs, UrlTempTable.name, DecodeStaged)
    case Err(e) => Step(objs, Failed(e))
    case Ok(staged) =>
      match ReadTable(objs, DomainTable.name, DecodeDomain)
      case Err(e) => Step(objs, Failed(e))
      case Ok(current) => Step(WriteTable(objs, DomainTable.name, InsertIgnore(current, DomainsOf(staged), SameDomain), EncodeDomain), Done)
  }

  /** The tld ids a url row may reference. */
  function TldIds(tld: seq<TldRow>): set<int>
  {
    set t | t in tld :: t.tldId
  }

  /**
   * `Url.insertData`: the rows of url_temp joined with tld, in ascending
   * rank, batched and run against url's constraints.
   */
  function UrlFill(objs: Objects): Step
  {
    match ReadTable(objs, UrlTempTable.name, DecodeStaged)
    case Err(e) => Step(objs, Failed(e))
    case Ok(staged) =>
      match ReadTable(objs, TldTable.name, DecodeTld)
      case Err(e) => Step(objs, Failed(e))
      case Ok(tld) =>
        match ReadTable(objs, UrlTable.name, DecodeUrl)
        case Err(e) => Step(objs, Failed(e))
        case Ok(current) =>
          match ReadTable(objs, DomainTable.name, DecodeDomain)
          case Err(e) => Step(objs, Failed(e))
          case Ok(domains) =>
            match ExecuteUrlBatch(current, UrlOffer(staged, tld), (set d | d in domains), TldIds(tld))
            case Err(e) => Step(objs, Failed(e))
            case Ok(rows) => Step(WriteTable(objs, UrlTable.name, rows, EncodeUrl), Done)
  }

  // ---------------------------------------------------------------------------
  // Each constructor: initialise, then insertData

  /** A table's constructor: `initialise`, then, if that went through, the fill. */
  function Then(s: Step, next: Step): Step
  {
    if s.outcome.Failed? then s else next
  }

  function MappingPhase(objs: Objects, file: Option<seq<string>>): Step
  {
    var s := InitialiseTableEffect(objs, MappingTable);
    Then(s, MappingFill(s.objects, file))
  }

  function UrlTempPhase(objs: Objects, file: Option<seq<string>>): Step
  {
    var s := InitialiseTableEffect(objs, UrlTempTable);
    Then(s, UrlTempFill(s.objects, file))
  }

  function TldPhase(objs: Objects): Step
  {
    var s := InitialiseTableEffect(objs, TldTable);
    Then(s, TldFill(s.objects))
  }

  function DomainPhase(objs: Objects): Step
  {
    var s := InitialiseTableEffect(objs, DomainTable);
    Then(s, DomainFill(s.objects))
  }

  function UrlPhase(objs: Objects): Step
  {
    var s := InitialiseTableEffect(objs, UrlTable);
    Then(s, UrlFill(s.objects))
  }

  /** Everything `loadDatabase` does to the catalog, up to the first failure. */
  function LoadEffect(objs: Objects, mappingFile: Option<seq<string>>, urlFile: Option<seq<string>>): Step
  {
    var s := MappingPhase(objs, mappingFile);
    if s.outcome.Failed? then s else LoadFromUrlTemp(s.objects, urlFile)
  }

  /** The run from `new UrlTemp()` on. */
  function LoadFromUrlTemp(objs: Objects, urlFile: Option<seq<string>>): Step
  {
    var s := UrlTempPhase(objs, urlFile);
    if s.outcome.Failed? then s else LoadFromTld(s.objects)
  }

  /** The run from `new Tld()` on. */
  function LoadFromTld(objs: Objects): Step
  {
    var s := TldPhase(objs);
    if s.outcome.Failed? then s else LoadFromDomain(s.objects)
  }

  /** The run from `new Domain()` on. */
  function LoadFromDomain(objs: Objects): Step
  {
    var s := DomainPhase(objs);
    if s.outcome.Failed? then s else LoadFromUrl(s.objects)
  }

  /** The run from `new Url()` on. */
  function LoadFromUrl(objs: Objects): Step
  {
    var s := UrlPhase(objs);
    if s.outcome.Failed? then s else CreateViews(s.objects)
  }

  /** The three views, in order. */
  function CreateViews(objs: Objects): Step
  {
    var s6 := InitialiseViewEffect(objs, UrlView);
    if s6.outcome.Failed? then s6 else
    var s7 := InitialiseViewEffect(s6.objects, TldView);
    if s7.outcome.Failed? then s7 else
    InitialiseViewEffect(s7.objects, DomainView)
  }

  // ---------------------------------------------------------------------------
  // The methods

  /** The loop of `Mapping.insertData`: each line split and its fields bound in turn, the two parameters kept between lines. */
  method BindMappingLines(lines: seq<string>) returns (r: Result<seq<Binding>>)
    ensures r == MappingBatch(Fields(lines))
  {
    ghost var fields := Fields(lines);
    var batch: seq<Binding> := [];
    var params := Unbound;
    var i := 0;
    while i < |lines|
      invariant 0 <= i <= |lines|
      invariant MappingBatch(fields[..i]) == Ok(batch)
      invariant params == LastBinding(batch)
    {
      var values := Split(lines[i]);
      assert values == fields[i];
      var next := params;
      var j := 0;
      while j < |values|
        invariant 0 <= j <= |values| && j <= 2
        invariant next == Binding(if j >= 1 then Some(values[0]) else params.tld,
                                  if j >= 2 then Some(values[1]) else params.description)
      {
        if j == 2 {
          // setString(3, _) on a statement with two parameters
          MappingBatchOk(fields);
          return Err(ParameterIndexOutOfRange(j + 1));
        }
        if j == 0 {
          next := next.(tld := Some(values[0]));
        } else {
          next := next.(description := Some(values[1]));
        }
        j := j + 1;
      }
      assert BindLine(params, values) == Ok(next);
      MappingBatchSnoc(fields, i);
      params := next;
      batch := batch + [params];
      i := i + 1;
    }
    assert fields[..i] == fields;
    r := Ok(batch);
  }

  /** `Mapping.insertData`. */
  method MappingInsertData(db: Database, file: Option<seq<string>>) returns (outcome: Outcome)
    requires db.Valid()
    modifies db
    ensures db.Valid() && db.issued == old(db.issued)
    ensures Step(db.objects, outcome) == MappingFill(old(db.objects), file)
  {
    if file.None? {
      return Done;
    }
    var batch := BindMappingLines(file.value);
    if batch.Err? {
      return Failed(batch.error);
    }
    var current := ReadTable(db.objects, MappingTable.name, DecodeMapping);
    if current.Err? {
      return Failed(current.error);
    }
    var inserted := ExecuteMappingBatch(current.value, batch.value);
    if inserted.Err? {
      return Failed(inserted.error);
    }
    db.StoreRows(MappingTable.name, EncodeAll(inserted.value, EncodeMapping));
    outcome := Done;
  }

  /** The loop of `UrlTemp.insertData`: each line parsed and batched in turn. */
  method ParseStagedLines(lines: seq<string>) returns (r: Result<seq<StagedRow>>)
    ensures r == StagedRows(lines)
  {
    var batch: seq<StagedRow> := [];
    var i := 0;
    while i < |lines|
      invariant 0 <= i <= |lines|
      invariant CollectAll(lines[..i], ParseStagedLine) == Ok(batch)
    {
      var row := ParseStagedLine(lines[i]);
      if row.Err? {
        CollectAllStopsAt(lines, ParseStagedLine, i);
        return Err(row.error);
      }
      CollectAllSnoc(lines, ParseStagedLine, i);
      batch := batch + [row.value];
      i := i + 1;
    }
    assert lines[..i] == lines;
    r := Ok(batch);
  }

  /** `UrlTemp.insertData`. */
  method UrlTempInsertData(db: Database, file: Option<seq<string>>) returns (outcome: Outcome)
    requires db.Valid()
    modifies db
    ensures db.Valid() && db.issued == old(db.issued)
    ensures Step(db.objects, outcome) == UrlTempFill(old(db.objects), file)
  {
    if file.None? {
      return Done;
    }
    var batch := ParseStagedLines(file.value);
    if batch.Err? {
      return Failed(batch.error);
    }
    var current := ReadTable(db.objects, UrlTempTable.name, DecodeStaged);
    if current.Err? {
      return Failed(current.error);
    }
    db.StoreRows(UrlTempTable.name, EncodeAll(current.value + batch.value, EncodeStaged));
    outcome := Done;
  }

  /** `Tld.insertData`: one INSERT ... SELECT. */
  method TldInsertData(db: Database) returns (outcome: Outcome)
    requires db.Valid()
    modifies db
    ensures db.Valid() && db.issued == old(db.issued)
    ensures Step(db.objects, outcome) == TldFill(old(db.objects))
  {
    var staged := ReadTable(db.objects, UrlTempTable.name, DecodeStaged);
    if staged.Err? {
      return Failed(staged.error);
    }
    var current := ReadTable(db.objects, TldTable.name, DecodeTld);
    if current.Err? {
      return Failed(current.error);
    }
    db.StoreRows(TldTable.name, EncodeAll(InsertIgnore(current.value, TldOf(staged.value), SameTldId), EncodeTld));
    outcome := Done;
  }

  /** `Domain.insertData`: one INSERT ... SELECT. */
  method DomainInsertData(db: Database) returns (outcome: Outcome)
    requires db.Valid()
    modifies db
    ensures db.Valid() && db.issued == old(db.issued)
    ensures Step(db.objects, outcome) == DomainFill(old(db.objects))
  {
    var staged := ReadTable(db.objects, UrlTempTable.name, DecodeStaged);
    if staged.Err? {
      return Failed(staged.error);
    }
    var current := ReadTable(db.objects, DomainTable.name, DecodeDomain);
    if current.Err? {
      return Failed(current.error);
    }
    db.StoreRows(DomainTable.name, EncodeAll(InsertIgnore(current.value, DomainsOf(staged.value), SameDomain), EncodeDomain));
    outcome := Done;
  }

  /** `Url.insertData`: the joined rows copied into the batch one by one, then the batch run. */
  method UrlInsertData(db: Database) returns (outcome: Outcome)
    requires db.Valid()
    modifies db
    ensures db.Valid() && db.issued == old(db.issued)
    ensures Step(db.objects, outcome) == UrlFill(old(db.objects))
  {
    var staged := ReadTable(db.objects, UrlTempTable.name, DecodeStaged);
    if staged.Err? {
      return Failed(staged.error);
    }
    var tld := ReadTable(db.objects, TldTable.name, DecodeTld);
    if tld.Err? {
      return Failed(tld.error);
    }
    var selected := UrlOffer(staged.value, tld.value);
    var batch: seq<UrlRow> := [];
    var i := 0;
    while i < |selected|
      invariant 0 <= i <= |selected|
      invariant batch == selected[..i]
    {
      batch := batch + [selected[i]];
      i := i + 1;
    }
    assert batch == selected;
    var current := ReadTable(db.objects, UrlTable.name, DecodeUrl);
    if current.Err? {
      return Failed(current.error);
    }
    var domains := ReadTable(db.objects, DomainTable.name, DecodeDomain);
    if domains.Err? {
      return Failed(domains.error);
    }
    var inserted := ExecuteUrlBatch(current.value, batch, (set d | d in domains.value), TldIds(tld.value));
    if inserted.Err? {
      return Failed(inserted.error);
    }
    db.StoreRows(UrlTable.name, EncodeAll(inserted.value, EncodeUrl));
    outcome := Done;
  }

  /** The statements the run sends up to the first failure: the DDL of each `initialise`. */
  function LoadStatements(objs: Objects, mappingFile: Option<seq<string>>, urlFile: Option<seq<string>>): seq<string>
  {
    var s := MappingPhase(objs, mappingFile);
    InitialiseTableStatements(objs, MappingTable) + (if s.outcome.Failed? then [] else StatementsFromUrlTemp(s.objects, urlFile))
  }

  function StatementsFromUrlTemp(objs: Objects, urlFile: Option<seq<string>>): seq<string>
  {
    var s := UrlTempPhase(objs, urlFile);
    InitialiseTableStatements(objs, UrlTempTable) + (if s.outcome.Failed? then [] else StatementsFromTld(s.objects))
  }

  function StatementsFromTld(objs: Objects): seq<string>
  {
    var s := TldPhase(objs);
    InitialiseTableStatements(objs, TldTable) + (if s.outcome.Failed? then [] else StatementsFromDomain(s.objects))
  }

  function StatementsFromDomain(objs: Objects): seq<string>
  {
    var s := DomainPhase(objs);
    InitialiseTableStatements(objs, DomainTable) + (if s.outcome.Failed? then [] else StatementsFromUrl(s.objects))
  }

  function StatementsFromUrl(objs: Objects): seq<string>
  {
    var s := UrlPhase(objs);
    InitialiseTableStatements(objs, UrlTable) + (if s.outcome.Failed? then [] else ViewStatements(s.objects))
  }

  function ViewStatements(objs: Objects): seq<string>
  {
    var s := InitialiseViewEffect(objs, UrlView);
    InitialiseViewStatements(objs, UrlView) + (if s.outcome.Failed? then [] else StatementsFromTldView(s.objects))
  }

  function StatementsFromTldView(objs: Objects): seq<string>
  {
    var s := InitialiseViewEffect(objs, TldView);
    InitialiseViewStatements(objs, TldView) + (if s.outcome.Failed? then [] else InitialiseViewStatements(s.objects, DomainView))
  }

  /** Bookkeeping for the statements issued so far and the ones still to come. */
  lemma Advance(before: seq<string>, sent: seq<string>, step: seq<string>, tail: seq<string>, whole: seq<string>, issued: seq<string>)
    requires whole == sent + (step + tail)
    requires issued == (before + sent) + step
    ensures whole == (sent + step) + tail
    ensures issued == before + (sent + step)
    ensures tail == [] ==> issued == before + whole
  {
  }

  /** `new Mapping()`. */
  method NewMapping(db: Database, file: Option<seq<string>>) returns (outcome: Outcome)
    requires db.Valid()
    modifies db
    ensures db.Valid()
    ensures Step(db.objects, outcome) == MappingPhase(old(db.objects), file)
    ensures db.issued == old(db.issued) + InitialiseTableStatements(old(db.objects), MappingTable)
  {
    outcome := db.InitialiseTable(MappingTable);
    if outcome.Done? {
      outcome := MappingInsertData(db, file);
    }
  }

  /** `new UrlTemp()`. */
  method NewUrlTemp(db: Database, file: Option<seq<string>>) returns (outcome: Outcome)
    requires db.Valid()
    modifies db
    ensures db.Valid()
    ensures Step(db.objects, outcome) == UrlTempPhase(old(db.objects), file)
    ensures db.issued == old(db.issued) + InitialiseTableStatements(old(db.objects), UrlTempTable)
  {
    outcome := db.InitialiseTable(UrlTempTable);
    if outcome.Done? {
      outcome := UrlTempInsertData(db, file);
    }
  }

  /** `new Tld()`. */
  method NewTld(db: Database) returns (outcome: Outcome)
    requires db.Valid()
    modifies db
    ensures db.Valid()
    ensures Step(db.objects, outcome) == TldPhase(old(db.objects))
    ensures db.issued == old(db.issued) + InitialiseTableStatements(old(db.objects), TldTable)
  {
    outcome := db.InitialiseTable(TldTable);
    if outcome.Done? {
      outcome := TldInsertData(db);
    }
  }

  /** `new Domain()`. */
  method NewDomain(db: Database) returns (outcome: Outcome)
    requires db.Valid()
    modifies db
    ensures db.Valid()
    ensures Step(db.objects, outcome) == DomainPhase(old(db.objects))
    ensures db.issued == old(db.issued) + InitialiseTableStatements(old(db.objects), DomainTable)
  {
    outcome := db.InitialiseTable(DomainTable);
    if outcome.Done? {
      outcome := DomainInsertData(db);
    }
  }

  /** `new Url()`. */
  method NewUrl(db: Database) returns (outcome: Outcome)
    requires db.Valid()
    modifies db
    ensures db.Valid()
    ensures Step(db.objects, outcome) == UrlPhase(old(db.objects))
    ensures db.issued == old(db.issued) + InitialiseTableStatements(old(db.objects), UrlTable)
  {
    outcome := db.InitialiseTable(UrlTable);
    if outcome.Done? {
      outcome := UrlInsertData(db);
    }
  }

  /** The three `View.initialise` calls at the end of `loadDatabase`, stopping at the first that fails. */
  method CreateLoaderViews(db: Database) returns (outcome: Outcome)
    requires db.Valid()
    modifies db
    ensures db.Valid()
    ensures Step(db.objects, outcome) == CreateViews(old(db.objects))
    ensures db.issued == old(db.issued) + ViewStatements(old(db.objects))
  {
    ghost var before := db.issued;
    ghost var whole := ViewStatements(db.objects);
    ghost var o := db.objects;
    outcome := db.InitialiseView(UrlView);
    Advance(before, [], InitialiseViewStatements(o, UrlView), if outcome.Failed? then [] else StatementsFromTldView(db.objects), whole, db.issued);
    if outcome.Failed? { return; }
    ghost var sent := InitialiseViewStatements(o, UrlView);
    o := db.objects;
    outcome := db.InitialiseView(TldView);
    Advance(before, sent, InitialiseViewStatements(o, TldView), if outcome.Failed? then [] else InitialiseViewStatements(db.objects, DomainView), whole, db.issued);
    if outcome.Failed? { return; }
    sent := sent + InitialiseViewStatements(o, TldView);
    o := db.objects;
    outcome := db.InitialiseView(DomainView);
    Advance(before, sent, InitialiseViewStatements(o, DomainView), [], whole, db.issued);
  }

  /** `loadDatabase` after mapping: url_temp from the ranking file, then the rest. */
  method LoadStagedTables(db: Database, urlFile: Option<seq<string>>) returns (outcome: Outcome)
    requires db.Valid()
    modifies db
    ensures db.Valid()
    ensures Step(db.objects, outcome) == LoadFromUrlTemp(old(db.objects), urlFile)
    ensures db.issued == old(db.issued) + StatementsFromUrlTemp(old(db.objects), urlFile)
  {
    ghost var before := db.issued;
    ghost var whole := StatementsFromUrlTemp(db.objects, urlFile);
    ghost var o := db.objects;
    outcome := NewUrlTemp(db, urlFile);
    Advance(before, [], InitialiseTableStatements(o, UrlTempTable), if outcome.Failed? then [] else StatementsFromTld(db.objects), whole, db.issued);
    if outcome.Failed? { return; }
    ghost var sent := InitialiseTableStatements(o, UrlTempTable);
    o := db.objects;
    outcome := LoadRankedTables(db);
    Advance(before, sent, StatementsFromTld(o), [], whole, db.issued);
  }

  /** `loadDatabase` after url_temp: tld from url_temp, then the rest. */
  method LoadRankedTables(db: Database) returns (outcome: Outcome)
    requires db.Valid()
    modifies db
    ensures db.Valid()
    ensures Step(db.objects, outcome) == LoadFromTld(old(db.objects))
    ensures db.issued == old(db.issued) + StatementsFromTld(old(db.objects))
  {
    ghost var before := db.issued;
    ghost var whole := StatementsFromTld(db.objects);
    ghost var o := db.objects;
    outcome := NewTld(db);
    Advance(before, [], InitialiseTableStatements(o, TldTable), if outcome.Failed? then [] else StatementsFromDomain(db.objects), whole, db.issued);
    if outcome.Failed? { return; }
    ghost var sent := InitialiseTableStatements(o, TldTable);
    o := db.objects;
    outcome := LoadLinkedTables(db);
    Advance(before, sent, StatementsFromDomain(o), [], whole, db.issued);
  }

  /**
   * `loadDatabase` after tld: domain and url, whose rows refer to the
   * tables before them, and then the three views.
   */
  method LoadLinkedTables(db: Database) returns (outcome: Outcome)
    requires db.Valid()
    modifies db
    ensures db.Valid()
    ensures Step(db.objects, outcome) == LoadFromDomain(old(db.objects))
    ensures db.issued == old(db.issued) + StatementsFromDomain(old(db.objects))
  {
    ghost var before := db.issued;
    ghost var whole := StatementsFromDomain(db.objects);
    ghost var o := db.objects;
    outcome := NewDomain(db);
    Advance(before, [], InitialiseTableStatements(o, DomainTable), if outcome.Failed? then [] else StatementsFromUrl(db.objects), whole, db.issued);
    if outcome.Failed? { return; }
    ghost var sent := InitialiseTableStatements(o, DomainTable);
    o := db.objects;
    outcome := NewUrl(db);
    Advance(before, sent, InitialiseTableStatements(o, UrlTable), if outcome.Failed? then [] else ViewStatements(db.objects), whole, db.issued);
    if outcome.Failed? { return; }
    sent := sent + InitialiseTableStatements(o, UrlTable);
    o := db.objects;
    outcome := CreateLoaderViews(db);
    Advance(before, sent, ViewStatements(o), [], whole, db.issued);
  }

  /**
   * `loadDatabase`: mapping, url_temp, tld, domain and url, then the three
   * views, stopping at the first statement that fails. The files are the
   * lines read from `mapping` and `TopURLs`. `None` is a mapping file that
   * cannot be opened or fails while being read, or a ranking file that
   * cannot be opened; a ranking file that fails part-way is the lines read
   * before the failure.
   */
  method LoadDatabase(db: Database, mappingFile: Option<seq<string>>, urlFile: Option<seq<string>>) returns (outcome: Outcome)
    requires db.Valid()
    modifies db
    ensures db.Valid()
    ensures Step(db.objects, outcome) == LoadEffect(old(db.objects), mappingFile, urlFile)
    ensures db.issued == old(db.issued) + LoadStatements(old(db.objects), mappingFile, urlFile)
  {
    ghost var before := db.issued;
    ghost var whole := LoadStatements(db.objects, mappingFile, urlFile);
    ghost var o := db.objects;
    outcome := NewMapping(db, mappingFile);
    Advance(before, [], InitialiseTableStatements(o, MappingTable), if outcome.Failed? then [] else StatementsFromUrlTemp(db.objects, urlFile), whole, db.issued);
    if outcome.Failed? { return; }
    ghost var sent := InitialiseTableStatements(o, MappingTable);
    o := db.objects;
    outcome := LoadStagedTables(db, urlFile);
    Advance(before, sent, StatementsFromUrlTemp(o, urlFile), [], whole, db.issued);
  }
}
