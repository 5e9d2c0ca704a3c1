/**
 * A worked run of `loadDatabase`: a mapping file with the one line
 * `com<TAB>Commercial` and a ranking file with `1<TAB>example.com<TAB>com`
 * and `2<TAB>example.org<TAB>org<TAB>net`.
 */
module Scenario {
  import opened Common
  import opened Sql
  import opened JavaText
  import opened Rows
  import opened Ordering
  import opened Conflicts
  import opened Staging
  import opened Normalise
  import opened Views
  import opened Catalog
  import opened Loader
  import opened LoaderFacts

  const Com := StagedRow(1, "example.com", "com", "")
  const Org := StagedRow(2, "example.org", "org", "net")
  const Staged: seq<StagedRow> := [Com, Org]
  const Mapped: seq<MappingRow> := [MappingRow("com", "Commercial")]

  /** The mapping file: the one line `com<TAB>Commercial`. */
  const MappingLines: seq<string> := [FormatMappingLine(Mapped[0])]
  /** The ranking file: `1<TAB>example.com<TAB>com` and `2<TAB>example.org<TAB>org<TAB>net`. */
  const UrlLines: seq<string> := [FormatStagedLine(Com), FormatStagedLine(Org)]

  lemma OneOf<T>(t: seq<T>, a: T)
    requires |t| == 1 && t[0] == a
    ensures t == [a]
  {
  }

  lemma CollectTwo<A, T>(a: A, b: A, step: A -> Result<T>, x: T, y: T)
    requires step(a) == Ok(x) && step(b) == Ok(y)
    ensures CollectAll([a, b], step) == Ok([x, y])
  {
    var one := [a];
    assert one[..0] == [] && one[0] == a;
    assert CollectAll(one[..0], step) == Ok([]);
    assert CollectAll(one, step) == Ok([] + [x]);
    assert [] + [x] == [x];
    var two := [a, b];
    assert two[..1] == one && two[1] == b;
    assert CollectAll(two, step) == Ok([x] + [y]);
    assert [x] + [y] == [x, y];
  }

  /** The ranking file gives its two rows, in file order. */
  lemma StagedFile()
    ensures StagedContents(Some(UrlLines)) == Ok(Staged)
  {
    ParseFormat(Com);
    ParseFormat(Org);
    CollectTwo(UrlLines[0], UrlLines[1], ParseStagedLine, Com, Org);
    PairOf(UrlLines, UrlLines[0], UrlLines[1]);
  }

  /** Its one line binds both parameters. */
  lemma MappingBindings()
    ensures MappingBatch(Fields(MappingLines)) == Ok([Binding(Some("com"), Some("Commercial"))])
  {
    MappingFileRoundTrip(Mapped);
    var lines := seq(|Mapped|, i requires 0 <= i < |Mapped| => FormatMappingLine(Mapped[i]));
    OneOf(lines, MappingLines[0]);
    var bs := seq(|Mapped|, i requires 0 <= i < |Mapped| => Binding(Some(Mapped[i].tld), Some(Mapped[i].description)));
    OneOf(bs, Binding(Some("com"), Some("Commercial")));
  }

  /** The mapping file gives its one row. */
  lemma MappingFile()
    ensures MappingContents(Some(MappingLines)) == Ok(Mapped)
  {
    MappingBindings();
    var b := Binding(Some("com"), Some("Commercial"));
    CollectAllSpec([b], BoundRow);
    assert InsertIgnore([], Mapped, SameTld) == Mapped;
  }

  lemma PairOf<T>(t: seq<T>, a: T, b: T)
    requires |t| == 2 && t[0] == a && t[1] == b
    ensures t == [a, b]
  {
  }

  /** The pairs of two staged rows, each with its own rank as its best. */
  lemma PairRanksTwo(a: StagedRow, b: StagedRow)
    requires (a.tld1, a.tld2) != (b.tld1, b.tld2)
    ensures var xs := PairRanks([a, b]);
      && HasKey(xs, (a.tld1, a.tld2)) && HasKey(xs, (b.tld1, b.tld2))
      && MinFor(xs, (a.tld1, a.tld2)) == a.pos && MinFor(xs, (b.tld1, b.tld2)) == b.pos
      && (forall k :: HasKey(xs, k) ==> k == (a.tld1, a.tld2) || k == (b.tld1, b.tld2))
  {
    var xs := PairRanks([a, b]);
    assert xs[0] == ((a.tld1, a.tld2), a.pos) && xs[1] == ((b.tld1, b.tld2), b.pos);
  }

  /** Grouped and ordered by best rank, the better-ranked pair comes first. */
  lemma RankedTwo(a: StagedRow, b: StagedRow)
    requires (a.tld1, a.tld2) != (b.tld1, b.tld2) && a.pos < b.pos
    ensures RankedPairs([a, b]) == [((a.tld1, a.tld2), a.pos), ((b.tld1, b.tld2), b.pos)]
  {
    PairRanksTwo(a, b);
    var k1 := (a.tld1, a.tld2);
    var k2 := (b.tld1, b.tld2);
    var r := RankedPairs([a, b]);
    var i1 :| 0 <= i1 < |r| && r[i1].0 == k1;
    var i2 :| 0 <= i2 < |r| && r[i2].0 == k2;
    assert |r| == 2;
    assert i1 == 0 && i2 == 1;
    PairOf(r, (k1, a.pos), (k2, b.pos));
  }

  /** Two staged rows with different TLD pairs: the better-ranked pair is numbered 1, the other 2. */
  lemma TldOfTwo(a: StagedRow, b: StagedRow)
    requires (a.tld1, a.tld2) != (b.tld1, b.tld2) && a.pos < b.pos
    ensures TldOf([a, b]) == [TldRow(1, a.tld1, a.tld2), TldRow(2, b.tld1, b.tld2)]
  {
    RankedTwo(a, b);
    var t := TldOf([a, b]);
    PairOf(t, TldRow(1, a.tld1, a.tld2), TldRow(2, b.tld1, b.tld2));
  }

  /** Two elements already in ascending order stay as they are. */
  lemma SortTwo<T>(a: T, b: T, key: T -> int)
    requires key(a) < key(b)
    ensures SortBy([a, b], key) == [a, b]
  {
    assert [a, b][..1] == [a];
    assert [a][..0] == [];
    assert SortBy([a], key) == [a];
    assert Insert(b, [a], key) == [a] + Insert(b, [], key);
  }

  /** The row a pairing adds for one more right-hand element. */
  function Formed<A, B, C>(x: A, y: B, f: (A, B) -> Option<C>): seq<C>
  {
    match f(x, y) case Some(c) => [c] case None => []
  }

  lemma PairingsTwo<A, B(!new), C(!new)>(x: A, y1: B, y2: B, f: (A, B) -> Option<C>)
    ensures Pairings(x, [y1, y2], f) == Formed(x, y1, f) + Formed(x, y2, f)
  {
    assert [y1, y2][..1] == [y1] && [y1][..0] == [];
    assert Pairings(x, [y1], f) == Formed(x, y1, f);
  }

  lemma JoinByTwo<A, B(!new), C(!new)>(x1: A, x2: A, ys: seq<B>, f: (A, B) -> Option<C>)
    ensures JoinBy([x1, x2], ys, f) == Pairings(x1, ys, f) + Pairings(x2, ys, f)
  {
    assert [x1, x2][..1] == [x1] && [x1][..0] == [];
    assert JoinBy([x1], ys, f) == Pairings(x1, ys, f);
  }

  /** A join of two rows with two rows where each meets exactly its own partner. */
  lemma JoinTwo<A, B(!new), C(!new)>(x1: A, x2: A, y1: B, y2: B, f: (A, B) -> Option<C>, c1: C, c2: C)
    requires f(x1, y1) == Some(c1) && f(x1, y2) == None && f(x2, y1) == None && f(x2, y2) == Some(c2)
    ensures JoinBy([x1, x2], [y1, y2], f) == [c1, c2]
  {
    PairingsTwo(x1, y1, y2, f);
    PairingsTwo(x2, y1, y2, f);
    JoinByTwo(x1, x2, [y1, y2], f);
  }

  /** The url loop over two staged rows meets each with its own tld row, in rank order. */
  lemma UrlOfferTwo(a: StagedRow, b: StagedRow)
    requires a.pos < b.pos
    ensures UrlOffer([a, b], [TldRow(1, a.tld1, a.tld2), TldRow(2, b.tld1, b.tld2)])
      == [UrlRow(a.domainName, 1, a.pos), UrlRow(b.domainName, 2, b.pos)]
    requires (a.tld1, a.tld2) != (b.tld1, b.tld2)
  {
    var ua := UrlRow(a.domainName, 1, a.pos);
    var ub := UrlRow(b.domainName, 2, b.pos);
    JoinTwo(a, b, TldRow(1, a.tld1, a.tld2), TldRow(2, b.tld1, b.tld2), StagedWithTld, ua, ub);
    SortTwo(ua, ub, Position);
  }

  /** Two staged rows with different ranks and pairs: url holds both, in rank order, under ids 1 and 2. */
  lemma UrlContentsTwo(a: StagedRow, b: StagedRow)
    requires (a.tld1, a.tld2) != (b.tld1, b.tld2) && a.pos < b.pos
    ensures UrlContents([a, b]) == [UrlRow(a.domainName, 1, a.pos), UrlRow(b.domainName, 2, b.pos)]
  {
    TldOfTwo(a, b);
    UrlOfferTwo(a, b);
    UrlInsertTwo(UrlRow(a.domainName, 1, a.pos), UrlRow(b.domainName, 2, b.pos));
  }

  /** Two url rows of different ranks and tld ids both go into an empty url. */
  lemma UrlInsertTwo(u1: UrlRow, u2: UrlRow)
    requires u1.position != u2.position && u1.tldId != u2.tldId
    ensures InsertIgnore([], [u1, u2], UrlConflict) == [u1, u2]
  {
    var rows := [u1, u2];
    assert !UrlConflict(rows[0], rows[1]) && !UrlConflict(rows[1], rows[0]);
    assert [] + rows == rows;
    InsertIgnoreNoCollision([], rows, UrlConflict);
  }

  /** Two staged rows with different domains: domain holds both names, each once. */
  lemma DomainsTwo(a: StagedRow, b: StagedRow)
    requires a.domainName != b.domainName
    ensures forall d :: d in DomainsOf([a, b]) <==> d == a.domainName || d == b.domainName
    ensures |DomainsOf([a, b])| == 2
  {
    var r := DomainsOf([a, b]);
    assert a in [a, b] && b in [a, b];
    assert a.domainName in r && b.domainName in r;
    var i :| 0 <= i < |r| && r[i] == a.domainName;
    var j :| 0 <= j < |r| && r[j] == b.domainName;
    assert i != j;
  }

  /** ORDER BY ... LIMIT over two rows already in order, with room for both. */
  lemma TopByTwo<T>(x1: T, x2: T, key: T -> int, limit: nat)
    requires key(x1) < key(x2) && limit >= 2
    ensures TopBy([x1, x2], key, limit) == [x1, x2]
  {
    SortTwo(x1, x2, key);
    var s := SortBy([x1, x2], key);
    assert s[..Min(limit, |s|)] == s;
  }

  /** top_10_urls over two url rows that each meet their own tld row: both, in rank order. */
  lemma TopUrlsTwo(u1: UrlRow, u2: UrlRow, t1: TldRow, t2: TldRow)
    requires u1.tldId == t1.tldId && u2.tldId == t2.tldId && t1.tldId != t2.tldId && u1.position < u2.position
    ensures TopUrls([u1, u2], [t1, t2]) ==
      [TopUrl(u1.position, u1.domainName, t1.tld1, t1.tld2), TopUrl(u2.position, u2.domainName, t2.tld1, t2.tld2)]
  {
    var x1 := TopUrl(u1.position, u1.domainName, t1.tld1, t1.tld2);
    var x2 := TopUrl(u2.position, u2.domainName, t2.tld1, t2.tld2);
    JoinTwo(u1, u2, t1, t2, UrlWithTld, x1, x2);
    TopByTwo(x1, x2, TopUrlPosition, ViewLimit);
  }

  /** A single grouped entry stays the only group, with its own position. */
  lemma GroupOne<K(!new)>(e: (K, int))
    ensures GroupMin([e]) == [e]
  {
    var entries := [e];
    var g := GroupMin(entries);
    assert entries[0].0 == e.0;
    assert HasKey(entries, e.0);
    assert forall k :: HasKey(entries, k) ==> k == e.0;
    var a :| 0 <= a < |g| && g[a].0 == e.0;
    assert forall i :: 0 <= i < |g| ==> g[i].0 == e.0;
    assert |g| == 1;
    assert MinFor(entries, e.0) == e.1;
  }

  /** The grouping input of top_10_tlds when the mapping names only the first row's effective TLD. */
  lemma TldEntriesOne(u1: UrlRow, u2: UrlRow, t1: TldRow, t2: TldRow, m: MappingRow)
    requires u1.tldId == t1.tldId && u2.tldId == t2.tldId && t1.tldId != t2.tldId
    requires EffectiveTld(t1.tld1, t1.tld2) == m.tld && EffectiveTld(t2.tld1, t2.tld2) != m.tld
    ensures TldEntries([u1, u2], [t1, t2], [m]) == [((t1.tld1, t1.tld2, m.description), u1.position)]
  {
    var x1 := TopUrl(u1.position, u1.domainName, t1.tld1, t1.tld2);
    var x2 := TopUrl(u2.position, u2.domainName, t2.tld1, t2.tld2);
    JoinTwo(u1, u2, t1, t2, UrlWithTld, x1, x2);
    var e := ((t1.tld1, t1.tld2, m.description), u1.position);
    assert [m][..0] == [];
    assert Pairings(x1, [m], WithMapping) == [e];
    assert Pairings(x2, [m], WithMapping) == [];
    JoinByTwo(x1, x2, [m], WithMapping);
  }

  /** ORDER BY ... LIMIT over a single row. */
  lemma TopByOne<T>(x: T, key: T -> int, limit: nat)
    requires limit >= 1
    ensures TopBy([x], key, limit) == [x]
  {
    var r := TopBy([x], key, limit);
    assert |r| == 1 && r[0] in [x];
  }

  /**
   * top_10_tlds over two joined url rows when the mapping names only the
   * first one's effective TLD: the first alone, with its description.
   */
  lemma TopTldsOne(u1: UrlRow, u2: UrlRow, t1: TldRow, t2: TldRow, m: MappingRow)
    requires u1.tldId == t1.tldId && u2.tldId == t2.tldId && t1.tldId != t2.tldId
    requires EffectiveTld(t1.tld1, t1.tld2) == m.tld && EffectiveTld(t2.tld1, t2.tld2) != m.tld
    ensures TopTlds([u1, u2], [t1, t2], [m]) == [TopTld(u1.position, t1.tld1, t1.tld2, m.description)]
  {
    var e := ((t1.tld1, t1.tld2, m.description), u1.position);
    TldEntriesOne(u1, u2, t1, t2, m);
    GroupOne(e);
    TopByOne(e, Best, ViewLimit);
  }

  /** top_10_repeated_domains over two rows of different domains is empty. */
  lemma RepeatedNone(u1: UrlRow, u2: UrlRow)
    requires u1.domainName != u2.domainName
    ensures TopRepeatedDomains([u1, u2]) == []
  {
    if |TopRepeatedDomains([u1, u2])| > 0 {
      TopRepeatedDomainsRows([u1, u2], 0);
    }
  }

  const Url: seq<UrlRow> := [UrlRow("example.com", 1, 1), UrlRow("example.org", 2, 2)]
  const Tlds: seq<TldRow> := [TldRow(1, "com", ""), TldRow(2, "org", "net")]

  /** The url, tld and domain rows of the scenario, and what the three views show over them. */
  lemma ScenarioTables()
    ensures TldOf(Staged) == Tlds
    ensures UrlContents(Staged) == Url
    ensures forall d :: d in DomainsOf(Staged) <==> d == "example.com" || d == "example.org"
    ensures TopUrls(Url, Tlds) == [TopUrl(1, "example.com", "com", ""), TopUrl(2, "example.org", "org", "net")]
    ensures TopTlds(Url, Tlds, Mapped) == [TopTld(1, "com", "", "Commercial")]
    ensures TopRepeatedDomains(Url) == []
  {
    TldOfTwo(Com, Org);
    UrlContentsTwo(Com, Org);
    DomainsTwo(Com, Org);
    TopUrlsTwo(Url[0], Url[1], Tlds[0], Tlds[1]);
    TopTldsOne(Url[0], Url[1], Tlds[0], Tlds[1], Mapped[0]);
    RepeatedNone(Url[0], Url[1]);
  }

  /** Any run whose files read as the scenario's. */
  lemma LoadScenarioFiles(objs: Objects, mappingFile: Option<seq<string>>, urlFile: Option<seq<string>>)
    requires Closed(objs) && Unclaimed(objs)
    requires MappingContents(mappingFile) == Ok(Mapped) && StagedContents(urlFile) == Ok(Staged)
    ensures var s := LoadEffect(objs, mappingFile, urlFile);
      s.outcome == Done && Closed(s.objects) && Filled(s.objects, Mapped, Staged)
      && HasView(s.objects, UrlView) && HasView(s.objects, TldView) && HasView(s.objects, DomainView)
  {
    assert forall x :: x in Staged ==> PositionAllowed(x.pos);
    LoadSpec(objs, mappingFile, urlFile);
  }

  /**
   * On a catalog where no view holds a table's name and no table a view's,
   * the run succeeds: mapping holds (com, Commercial); tld numbers
   * (com, "") 1 and (org, net) 2; domain holds the two names; url holds
   * ranks 1 and 2 under those ids; top_10_urls lists both in rank order,
   * top_10_tlds only (com, "") with its description, and
   * top_10_repeated_domains nothing.
   */
  lemma ScenarioLoad(objs: Objects)
    requires Closed(objs) && Unclaimed(objs)
    ensures var s := LoadEffect(objs, Some(MappingLines), Some(UrlLines));
      && s.outcome == Done && Closed(s.objects)
      && Holds(s.objects, MappingTable.name, EncodeAll(Mapped, EncodeMapping))
      && Holds(s.objects, TldTable.name, EncodeAll(Tlds, EncodeTld))
      && Holds(s.objects, DomainTable.name, EncodeAll(DomainsOf(Staged), EncodeDomain))
      && Holds(s.objects, UrlTable.name, EncodeAll(Url, EncodeUrl))
      && HasView(s.objects, UrlView) && HasView(s.objects, TldView) && HasView(s.objects, DomainView)
  {
    StagedFile();
    MappingFile();
    ScenarioTables();
    LoadScenarioFiles(objs, Some(MappingLines), Some(UrlLines));
  }
}
