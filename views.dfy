/**
 * The three views the loader creates, as queries over the rows of `url`,
 * `tld` and `mapping`.
 */
module Views {
  import opened Common
  import opened Rows
  import opened Ordering

  /** Every view ends in LIMIT 10. */
  const ViewLimit: nat := 10

  // ---------------------------------------------------------------------------
  // top_10_urls: SELECT position, domain_name, tld1, tld2 FROM url NATURAL JOIN tld ORDER BY position LIMIT 10

  datatype TopUrl = TopUrl(position: int, domainName: string, tld1: string, tld2: string)

  /** url NATURAL JOIN tld, whose one common column is tld_id. */
  function UrlWithTld(u: UrlRow, t: TldRow): Option<TopUrl>
  {
    if u.tldId == t.tldId then Some(TopUrl(u.position, u.domainName, t.tld1, t.tld2)) else None
  }

  function UrlJoin(url: seq<UrlRow>, tld: seq<TldRow>): seq<TopUrl>
  {
    JoinBy(url, tld, UrlWithTld)
  }

  function TopUrlPosition(x: TopUrl): int { x.position }

  /**
   * At most ten joined rows, in ascending position; ten whenever the join has
   * that many; every row joins a url row with its tld; a joined row left out
   * is never ranked better than one kept.
   */
  function TopUrls(url: seq<UrlRow>, tld: seq<TldRow>): (r: seq<TopUrl>)
    ensures |r| == Min(ViewLimit, |UrlJoin(url, tld)|)
    ensures SortedBy(r, TopUrlPosition)
    ensures multiset(r) <= multiset(UrlJoin(url, tld))
    ensures forall x :: x in r ==> exists u, t :: u in url && t in tld && UrlWithTld(u, t) == Some(x)
  {
    var joined := UrlJoin(url, tld);
    var r := TopBy(joined, TopUrlPosition, ViewLimit);
    forall x | x in r ensures exists u, t :: u in url && t in tld && UrlWithTld(u, t) == Some(x) {
      assert x in joined;
    }
    r
  }

  /** A joined row left out of top_10_urls is never ranked better than one kept. */
  lemma TopUrlsKeepsBest(url: seq<UrlRow>, tld: seq<TldRow>, x: TopUrl, i: nat)
    requires x in UrlJoin(url, tld) && x !in TopUrls(url, tld) && i < |TopUrls(url, tld)|
    ensures TopUrls(url, tld)[i].position <= x.position
  {
    var r := TopBy(UrlJoin(url, tld), TopUrlPosition, ViewLimit);
    assert TopUrls(url, tld) == r;
    assert TopUrlPosition(r[i]) <= TopUrlPosition(x);
  }

  /** With unique tld ids the join has exactly one row per url row whose tld id occurs in tld. */
  lemma UrlJoinSize(url: seq<UrlRow>, tld: seq<TldRow>)
    requires forall i, j :: 0 <= i < j < |tld| ==> tld[i].tldId != tld[j].tldId
    ensures |UrlJoin(url, tld)| == |Filter(url, (u: UrlRow) => exists t :: t in tld && t.tldId == u.tldId)|
  {
    JoinByOnePartner(url, tld, UrlWithTld, (u: UrlRow) => exists t :: t in tld && t.tldId == u.tldId);
  }

  /**
   * When every url row's tld id occurs once in tld, as after a load,
   * top_10_urls has ten rows, or one per url row when there are fewer.
   */
  lemma TopUrlsSize(url: seq<UrlRow>, tld: seq<TldRow>)
    requires forall i, j :: 0 <= i < j < |tld| ==> tld[i].tldId != tld[j].tldId
    requires forall u :: u in url ==> exists t :: t in tld && t.tldId == u.tldId
    ensures |TopUrls(url, tld)| == Min(ViewLimit, |url|)
  {
    UrlJoinSize(url, tld);
    FilterAll(url, (u: UrlRow) => exists t :: t in tld && t.tldId == u.tldId);
  }

  // ---------------------------------------------------------------------------
  // top_10_tlds: SELECT min(position) AS best_position, tld1, tld2, description
  //   FROM url NATURAL JOIN tld, mapping WHERE <effective TLD> = mapping.tld
  //   GROUP BY tld1, tld2, description ORDER BY best_position LIMIT 10

  datatype TopTld = TopTld(bestPosition: int, tld1: string, tld2: string, description: string)

  /** CASE WHEN tld2 = '' THEN tld1 ELSE tld2 END: the rightmost TLD of the pair. */
  function EffectiveTld(tld1: string, tld2: string): string
  {
    if tld2 == "" then tld1 else tld2
  }

  /** The grouping key (tld1, tld2, description). */
  type TldGroup = (string, string, string)

  function WithMapping(x: TopUrl, m: MappingRow): Option<(TldGroup, int)>
  {
    if EffectiveTld(x.tld1, x.tld2) == m.tld then Some(((x.tld1, x.tld2, m.description), x.position)) else None
  }

  /** Each joined row's group and position. */
  function TldEntries(url: seq<UrlRow>, tld: seq<TldRow>, mapping: seq<MappingRow>): seq<(TldGroup, int)>
  {
    JoinBy(UrlJoin(url, tld), mapping, WithMapping)
  }

  function Best<K>(g: (K, int)): int { g.1 }

  /**
   * The ten best groups, or all of them when there are fewer, ascending by
   * best position, each at most once; a group left out never ranks better
   * than one kept.
   */
  function TopTldGroups(url: seq<UrlRow>, tld: seq<TldRow>, mapping: seq<MappingRow>): (r: seq<(TldGroup, int)>)
    ensures |r| == Min(ViewLimit, |GroupMin(TldEntries(url, tld, mapping))|) && SortedBy(r, Best)
    ensures forall i :: 0 <= i < |r| ==> r[i] in GroupMin(TldEntries(url, tld, mapping))
    ensures multiset(r) <= multiset(GroupMin(TldEntries(url, tld, mapping)))
    ensures forall g, i :: g in GroupMin(TldEntries(url, tld, mapping)) && g !in r && 0 <= i < |r| ==> Best(r[i]) <= Best(g)
  {
    TopBy(GroupMin(TldEntries(url, tld, mapping)), Best, ViewLimit)
  }

  /** The group a row of top_10_tlds shows. */
  function TldGroupOf(x: TopTld): (TldGroup, int) { ((x.tld1, x.tld2, x.description), x.bestPosition) }

  /** Row i of top_10_tlds shows the i-th best group. */
  function TopTlds(url: seq<UrlRow>, tld: seq<TldRow>, mapping: seq<MappingRow>): (r: seq<TopTld>)
    ensures |r| == Min(ViewLimit, |GroupMin(TldEntries(url, tld, mapping))|)
    ensures forall i :: 0 <= i < |r| ==> TldGroupOf(r[i]) == TopTldGroups(url, tld, mapping)[i]
    ensures forall i, j :: 0 <= i < j < |r| ==> r[i].bestPosition <= r[j].bestPosition
  {
    var top := TopTldGroups(url, tld, mapping);
    seq(|top|, i requires 0 <= i < |top| => TopTld(top[i].1, top[i].0.0, top[i].0.1, top[i].0.2))
  }

  /** Where a group of top_10_tlds comes from: a url row, its tld row and the mapping row of its effective TLD. */
  lemma TldEntryOrigin(url: seq<UrlRow>, tld: seq<TldRow>, mapping: seq<MappingRow>, e: (TldGroup, int))
    requires e in TldEntries(url, tld, mapping)
    ensures exists u, t, m :: (u in url && t in tld && m in mapping && u.tldId == t.tldId &&
      (t.tld1, t.tld2, m.description) == e.0 && EffectiveTld(t.tld1, t.tld2) == m.tld && u.position == e.1)
  {
    var x, m :| x in UrlJoin(url, tld) && m in mapping && WithMapping(x, m) == Some(e);
    var u, t :| u in url && t in tld && UrlWithTld(u, t) == Some(x);
  }

  /**
   * Every row of top_10_tlds carries the description the mapping gives its
   * effective TLD, so a pair with no mapping entry never appears; the pair
   * occurs in url; and best_position is the least position of the group.
   */
  lemma TopTldsRows(url: seq<UrlRow>, tld: seq<TldRow>, mapping: seq<MappingRow>, i: nat)
    requires i < |TopTlds(url, tld, mapping)|
    ensures var x := TopTlds(url, tld, mapping)[i]; var entries := TldEntries(url, tld, mapping);
      && (exists m :: m in mapping && m.tld == EffectiveTld(x.tld1, x.tld2) && m.description == x.description)
      && (exists u, t :: u in url && t in tld && u.tldId == t.tldId && t.tld1 == x.tld1 && t.tld2 == x.tld2)
      && HasKey(entries, (x.tld1, x.tld2, x.description))
      && x.bestPosition == MinFor(entries, (x.tld1, x.tld2, x.description))
  {
    var top := TopTldGroups(url, tld, mapping);
    assert TldGroupOf(TopTlds(url, tld, mapping)[i]) == top[i];
    TldGroupRow(url, tld, mapping, top[i]);
  }

  lemma TldGroupRow(url: seq<UrlRow>, tld: seq<TldRow>, mapping: seq<MappingRow>, grp: (TldGroup, int))
    requires grp in GroupMin(TldEntries(url, tld, mapping))
    ensures var entries := TldEntries(url, tld, mapping);
      && (exists m :: m in mapping && m.tld == EffectiveTld(grp.0.0, grp.0.1) && m.description == grp.0.2)
      && (exists u, t :: u in url && t in tld && u.tldId == t.tldId && t.tld1 == grp.0.0 && t.tld2 == grp.0.1)
      && HasKey(entries, grp.0)
      && grp.1 == MinFor(entries, grp.0)
  {
    var entries := TldEntries(url, tld, mapping);
    GroupMinMember(entries, grp);
    var n :| 0 <= n < |entries| && entries[n].0 == grp.0;
    TldEntryOrigin(url, tld, mapping, entries[n]);
  }

  /** A group of the join is listed when fewer than ten other groups rank no worse. */
  lemma TopTldListed(url: seq<UrlRow>, tld: seq<TldRow>, mapping: seq<MappingRow>, g: (TldGroup, int))
    requires g in GroupMin(TldEntries(url, tld, mapping))
    requires |set h | h in GroupMin(TldEntries(url, tld, mapping)) && h != g && Best(h) <= Best(g)| < ViewLimit
    ensures exists i :: 0 <= i < |TopTlds(url, tld, mapping)| && TldGroupOf(TopTlds(url, tld, mapping)[i]) == g
  {
    var groups := GroupMin(TldEntries(url, tld, mapping));
    GroupMinUnique(TldEntries(url, tld, mapping));
    TopByComplete(groups, Best, ViewLimit, g, set h | h in groups && h != g && Best(h) <= Best(g));
    var top := TopTldGroups(url, tld, mapping);
    var i :| 0 <= i < |top| && top[i] == g;
    assert TldGroupOf(TopTlds(url, tld, mapping)[i]) == g;
  }

  // ---------------------------------------------------------------------------
  // top_10_repeated_domains: SELECT min(position) AS best_position, domain_name FROM url
  //   GROUP BY domain_name HAVING count(*) > 1 ORDER BY best_position LIMIT 10

  datatype RepeatedDomain = RepeatedDomain(bestPosition: int, domainName: string)

  function DomainEntries(url: seq<UrlRow>): (r: seq<(string, int)>)
    ensures |r| == |url| && forall i :: 0 <= i < |url| ==> r[i] == (url[i].domainName, url[i].position)
  {
    seq(|url|, i requires 0 <= i < |url| => (url[i].domainName, url[i].position))
  }

  /** The groups HAVING count(*) > 1. */
  function RepeatedGroups(url: seq<UrlRow>): seq<(string, int)>
  {
    var entries := DomainEntries(url);
    Filter(GroupMin(entries), (g: (string, int)) => CountFor(entries, g.0) > 1)
  }

  /**
   * The ten best repeated domains, or all of them when there are fewer,
   * ascending by best position, each at most once; a repeated domain left
   * out never ranks better than one kept.
   */
  function TopDomainGroups(url: seq<UrlRow>): (r: seq<(string, int)>)
    ensures |r| == Min(ViewLimit, |RepeatedGroups(url)|) && SortedBy(r, Best)
    ensures forall i :: 0 <= i < |r| ==> r[i] in RepeatedGroups(url)
    ensures multiset(r) <= multiset(RepeatedGroups(url))
    ensures forall g, i :: g in RepeatedGroups(url) && g !in r && 0 <= i < |r| ==> Best(r[i]) <= Best(g)
  {
    var groups := RepeatedGroups(url);
    TopBy(groups, Best, ViewLimit)
  }

  /** The group a row of top_10_repeated_domains shows. */
  function DomainGroupOf(x: RepeatedDomain): (string, int) { (x.domainName, x.bestPosition) }

  /** Row i of top_10_repeated_domains shows the i-th best repeated domain. */
  function TopRepeatedDomains(url: seq<UrlRow>): (r: seq<RepeatedDomain>)
    ensures |r| == Min(ViewLimit, |RepeatedGroups(url)|)
    ensures forall i :: 0 <= i < |r| ==> DomainGroupOf(r[i]) == TopDomainGroups(url)[i]
    ensures forall i, j :: 0 <= i < j < |r| ==> r[i].bestPosition <= r[j].bestPosition
  {
    var top := TopDomainGroups(url);
    seq(|top|, i requires 0 <= i < |top| => RepeatedDomain(top[i].1, top[i].0))
  }

  /** A group HAVING count(*) > 1 is a group of the url entries with more than one entry. */
  lemma RepeatedGroupIsGroup(url: seq<UrlRow>, g: (string, int))
    requires g in RepeatedGroups(url)
    ensures var entries := DomainEntries(url);
      CountFor(entries, g.0) > 1 && HasKey(entries, g.0) && g.1 == MinFor(entries, g.0)
  {
    var entries := DomainEntries(url);
    var groups := GroupMin(entries);
    assert g in groups;
    var k :| 0 <= k < |groups| && groups[k] == g;
  }

  /** A group HAVING count(*) > 1 is a domain with two url rows, carrying its least position. */
  lemma RepeatedGroupFacts(url: seq<UrlRow>, g: (string, int))
    requires g in RepeatedGroups(url)
    ensures exists j, k :: 0 <= j < k < |url| && url[j].domainName == g.0 && url[k].domainName == g.0
    ensures exists j :: 0 <= j < |url| && url[j].domainName == g.0 && url[j].position == g.1
    ensures forall j :: 0 <= j < |url| && url[j].domainName == g.0 ==> g.1 <= url[j].position
  {
    var entries := DomainEntries(url);
    RepeatedGroupIsGroup(url, g);
    CountAboveOne(entries, g.0);
    var a, b :| 0 <= a < b < |entries| && entries[a].0 == g.0 && entries[b].0 == g.0;
    assert url[a].domainName == g.0 && url[b].domainName == g.0;
    var m :| 0 <= m < |entries| && entries[m].0 == g.0 && entries[m].1 == g.1;
    assert url[m].domainName == g.0 && url[m].position == g.1;
    forall j | 0 <= j < |url| && url[j].domainName == g.0 ensures g.1 <= url[j].position {
      assert entries[j].0 == g.0;
    }
  }

  /**
   * Every row of top_10_repeated_domains is a domain with more than one url
   * row, and best_position is the least position among them.
   */
  lemma TopRepeatedDomainsRows(url: seq<UrlRow>, i: nat)
    requires i < |TopRepeatedDomains(url)|
    ensures var x := TopRepeatedDomains(url)[i];
      && (exists j, k :: 0 <= j < k < |url| && url[j].domainName == x.domainName && url[k].domainName == x.domainName)
      && (exists j :: 0 <= j < |url| && url[j].domainName == x.domainName && url[j].position == x.bestPosition)
      && (forall j :: 0 <= j < |url| && url[j].domainName == x.domainName ==> x.bestPosition <= url[j].position)
  {
    var top := TopDomainGroups(url);
    RepeatedGroupFacts(url, top[i]);
  }

  /** Every domain with two url rows has its group among those HAVING count(*) > 1. */
  lemma RepeatedGroupExists(url: seq<UrlRow>, j: nat, k: nat)
    requires j < k < |url| && url[j].domainName == url[k].domainName
    ensures exists g :: g in RepeatedGroups(url) && g.0 == url[j].domainName
  {
    var entries := DomainEntries(url);
    var d := url[j].domainName;
    assert entries[j].0 == d && entries[k].0 == d;
    CountAboveOne(entries, d);
    var groups := GroupMin(entries);
    assert HasKey(entries, d);
    assert HasKey(groups, d);
    var m :| 0 <= m < |groups| && groups[m].0 == d;
    assert groups[m] in RepeatedGroups(url);
  }

  lemma RepeatedGroupsUnique(url: seq<UrlRow>)
    ensures Unique(RepeatedGroups(url))
  {
    var entries := DomainEntries(url);
    var all := GroupMin(entries);
    GroupMinUnique(entries);
    FilterCount(all, (g: (string, int)) => CountFor(entries, g.0) > 1);
    SubBagKeepsUnique(all, RepeatedGroups(url));
  }

  /** A repeated domain is listed when fewer than ten other repeated domains rank no worse. */
  lemma RepeatedDomainListed(url: seq<UrlRow>, g: (string, int))
    requires g in RepeatedGroups(url)
    requires |set h | h in RepeatedGroups(url) && h != g && Best(h) <= Best(g)| < ViewLimit
    ensures exists i :: 0 <= i < |TopRepeatedDomains(url)| && DomainGroupOf(TopRepeatedDomains(url)[i]) == g
  {
    var groups := RepeatedGroups(url);
    RepeatedGroupsUnique(url);
    TopByComplete(groups, Best, ViewLimit, g, set h | h in groups && h != g && Best(h) <= Best(g));
    var top := TopDomainGroups(url);
    var i :| 0 <= i < |top| && top[i] == g;
    assert DomainGroupOf(TopRepeatedDomains(url)[i]) == g;
  }

  /** A domain with a single url row is never listed. */
  lemma SingleRowDomainsExcluded(url: seq<UrlRow>, d: string)
    requires forall j, k :: 0 <= j < k < |url| && url[j].domainName == d ==> url[k].domainName != d
    ensures forall x :: x in TopRepeatedDomains(url) ==> x.domainName != d
  {
    forall x | x in TopRepeatedDomains(url) ensures x.domainName != d {
      var i :| 0 <= i < |TopRepeatedDomains(url)| && TopRepeatedDomains(url)[i] == x;
      TopRepeatedDomainsRows(url, i);
    }
  }
}
