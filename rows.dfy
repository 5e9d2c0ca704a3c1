/**
 * The rows of the loader's five tables, and how each is stored as a tuple of
 * column values in the table's declared column order.
 */
module Rows {
  import opened Common
  import opened Sql

  /** A row of `mapping`: (tld, description). */
  datatype MappingRow = MappingRow(tld: string, description: string)

  /** A row of `url_temp`: (pos, domain_name, tld1, tld2); a missing second TLD is "". */
  datatype StagedRow = StagedRow(pos: int, domainName: string, tld1: string, tld2: string)

  /** A row of `tld`: (tld_id, tld1, tld2). */
  datatype TldRow = TldRow(tldId: int, tld1: string, tld2: string)

  /** A row of `url`: (domain_name, tld_id, position). */
  datatype UrlRow = UrlRow(domainName: string, tldId: int, position: int)

  function DecodeMapping(t: Tuple): Option<MappingRow>
  {
    if |t| == 2 && t[0].TextValue? && t[1].TextValue? then Some(MappingRow(t[0].s, t[1].s)) else None
  }

  function EncodeMapping(r: MappingRow): (t: Tuple)
    ensures |t| == 2 && DecodeMapping(t) == Some(r)
  {
    [TextValue(r.tld), TextValue(r.description)]
  }

  function DecodeStaged(t: Tuple): Option<StagedRow>
  {
    if |t| == 4 && t[0].IntValue? && t[1].TextValue? && t[2].TextValue? && t[3].TextValue?
    then Some(StagedRow(t[0].i, t[1].s, t[2].s, t[3].s))
    else None
  }

  function EncodeStaged(r: StagedRow): (t: Tuple)
    ensures |t| == 4 && DecodeStaged(t) == Some(r)
  {
    [IntValue(r.pos), TextValue(r.domainName), TextValue(r.tld1), TextValue(r.tld2)]
  }

  function DecodeTld(t: Tuple): Option<TldRow>
  {
    if |t| == 3 && t[0].IntValue? && t[1].TextValue? && t[2].TextValue?
    then Some(TldRow(t[0].i, t[1].s, t[2].s))
    else None
  }

  function EncodeTld(r: TldRow): (t: Tuple)
    ensures |t| == 3 && DecodeTld(t) == Some(r)
  {
    [IntValue(r.tldId), TextValue(r.tld1), TextValue(r.tld2)]
  }

  /** A row of `domain` is its one column, domain_name. */
  function DecodeDomain(t: Tuple): Option<string>
  {
    if |t| == 1 && t[0].TextValue? then Some(t[0].s) else None
  }

  function EncodeDomain(name: string): (t: Tuple)
    ensures |t| == 1 && DecodeDomain(t) == Some(name)
  {
    [TextValue(name)]
  }

  function DecodeUrl(t: Tuple): Option<UrlRow>
  {
    if |t| == 3 && t[0].TextValue? && t[1].IntValue? && t[2].IntValue?
    then Some(UrlRow(t[0].s, t[1].i, t[2].i))
    else None
  }

  function EncodeUrl(r: UrlRow): (t: Tuple)
    ensures |t| == 3 && DecodeUrl(t) == Some(r)
  {
    [TextValue(r.domainName), IntValue(r.tldId), IntValue(r.position)]
  }
}
