/**
 * What `UrlTemp.insertData` and `Mapping.insertData` make of the lines of
 * their input files before the batch is executed.
 */
module Staging {
  import opened Common
  import opened Sql
  import opened JavaText
  import opened Rows

  // ---------------------------------------------------------------------------
  // The ranking file, line by line into url_temp

  /**
   * One line of the ranking file: rank, domain, first TLD and, only when the
   * line has exactly four fields, the second TLD. The rank is read and
   * parsed before the domain and first TLD are read, so a line fails at the
   * first of these steps that fails.
   */
  function ParseStagedLine(line: string): (r: Result<StagedRow>)
    ensures r.Ok? ==> InIntRange(r.value.pos)
  {
    var values := Split(line);
    if |values| == 0 then Err(FieldIndexOutOfBounds(0))
    else match ParseInt(values[0])
      case None => Err(NumberFormat(values[0]))
      case Some(id) =>
        if |values| < 2 then Err(FieldIndexOutOfBounds(1))
        else if |values| < 3 then Err(FieldIndexOutOfBounds(2))
        else Ok(StagedRow(id, values[1], values[2], if |values| == 4 then values[3] else ""))
  }

  /**
   * With exactly four fields the second TLD is the fourth field; with any
   * other count of at least three it is the empty string, never missing. A
   * rank that is not an `int` fails, and so does a line of fewer than three
   * fields.
   */
  lemma ParseStagedLineCases(line: string)
    ensures var values := Split(line); var r := ParseStagedLine(line);
      && (r.Ok? <==> |values| >= 3 && ParseInt(values[0]).Some?)
      && (|values| >= 1 && ParseInt(values[0]).None? ==> r == Err(NumberFormat(values[0])))
      && (|values| >= 1 && ParseInt(values[0]).Some? && |values| < 3 ==> r == Err(FieldIndexOutOfBounds(|values|)))
      && (r.Ok? ==> r.value.pos == ParseInt(values[0]).value && r.value.domainName == values[1] && r.value.tld1 == values[2])
      && (r.Ok? && |values| == 4 ==> r.value.tld2 == values[3])
      && (r.Ok? && |values| != 4 ==> r.value.tld2 == "")
  {
  }

  /**
   * The rows the parsing loop batches, one per line, in file order; the
   * first line that does not parse ends the loop with its error.
   */
  function StagedRows(lines: seq<string>): (r: Result<seq<StagedRow>>)
    ensures r.Ok? ==> |r.value| == |lines|
  {
    CollectAll(lines, ParseStagedLine)
  }

  /** The line the ranking file holds for a row; the second TLD only when there is one. */
  function FormatStagedLine(r: StagedRow): string
  {
    Join([Show(r.pos), r.domainName, r.tld1] + (if r.tld2 == "" then [] else [r.tld2]))
  }

  lemma ShowHasNoTab(n: int)
    ensures Tab !in Show(n)
  {
  }

  /**
   * Parsing reads back every row whose fields hold no tab and whose rank is
   * a Java `int`, as long as it has at least one TLD.
   */
  lemma ParseFormat(r: StagedRow)
    requires InIntRange(r.pos)
    requires Tab !in r.domainName && Tab !in r.tld1 && Tab !in r.tld2
    requires r.tld1 != "" || r.tld2 != ""
    ensures ParseStagedLine(FormatStagedLine(r)) == Ok(r)
  {
    var fs := [Show(r.pos), r.domainName, r.tld1] + (if r.tld2 == "" then [] else [r.tld2]);
    ShowHasNoTab(r.pos);
    SplitJoin(fs);
    ParseShow(r.pos);
  }

  /**
   * A row with neither TLD cannot travel through the file: the trailing
   * empty field is dropped by the split, and reading values[2] fails.
   */
  lemma NoTldLineFails(pos: int, domainName: string)
    requires InIntRange(pos)
    requires Tab !in domainName && domainName != ""
    ensures ParseStagedLine(FormatStagedLine(StagedRow(pos, domainName, "", ""))) == Err(FieldIndexOutOfBounds(2))
  {
    var fs := [Show(pos), domainName, ""];
    assert [Show(pos), domainName, ""] + [] == fs;
    ShowHasNoTab(pos);
    SplitDropsTrailingEmpty(fs);
    assert fs[..2] == [Show(pos), domainName];
    ParseShow(pos);
  }

  // ---------------------------------------------------------------------------
  // The mapping file, line by line into the parameters of one prepared INSERT

  /**
   * The two parameters of `INSERT INTO mapping (tld, description) VALUES
   * (?, ?)`; a parameter keeps the last value set on it, across `addBatch`,
   * and is `None` until it is first set.
   */
  datatype Binding = Binding(tld: Option<string>, description: Option<string>)

  const Unbound: Binding := Binding(None, None)

  /**
   * `setString(1, values[0]); setString(2, values[1]); ...` for the fields of
   * one line over what the previous line left; a third field names a
   * parameter the statement does not have.
   */
  function BindLine(prev: Binding, values: seq<string>): Result<Binding>
  {
    if |values| > 2 then Err(ParameterIndexOutOfRange(3))
    else Ok(Binding(if |values| >= 1 then Some(values[0]) else prev.tld,
                    if |values| >= 2 then Some(values[1]) else prev.description))
  }

  function LastBinding(batch: seq<Binding>): Binding
  {
    if batch == [] then Unbound else batch[|batch| - 1]
  }

  /** The fields of each line, as `line.split("\t")` gives them. */
  function Fields(lines: seq<string>): (r: seq<seq<string>>)
    ensures |r| == |lines|
  {
    seq(|lines|, i requires 0 <= i < |lines| => Split(lines[i]))
  }

  /**
   * The parameter sets `addBatch` collects, one per line (given by its
   * fields); a line with more than two fields stops the loading.
   */
  function MappingBatch(fields: seq<seq<string>>): (r: Result<seq<Binding>>)
    ensures r.Err? ==> r.error == ParameterIndexOutOfRange(3)
    ensures r.Ok? ==> |r.value| == |fields|
  {
    if fields == [] then Ok([])
    else
      var n := |fields| - 1;
      match MappingBatch(fields[..n])
      case Err(e) => Err(e)
      case Ok(batch) =>
        match BindLine(LastBinding(batch), fields[n])
        case Err(e) => Err(e)
        case Ok(b) => Ok(batch + [b])
  }

  /** The batch is built exactly when no line has more than two fields. */
  lemma {:induction false} MappingBatchOk(fields: seq<seq<string>>)
    ensures MappingBatch(fields).Ok? <==> forall i :: 0 <= i < |fields| ==> |fields[i]| <= 2
  {
    if fields != [] {
      var n := |fields| - 1;
      MappingBatchOk(fields[..n]);
      assert forall i :: 0 <= i < n ==> fields[..n][i] == fields[i];
    }
  }

  /** One more line that binds adds its parameters at the end of the batch. */
  lemma MappingBatchSnoc(fields: seq<seq<string>>, i: nat)
    requires i < |fields| && MappingBatch(fields[..i]).Ok?
    requires BindLine(LastBinding(MappingBatch(fields[..i]).value), fields[i]).Ok?
    ensures MappingBatch(fields[..i + 1])
      == Ok(MappingBatch(fields[..i]).value + [BindLine(LastBinding(MappingBatch(fields[..i]).value), fields[i]).value])
  {
    assert fields[..i + 1][..i] == fields[..i];
  }

  /**
   * A line with two fields is bound as read; a shorter one keeps the
   * description bound for the line before it (and a line with no field at
   * all keeps its tld too).
   */
  lemma {:induction false} MappingBatchBindings(fields: seq<seq<string>>)
    requires MappingBatch(fields).Ok?
    ensures var b := MappingBatch(fields).value;
      && (forall i :: 0 <= i < |fields| && |fields[i]| == 2 ==> b[i] == Binding(Some(fields[i][0]), Some(fields[i][1])))
      && (forall i :: 0 < i < |fields| && |fields[i]| < 2 ==> b[i].description == b[i - 1].description)
      && (forall i :: 0 < i < |fields| && |fields[i]| == 0 ==> b[i] == b[i - 1])
  {
    if fields != [] {
      var n := |fields| - 1;
      assert forall i :: 0 <= i < n ==> fields[..n][i] == fields[i];
      MappingBatchBindings(fields[..n]);
      var batch := MappingBatch(fields[..n]).value;
      var b := MappingBatch(fields).value;
      assert b == batch + [BindLine(LastBinding(batch), fields[n]).value];
    }
  }

  /** The line the mapping file holds for a row. */
  function FormatMappingLine(m: MappingRow): string
  {
    Join([m.tld, m.description])
  }

  /** A mapping file written from rows binds every line to its own row. */
  lemma MappingFileRoundTrip(rows: seq<MappingRow>)
    requires forall i :: 0 <= i < |rows| ==> Tab !in rows[i].tld && Tab !in rows[i].description && rows[i].description != ""
    ensures var lines := seq(|rows|, i requires 0 <= i < |rows| => FormatMappingLine(rows[i]));
      MappingBatch(Fields(lines)) == Ok(seq(|rows|, i requires 0 <= i < |rows| => Binding(Some(rows[i].tld), Some(rows[i].description))))
  {
    var lines := seq(|rows|, i requires 0 <= i < |rows| => FormatMappingLine(rows[i]));
    var fields := Fields(lines);
    forall i | 0 <= i < |rows| ensures fields[i] == [rows[i].tld, rows[i].description] {
      SplitJoin([rows[i].tld, rows[i].description]);
    }
    MappingBatchOk(fields);
    MappingBatchBindings(fields);
    var b := MappingBatch(fields).value;
    var expected := seq(|rows|, i requires 0 <= i < |rows| => Binding(Some(rows[i].tld), Some(rows[i].description)));
    assert |b| == |expected|;
    forall i | 0 <= i < |rows| ensures b[i] == expected[i] {
      assert |fields[i]| == 2;
    }
    assert b == expected;
  }
}
