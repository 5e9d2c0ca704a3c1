/** Values, rows and errors of the database the loader talks to. */
module Sql {
  import opened Common

  /** A column value: the loader only stores INT and VARCHAR columns. */
  datatype Value = IntValue(i: int) | TextValue(s: string)

  /** A stored row, its column values in the table's column order. */
  type Tuple = seq<Value>

  /** Why a statement, a batch or the parsing around it fails. */
  datatype DbError =
    | UndefinedObject(name: string)                // DROP of an object that is not there
    | WrongObjectType(name: string)                // DROP TABLE of a view, DROP VIEW of a table
    | DuplicateObject(name: string)                // CREATE over a name already taken
    | UndefinedRelations(names: set<string>)       // a statement reads a relation that is not there
    | DatatypeMismatch(name: string)               // a table's rows do not have the shape a statement expects
    | NumberFormat(field: string)                  // Integer.parseInt rejected the rank field
    | FieldIndexOutOfBounds(index: nat)            // values[index] past the end of a split line
    | ParameterIndexOutOfRange(index: nat)         // setString(index, _) past the statement's parameters
    | ParameterNotSet(index: nat)                  // executeBatch with a parameter never bound
    | CheckViolation(position: int)                // url.position outside 1..10000
    | ForeignKeyViolation(domainName: string, tldId: int) // a url row whose domain or tld is missing

  datatype Result<+T> = Ok(value: T) | Err(error: DbError)

  /** How a statement, or a run of them, ended. */
  datatype Outcome = Done | Failed(error: DbError)

  /** Every element of `xs` through `decode`; `None` when one does not decode. */
  function DecodeAll<T>(rows: seq<Tuple>, decode: Tuple -> Option<T>): (r: Option<seq<T>>)
    ensures r.Some? ==> |r.value| == |rows|
    ensures r.Some? ==> forall i :: 0 <= i < |rows| ==> decode(rows[i]) == Some(r.value[i])
  {
    if rows == [] then Some([])
    else match (decode(rows[0]), DecodeAll(rows[1..], decode))
      case (Some(x), Some(xs)) => Some([x] + xs)
      case _ => None
  }

  function EncodeAll<T>(xs: seq<T>, encode: T -> Tuple): (rows: seq<Tuple>)
    ensures |rows| == |xs| && forall i :: 0 <= i < |xs| ==> rows[i] == encode(xs[i])
  {
    seq(|xs|, i requires 0 <= i < |xs| => encode(xs[i]))
  }

  /** Rows stored through an encoding read back as the same typed rows. */
  lemma {:induction false} DecodeEncode<T>(xs: seq<T>, encode: T -> Tuple, decode: Tuple -> Option<T>)
    requires forall x :: decode(encode(x)) == Some(x)
    ensures DecodeAll(EncodeAll(xs, encode), decode) == Some(xs)
  {
    if xs != [] {
      DecodeEncode(xs[1..], encode, decode);
      assert EncodeAll(xs, encode)[1..] == EncodeAll(xs[1..], encode);
      assert xs == [xs[0]] + xs[1..];
    }
  }

  /**
   * A loop that turns each input into a batch entry in order and stops at
   * the first input that fails, with that input's error.
   */
  function CollectAll<A, T>(xs: seq<A>, step: A -> Result<T>): (r: Result<seq<T>>)
    ensures r.Ok? ==> |r.value| == |xs|
  {
    if xs == [] then Ok([])
    else
      var n := |xs| - 1;
      match CollectAll(xs[..n], step)
      case Err(e) => Err(e)
      case Ok(ts) =>
        match step(xs[n])
        case Err(e) => Err(e)
        case Ok(t) => Ok(ts + [t])
  }

  /** Input `i` is the first that fails. */
  ghost predicate FirstFailure<A, T>(xs: seq<A>, step: A -> Result<T>, i: int)
  {
    0 <= i < |xs| && step(xs[i]).Err? && forall j :: 0 <= j < i ==> step(xs[j]).Ok?
  }

  /**
   * The batch holds every input's entry, in order, exactly when every input
   * succeeds; otherwise the error is that of the first input that fails.
   */
  lemma {:induction false} CollectAllSpec<A, T>(xs: seq<A>, step: A -> Result<T>)
    ensures var r := CollectAll(xs, step);
      && (r.Ok? <==> forall i :: 0 <= i < |xs| ==> step(xs[i]).Ok?)
      && (r.Ok? ==> forall i :: 0 <= i < |xs| ==> step(xs[i]) == Ok(r.value[i]))
      && (r.Err? ==> exists i :: FirstFailure(xs, step, i) && step(xs[i]) == Err(r.error))
  {
    if xs != [] {
      var n := |xs| - 1;
      var prefix := xs[..n];
      assert forall i :: 0 <= i < n ==> prefix[i] == xs[i];
      CollectAllSpec(prefix, step);
      match CollectAll(prefix, step)
      case Err(e) =>
        var i :| FirstFailure(prefix, step, i) && step(prefix[i]) == Err(e);
        assert FirstFailure(xs, step, i);
      case Ok(ts) =>
        if step(xs[n]).Err? {
          assert FirstFailure(xs, step, n);
        }
    }
  }

  /** A loop that has collected the first `i` inputs and fails on the next ends with that error. */
  lemma CollectAllStopsAt<A, T>(xs: seq<A>, step: A -> Result<T>, i: nat)
    requires i < |xs| && CollectAll(xs[..i], step).Ok? && step(xs[i]).Err?
    ensures CollectAll(xs, step) == Err(step(xs[i]).error)
  {
    CollectAllSpec(xs[..i], step);
    CollectAllSpec(xs, step);
    assert forall j :: 0 <= j < i ==> xs[..i][j] == xs[j];
    var r := CollectAll(xs, step);
    assert r.Err?;
    var k :| FirstFailure(xs, step, k) && step(xs[k]) == Err(r.error);
    assert k == i;
  }

  /** One more input that succeeds adds its entry at the end of the batch. */
  lemma CollectAllSnoc<A, T>(xs: seq<A>, step: A -> Result<T>, i: nat)
    requires i < |xs| && CollectAll(xs[..i], step).Ok? && step(xs[i]).Ok?
    ensures CollectAll(xs[..i + 1], step) == Ok(CollectAll(xs[..i], step).value + [step(xs[i]).value])
  {
    assert xs[..i + 1][..i] == xs[..i];
  }
}
