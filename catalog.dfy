/**
 * The database catalog, a map from object name to table or view, and the
 * create-or-replace lifecycle of `Table` and `View` over it: look the
 * object up, drop it with CASCADE when it is there, then create it.
 */
module Catalog {
  import opened Sql
  import Ddl

  /** A catalog entry: a table with its stored rows, or a view with the relations it selects from. */
  datatype SchemaObject =
    | TableObject(definition: string, temp: bool, rows: seq<Tuple>)
    | ViewObject(definition: string, sources: set<string>)

  type Objects = map<string, SchemaObject>

  /** A table of the loader: its `name`, `definition` and `isTemp` fields. */
  datatype Table = Table(name: string, definition: string, isTemp: bool)

  /** A view of the loader; `sources` are the relations its definition selects from. */
  datatype View = View(name: string, definition: string, sources: set<string>)

  /** Every relation a view reads is in the catalog: the database never lets a view outlive them. */
  ghost predicate Closed(objs: Objects) {
    forall n :: n in objs && objs[n].ViewObject? ==> objs[n].sources <= objs.Keys
  }

  /** The views that read one of `names`. */
  function Readers(objs: Objects, names: set<string>): set<string>
  {
    set n | n in objs && objs[n].ViewObject? && objs[n].sources * names != {}
  }

  lemma RemovingShrinks(a: set<string>, b: set<string>)
    requires b <= a && b != {}
    ensures |a - b| < |a|
  {
    var x :| x in b;
    assert a - b <= a - {x};
  }

  /**
   * DROP ... CASCADE: the victims go, then every view that reads something
   * gone, and so on until no remaining view reads a dropped relation.
   * Tables other than the victims always stay.
   */
  function DropCascade(objs: Objects, victims: set<string>): (r: Objects)
    requires victims <= objs.Keys
    ensures r.Keys <= objs.Keys - victims
    ensures forall n :: n in r ==> r[n] == objs[n]
    ensures forall n :: n in r && r[n].ViewObject? ==> r[n].sources * victims == {}
    ensures forall n :: n in objs && n !in victims && objs[n].TableObject? ==> n in r
    decreases |objs.Keys|
  {
    var rest := objs - victims;
    var next := Readers(rest, victims);
    if next == {} then
      assert forall n :: n in rest && rest[n].ViewObject? ==> rest[n].sources * victims == {} by {
        forall n | n in rest && rest[n].ViewObject? ensures rest[n].sources * victims == {} {
          assert n !in next;
        }
      }
      rest
    else
      RemovingShrinks(objs.Keys, victims);
      assert rest.Keys == objs.Keys - victims;
      var r := DropCascade(rest, next);
      assert forall n :: n in r && r[n].ViewObject? ==> r[n].sources * victims == {} by {
        forall n | n in r && r[n].ViewObject? ensures r[n].sources * victims == {} {
          assert n in rest && n !in next;
        }
      }
      r
  }

  /** A cascade leaves a closed catalog closed. */
  lemma {:induction false} DropCascadeClosed(objs: Objects, victims: set<string>)
    requires victims <= objs.Keys
    requires forall n :: n in objs && n !in victims && objs[n].ViewObject? ==> objs[n].sources <= objs.Keys
    ensures Closed(DropCascade(objs, victims))
    decreases |objs.Keys|
  {
    var rest := objs - victims;
    var next := Readers(rest, victims);
    assert rest.Keys == objs.Keys - victims;
    if next != {} {
      RemovingShrinks(objs.Keys, victims);
      forall n | n in rest && n !in next && rest[n].ViewObject?
        ensures rest[n].sources <= rest.Keys
      {
        assert objs[n].sources * victims == {};
      }
      DropCascadeClosed(rest, next);
    } else {
      forall n | n in rest && rest[n].ViewObject?
        ensures rest[n].sources <= rest.Keys
      {
        assert n !in next;
        assert objs[n].sources <= objs.Keys && objs[n].sources * victims == {};
        assert forall x :: x in objs[n].sources ==> x in objs.Keys && x !in victims;
      }
    }
  }

  /** With nothing reading the victims, a cascade removes the victims alone. */
  lemma DropCascadeAlone(objs: Objects, victims: set<string>)
    requires victims <= objs.Keys
    requires forall n :: n in objs && objs[n].ViewObject? ==> objs[n].sources * victims == {}
    ensures DropCascade(objs, victims) == objs - victims
  {
    assert Readers(objs - victims, victims) == {};
  }

  /** A view that reads only tables that are not victims is not dropped. */
  lemma {:induction false} DropCascadeKeepsViewOfTables(objs: Objects, victims: set<string>, n: string)
    requires victims <= objs.Keys
    requires n in objs && n !in victims && objs[n].ViewObject?
    requires forall x :: x in objs[n].sources ==> x in objs && x !in victims && objs[x].TableObject?
    ensures n in DropCascade(objs, victims)
    decreases |objs.Keys|
  {
    var rest := objs - victims;
    var next := Readers(rest, victims);
    assert objs[n].sources * victims == {};
    assert n !in next;
    if next != {} {
      RemovingShrinks(objs.Keys, victims);
      assert rest.Keys == objs.Keys - victims;
      DropCascadeKeepsViewOfTables(rest, next, n);
    }
  }

  /** A cascade drops only dependents: a view that is not a victim goes only when something it reads goes too. */
  lemma {:induction false} DropCascadeDropsOnlyDependents(objs: Objects, victims: set<string>, n: string)
    requires victims <= objs.Keys
    requires n in objs && n !in victims && objs[n].ViewObject?
    requires n !in DropCascade(objs, victims)
    ensures exists x :: x in objs[n].sources && x !in DropCascade(objs, victims)
    decreases |objs.Keys|
  {
    var rest := objs - victims;
    var next := Readers(rest, victims);
    var r := DropCascade(objs, victims);
    assert rest.Keys == objs.Keys - victims;
    if n in next {
      var x :| x in objs[n].sources * victims;
      assert x !in r;
    } else {
      assert next != {};
      RemovingShrinks(objs.Keys, victims);
      assert r == DropCascade(rest, next);
      DropCascadeDropsOnlyDependents(rest, next, n);
    }
  }

  // ---------------------------------------------------------------------------
  // The meaning of each statement on the catalog

  /** What `Table.alreadyExists` looks for: an object of ANY kind under that name. */
  predicate TableExists(objs: Objects, name: string) { name in objs }

  /** What `View.alreadyExists` looks for: a view under that name. */
  predicate ViewExists(objs: Objects, name: string) { name in objs && objs[name].ViewObject? }

  /** `DROP TABLE name CASCADE;` */
  function DropTableEffect(objs: Objects, name: string): Result<Objects>
  {
    if name !in objs then Err(UndefinedObject(name))
    else if !objs[name].TableObject? then Err(WrongObjectType(name))
    else Ok(DropCascade(objs, {name}))
  }

  /** `DROP VIEW name CASCADE;` */
  function DropViewEffect(objs: Objects, name: string): Result<Objects>
  {
    if name !in objs then Err(UndefinedObject(name))
    else if !objs[name].ViewObject? then Err(WrongObjectType(name))
    else Ok(DropCascade(objs, {name}))
  }

  /** `CREATE [TEMP] TABLE name (definition);`: a new, empty table. */
  function CreateTableEffect(objs: Objects, t: Table): Result<Objects>
  {
    if t.name in objs then Err(DuplicateObject(t.name))
    else Ok(objs[t.name := TableObject(t.definition, t.isTemp, [])])
  }

  /** `CREATE VIEW name AS definition;`: needs every relation it reads. */
  function CreateViewEffect(objs: Objects, v: View): Result<Objects>
  {
    if v.name in objs then Err(DuplicateObject(v.name))
    else if !(v.sources <= objs.Keys) then Err(UndefinedRelations(v.sources - objs.Keys))
    else Ok(objs[v.name := ViewObject(v.definition, v.sources)])
  }

  /** The catalog after a statement, or a run of them, and how it ended. */
  datatype Step = Step(objects: Objects, outcome: Outcome)

  /** A failed statement changes nothing. */
  function Apply(objs: Objects, r: Result<Objects>): Step
  {
    match r
    case Ok(o) => Step(o, Done)
    case Err(e) => Step(objs, Failed(e))
  }

  /** `Table.initialise`: if it exists, drop it, then create it. */
  function InitialiseTableEffect(objs: Objects, t: Table): Step
  {
    if TableExists(objs, t.name) then
      match DropTableEffect(objs, t.name)
      case Err(e) => Step(objs, Failed(e))
      case Ok(dropped) => Apply(dropped, CreateTableEffect(dropped, t))
    else Apply(objs, CreateTableEffect(objs, t))
  }

  /** `View.initialise`: if a view of that name exists, drop it, then create it. */
  function InitialiseViewEffect(objs: Objects, v: View): Step
  {
    if ViewExists(objs, v.name) then
      match DropViewEffect(objs, v.name)
      case Err(e) => Step(objs, Failed(e))
      case Ok(dropped) => Apply(dropped, CreateViewEffect(dropped, v))
    else Apply(objs, CreateViewEffect(objs, v))
  }

  /** The statements `Table.initialise` sends: a failed drop stops it before the create. */
  function InitialiseTableStatements(objs: Objects, t: Table): seq<string>
  {
    var create := Ddl.Render(Ddl.CreateTable(t.name, t.definition, t.isTemp));
    if TableExists(objs, t.name) then
      [Ddl.Render(Ddl.DropTable(t.name))] + (if DropTableEffect(objs, t.name).Ok? then [create] else [])
    else [create]
  }

  /** The statements `View.initialise` sends. */
  function InitialiseViewStatements(objs: Objects, v: View): seq<string>
  {
    var create := Ddl.Render(Ddl.CreateView(v.name, v.definition));
    if ViewExists(objs, v.name) then [Ddl.Render(Ddl.DropView(v.name)), create] else [create]
  }

  /** Temporary tables live until the session ends; their dependents go with them. */
  function EndSession(objs: Objects): Objects
  {
    DropCascade(objs, set n | n in objs && objs[n].TableObject? && objs[n].temp)
  }

  // ---------------------------------------------------------------------------
  // Properties of the lifecycle

  /** Every statement keeps the catalog closed. */
  lemma EffectsKeepClosed(objs: Objects, t: Table, v: View)
    requires Closed(objs)
    ensures Closed(InitialiseTableEffect(objs, t).objects)
    ensures Closed(InitialiseViewEffect(objs, v).objects)
  {
    if t.name in objs { DropCascadeClosed(objs, {t.name}); }
    if v.name in objs { DropCascadeClosed(objs, {v.name}); }
  }

  /**
   * After `Table.initialise` the catalog holds one object of that name: the
   * supplied definition, an empty table, whether or not it existed before.
   * It fails exactly when a non-table (a view) holds the name, and then
   * changes nothing. Other objects only ever disappear, never change, and
   * other tables all stay.
   */
  lemma InitialiseTableSpec(objs: Objects, t: Table)
    requires Closed(objs)
    ensures var s := InitialiseTableEffect(objs, t);
      && (s.outcome == Done <==> !(t.name in objs && objs[t.name].ViewObject?))
      && (s.outcome.Failed? ==> s.objects == objs && s.outcome.error == WrongObjectType(t.name))
      && (s.outcome == Done ==>
            && s.objects[t.name] == TableObject(t.definition, t.isTemp, [])
            && Closed(s.objects)
            && (forall n :: n in s.objects && n != t.name ==> n in objs && s.objects[n] == objs[n])
            && (forall n :: n in objs && n != t.name && objs[n].TableObject? ==> n in s.objects)
            && (forall n :: n in s.objects && s.objects[n].ViewObject? ==> t.name !in s.objects[n].sources))
  {
    EffectsKeepClosed(objs, t, View("", "", {}));
    if t.name in objs && objs[t.name].TableObject? {
      var dropped := DropCascade(objs, {t.name});
      DropCascadeClosed(objs, {t.name});
      assert t.name !in dropped;
    }
  }

  /** Running `Table.initialise` a second time leaves the catalog as the first run left it. */
  lemma InitialiseTableTwice(objs: Objects, t: Table)
    requires Closed(objs)
    requires InitialiseTableEffect(objs, t).outcome == Done
    ensures var once := InitialiseTableEffect(objs, t).objects;
      InitialiseTableEffect(once, t) == Step(once, Done)
  {
    InitialiseTableSpec(objs, t);
    var once := InitialiseTableEffect(objs, t).objects;
    DropCascadeAlone(once, {t.name});
    assert (once - {t.name})[t.name := once[t.name]] == once;
  }

  /**
   * After `View.initialise` the catalog holds the view with the supplied
   * definition. It fails when a table holds the name (the lookup sees only
   * views, so the create runs into the table), and succeeds whenever the
   * name is free or a view's and everything it reads is a table.
   */
  lemma InitialiseViewSpec(objs: Objects, v: View)
    requires Closed(objs)
    ensures var s := InitialiseViewEffect(objs, v);
      && (s.outcome == Done ==>
            && s.objects[v.name] == ViewObject(v.definition, v.sources)
            && Closed(s.objects)
            && (forall n :: n in s.objects && n != v.name ==> n in objs && s.objects[n] == objs[n])
            && (forall n :: n in objs && n != v.name && objs[n].TableObject? ==> n in s.objects)
            && (forall n :: n in s.objects && s.objects[n].ViewObject? ==> v.name !in s.objects[n].sources))
      && (v.name in objs && objs[v.name].TableObject? ==> s == Step(objs, Failed(DuplicateObject(v.name))))
      && (((v.name !in objs || objs[v.name].ViewObject?) && v.name !in v.sources
           && (forall n :: n in v.sources ==> n in objs && objs[n].TableObject?)) ==> s.outcome == Done)
  {
    EffectsKeepClosed(objs, Table("", "", false), v);
    if v.name in objs && objs[v.name].ViewObject? {
      var dropped := DropCascade(objs, {v.name});
      DropCascadeClosed(objs, {v.name});
      assert v.name !in dropped;
    }
  }

  /** Running `View.initialise` a second time leaves the catalog as the first run left it. */
  lemma InitialiseViewTwice(objs: Objects, v: View)
    requires Closed(objs)
    requires InitialiseViewEffect(objs, v).outcome == Done
    ensures var once := InitialiseViewEffect(objs, v).objects;
      InitialiseViewEffect(once, v) == Step(once, Done)
  {
    InitialiseViewSpec(objs, v);
    var once := InitialiseViewEffect(objs, v).objects;
    DropCascadeAlone(once, {v.name});
    var dropped := once - {v.name};
    assert v.name !in v.sources;
    assert v.sources <= dropped.Keys;
    assert dropped[v.name := once[v.name]] == once;
  }

  /** `View.initialise` never drops another view that reads only tables. */
  lemma InitialiseViewKeepsViewOfTables(objs: Objects, v: View, n: string)
    requires n in objs && n != v.name && objs[n].ViewObject?
    requires forall x :: x in objs[n].sources ==> x in objs && objs[x].TableObject?
    ensures n in InitialiseViewEffect(objs, v).objects
  {
    if ViewExists(objs, v.name) {
      DropCascadeKeepsViewOfTables(objs, {v.name}, n);
    }
  }

  // ---------------------------------------------------------------------------
  // The connection: the catalog it shows and the DDL sent over it

  /** `getTables` matches names with LIKE; `_` stands for any one character (names hold no `%`). */
  predicate Like(pattern: string, name: string)
  {
    |pattern| == |name| && forall i :: 0 <= i < |name| ==> pattern[i] == '_' || pattern[i] == name[i]
  }

  class Database {
    var objects: Objects
    /** Every DDL statement sent so far, in order. */
    var issued: seq<string>

    ghost predicate Valid()
      reads this
    {
      Closed(objects)
    }

    constructor (objs: Objects)
      requires Closed(objs)
      ensures Valid() && objects == objs && issued == []
    {
      objects := objs;
      issued := [];
    }

    /**
     * `Table.alreadyExists`: scans what `getTables(null, null, name, null)`
     * lists, objects of every kind whose name is LIKE `name`, for an exact match.
     */
    method TableAlreadyExists(name: string) returns (found: bool)
      ensures found == TableExists(objects, name)
    {
      var listed := set n | n in objects && Like(name, n);
      found := false;
      while listed != {}
        invariant listed <= objects.Keys
        invariant !found
        invariant name in objects ==> name in listed
        decreases listed
      {
        var n :| n in listed;
        if n == name {
          found := true;
          return;
        }
        listed := listed - {n};
      }
    }

    /**
     * `View.alreadyExists`: the same scan over `getTables(null, null, name,
     * {"VIEW"})`, which lists views only.
     */
    method ViewAlreadyExists(name: string) returns (found: bool)
      ensures found == ViewExists(objects, name)
    {
      var listed := set n | n in objects && objects[n].ViewObject? && Like(name, n);
      found := false;
      while listed != {}
        invariant listed <= objects.Keys
        invariant forall n :: n in listed ==> objects[n].ViewObject?
        invariant !found
        invariant ViewExists(objects, name) ==> name in listed
        decreases listed
      {
        var n :| n in listed;
        if n == name {
          found := true;
          return;
        }
        listed := listed - {n};
      }
    }

    /** `Table.drop`. */
    method DropTable(name: string) returns (outcome: Outcome)
      requires Valid()
      modifies this
      ensures Valid()
      ensures issued == old(issued) + [Ddl.Render(Ddl.DropTable(name))]
      ensures Step(objects, outcome) == Apply(old(objects), DropTableEffect(old(objects), name))
    {
      issued := issued + [Ddl.Render(Ddl.DropTable(name))];
      match DropTableEffect(objects, name)
      case Ok(o) =>
        DropCascadeClosed(objects, {name});
        objects, outcome := o, Done;
      case Err(e) =>
        outcome := Failed(e);
    }

    /** `View.drop`. */
    method DropView(name: string) returns (outcome: Outcome)
      requires Valid()
      modifies this
      ensures Valid()
      ensures issued == old(issued) + [Ddl.Render(Ddl.DropView(name))]
      ensures Step(objects, outcome) == Apply(old(objects), DropViewEffect(old(objects), name))
    {
      issued := issued + [Ddl.Render(Ddl.DropView(name))];
      match DropViewEffect(objects, name)
      case Ok(o) =>
        DropCascadeClosed(objects, {name});
        objects, outcome := o, Done;
      case Err(e) =>
        outcome := Failed(e);
    }

    /** `Table.create`: CREATE TEMP TABLE for a temporary table, CREATE TABLE otherwise. */
    method CreateTable(t: Table) returns (outcome: Outcome)
      requires Valid()
      modifies this
      ensures Valid()
      ensures issued == old(issued) + [Ddl.Render(Ddl.CreateTable(t.name, t.definition, t.isTemp))]
      ensures Step(objects, outcome) == Apply(old(objects), CreateTableEffect(old(objects), t))
    {
      issued := issued + [Ddl.Render(Ddl.CreateTable(t.name, t.definition, t.isTemp))];
      match CreateTableEffect(objects, t)
      case Ok(o) => objects, outcome := o, Done;
      case Err(e) => outcome := Failed(e);
    }

    /** `View.create`. */
    method CreateView(v: View) returns (outcome: Outcome)
      requires Valid()
      modifies this
      ensures Valid()
      ensures issued == old(issued) + [Ddl.Render(Ddl.CreateView(v.name, v.definition))]
      ensures Step(objects, outcome) == Apply(old(objects), CreateViewEffect(old(objects), v))
    {
      issued := issued + [Ddl.Render(Ddl.CreateView(v.name, v.definition))];
      match CreateViewEffect(objects, v)
      case Ok(o) => objects, outcome := o, Done;
      case Err(e) => outcome := Failed(e);
    }

    /** `Table.initialise`. */
    method InitialiseTable(t: Table) returns (outcome: Outcome)
      requires Valid()
      modifies this
      ensures Valid()
      ensures issued == old(issued) + InitialiseTableStatements(old(objects), t)
      ensures Step(objects, outcome) == InitialiseTableEffect(old(objects), t)
    {
      var present := TableAlreadyExists(t.name);
      if present {
        outcome := DropTable(t.name);
        if outcome.Failed? {
          return;
        }
        outcome := CreateTable(t);
      } else {
        outcome := CreateTable(t);
      }
    }

    /** `View.initialise`. */
    method InitialiseView(v: View) returns (outcome: Outcome)
      requires Valid()
      modifies this
      ensures Valid()
      ensures issued == old(issued) + InitialiseViewStatements(old(objects), v)
      ensures Step(objects, outcome) == InitialiseViewEffect(old(objects), v)
    {
      var present := ViewAlreadyExists(v.name);
      if present {
        outcome := DropView(v.name);
        // a view the lookup found can always be dropped
        outcome := CreateView(v);
      } else {
        outcome := CreateView(v);
      }
    }

    /** The outcome of an executed insert batch: the table's rows become `rows`. */
    method StoreRows(name: string, rows: seq<Tuple>)
      requires Valid() && name in objects && objects[name].TableObject?
      modifies this
      ensures Valid() && issued == old(issued)
      ensures objects == old(objects)[name := old(objects)[name].(rows := rows)]
    {
      objects := objects[name := objects[name].(rows := rows)];
    }
  }
}
