/**
 * The DDL statements the lifecycle of tables and views sends to the
 * database: their text, as the loader concatenates it, and a reader that
 * recovers the statement from that text.
 */
module Ddl {
  import opened Common
  import JavaText

  datatype Statement =
    | CreateTable(name: string, definition: string, temp: bool)
    | CreateView(name: string, definition: string)
    | DropTable(name: string)
    | DropView(name: string)

  /** The statement text: `Table.create`, `View.create`, `Table.drop`, `View.drop`. */
  function Render(st: Statement): string
  {
    match st
    case CreateTable(n, d, t) => (if t then "CREATE TEMP TABLE " else "CREATE TABLE ") + (n + (" (" + d + ");"))
    case CreateView(n, d) => "CREATE VIEW " + (n + (" AS " + d + ";"))
    case DropTable(n) => "DROP TABLE " + (n + " CASCADE;")
    case DropView(n) => "DROP VIEW " + (n + " CASCADE;")
  }

  predicate IsIdentifierChar(c: char) {
    ('a' <= c <= 'z') || ('A' <= c <= 'Z') || ('0' <= c <= '9') || c == '_'
  }

  /** An unquoted SQL name such as `url_temp` or `top_10_urls`. */
  predicate IsIdentifier(s: string) {
    |s| > 0 && forall i :: 0 <= i < |s| ==> IsIdentifierChar(s[i])
  }

  predicate HasPrefix(s: string, p: string) { |p| <= |s| && s[..|p|] == p }

  predicate HasSuffix(s: string, p: string) { |p| <= |s| && s[|s| - |p|..] == p }

  /** The name at the head of `rest`, up to the first space, and the text from that space on. */
  function SplitName(rest: string): Option<(string, string)>
  {
    if ' ' !in rest then None
    else
      var k := JavaText.IndexOf(rest, ' ');
      if IsIdentifier(rest[..k]) then Some((rest[..k], rest[k..])) else None
  }

  function ParseTable(rest: string, temp: bool): Option<Statement>
  {
    match SplitName(rest)
    case None => None
    case Some((n, tail)) =>
      if |tail| >= 4 && HasPrefix(tail, " (") && HasSuffix(tail, ");")
      then Some(CreateTable(n, tail[2..|tail| - 2], temp)) else None
  }

  function ParseView(rest: string): Option<Statement>
  {
    match SplitName(rest)
    case None => None
    case Some((n, tail)) =>
      if |tail| >= 5 && HasPrefix(tail, " AS ") && HasSuffix(tail, ";")
      then Some(CreateView(n, tail[4..|tail| - 1])) else None
  }

  function ParseDrop(rest: string, table: bool): Option<Statement>
  {
    match SplitName(rest)
    case None => None
    case Some((n, tail)) =>
      if tail == " CASCADE;" then Some(if table then DropTable(n) else DropView(n)) else None
  }

  /** Reads back one of the four statement shapes the lifecycle sends. */
  function Parse(sql: string): Option<Statement>
  {
    if HasPrefix(sql, "CREATE TEMP TABLE ") then ParseTable(sql[18..], true)
    else if HasPrefix(sql, "CREATE TABLE ") then ParseTable(sql[13..], false)
    else if HasPrefix(sql, "CREATE VIEW ") then ParseView(sql[12..])
    else if HasPrefix(sql, "DROP TABLE ") then ParseDrop(sql[11..], true)
    else if HasPrefix(sql, "DROP VIEW ") then ParseDrop(sql[10..], false)
    else None
  }

  /** The name of an object ends at the first space after it. */
  lemma SplitNameOf(n: string, tail: string)
    requires IsIdentifier(n) && |tail| > 0 && tail[0] == ' '
    ensures SplitName(n + tail) == Some((n, tail))
  {
    var s := n + tail;
    assert s[|n|] == ' ';
    assert s[..|n|] == n;
    assert ' ' !in n by {
      forall i | 0 <= i < |n| ensures n[i] != ' ' { assert IsIdentifierChar(n[i]); }
    }
    assert JavaText.IndexOf(s, ' ') == |n|;
    assert s[|n|..] == tail;
  }

  lemma HeadAndRest(head: string, rest: string)
    ensures HasPrefix(head + rest, head) && (head + rest)[|head|..] == rest
  {
    assert (head + rest)[..|head|] == head;
  }

  /** Two texts that differ at position `i` cannot both start with `p`. */
  lemma NotPrefix(s: string, p: string, i: nat)
    requires i < |p| && i < |s| && s[i] != p[i]
    ensures !HasPrefix(s, p)
  {
    if |p| <= |s| { assert s[..|p|][i] == s[i]; }
  }

  lemma ParseTableTail(n: string, d: string, t: bool)
    requires IsIdentifier(n)
    ensures ParseTable(n + (" (" + d + ");"), t) == Some(CreateTable(n, d, t))
  {
    var tail := " (" + d + ");";
    SplitNameOf(n, tail);
    assert tail[2..|tail| - 2] == d;
    assert tail[..2] == " (";
    assert tail[|tail| - 2..] == ");";
  }

  lemma ParseViewTail(n: string, d: string)
    requires IsIdentifier(n)
    ensures ParseView(n + (" AS " + d + ";")) == Some(CreateView(n, d))
  {
    var tail := " AS " + d + ";";
    SplitNameOf(n, tail);
    assert tail[4..|tail| - 1] == d;
    assert tail[..4] == " AS ";
    assert tail[|tail| - 1..] == ";";
  }

  lemma ParseDropTail(n: string, table: bool)
    requires IsIdentifier(n)
    ensures ParseDrop(n + " CASCADE;", table) == Some(if table then DropTable(n) else DropView(n))
  {
    SplitNameOf(n, " CASCADE;");
  }

  /** How Parse dispatches on the head of each rendered statement. */
  lemma ParseDispatch(rest: string)
    ensures Parse("CREATE TEMP TABLE " + rest) == ParseTable(rest, true)
    ensures Parse("CREATE TABLE " + rest) == ParseTable(rest, false)
    ensures Parse("CREATE VIEW " + rest) == ParseView(rest)
    ensures Parse("DROP TABLE " + rest) == ParseDrop(rest, true)
    ensures Parse("DROP VIEW " + rest) == ParseDrop(rest, false)
  {
    HeadAndRest("CREATE TEMP TABLE ", rest);
    HeadAndRest("CREATE TABLE ", rest);
    HeadAndRest("CREATE VIEW ", rest);
    HeadAndRest("DROP TABLE ", rest);
    HeadAndRest("DROP VIEW ", rest);
    NotPrefix("CREATE TABLE " + rest, "CREATE TEMP TABLE ", 8);
    NotPrefix("CREATE VIEW " + rest, "CREATE TEMP TABLE ", 7);
    NotPrefix("CREATE VIEW " + rest, "CREATE TABLE ", 7);
    NotPrefix("DROP TABLE " + rest, "CREATE TEMP TABLE ", 0);
    NotPrefix("DROP TABLE " + rest, "CREATE TABLE ", 0);
    NotPrefix("DROP TABLE " + rest, "CREATE VIEW ", 0);
    NotPrefix("DROP VIEW " + rest, "CREATE TEMP TABLE ", 0);
    NotPrefix("DROP VIEW " + rest, "CREATE TABLE ", 0);
    NotPrefix("DROP VIEW " + rest, "CREATE VIEW ", 0);
    NotPrefix("DROP VIEW " + rest, "DROP TABLE ", 5);
  }

  /** Every statement the lifecycle sends reads back as itself. */
  lemma ParseRender(st: Statement)
    requires IsIdentifier(st.name)
    ensures Parse(Render(st)) == Some(st)
  {
    match st
    case CreateTable(n, d, t) =>
      var rest := n + (" (" + d + ");");
      ParseDispatch(rest);
      ParseTableTail(n, d, t);
    case CreateView(n, d) =>
      var rest := n + (" AS " + d + ";");
      ParseDispatch(rest);
      ParseViewTail(n, d);
    case DropTable(n) =>
      ParseDispatch(n + " CASCADE;");
      ParseDropTail(n, true);
    case DropView(n) =>
      ParseDispatch(n + " CASCADE;");
      ParseDropTail(n, false);

  }

  /** `create` says TEMP exactly for a temporary table. */
  lemma CreateSaysTemp(n: string, d: string, t: bool)
    ensures HasPrefix(Render(CreateTable(n, d, t)), "CREATE TEMP TABLE ") <==> t
    ensures !t ==> HasPrefix(Render(CreateTable(n, d, t)), "CREATE TABLE ")
  {
    var rest := n + (" (" + d + ");");
    HeadAndRest("CREATE TEMP TABLE ", rest);
    HeadAndRest("CREATE TABLE ", rest);
    NotPrefix("CREATE TABLE " + rest, "CREATE TEMP TABLE ", 8);
  }
}
