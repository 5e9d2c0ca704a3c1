/**
 * The two pieces of the Java standard library that the loader's line parsing
 * rests on: `String.split("\t")` and `Integer.parseInt`.
 */
module JavaText {
  import opened Common

  const Tab: char := '\t'

  /** Index of the first occurrence of `c` in `s`. */
  function IndexOf(s: string, c: char): (k: nat)
    requires c in s
    ensures k < |s| && s[k] == c && c !in s[..k]
  {
    if s[0] == c then 0 else 1 + IndexOf(s[1..], c)
  }

  /** `fs` joined with a tab between consecutive fields. */
  function Join(fs: seq<string>): string
    requires |fs| >= 1
  {
    if |fs| == 1 then fs[0] else fs[0] + [Tab] + Join(fs[1..])
  }

  /** Every field between tabs, empty ones included: one more field than there are tabs. */
  function SplitAll(s: string): (fs: seq<string>)
    ensures |fs| >= 1
    ensures forall i :: 0 <= i < |fs| ==> Tab !in fs[i]
    decreases |s|
  {
    if Tab !in s then [s]
    else
      var k := IndexOf(s, Tab);
      [s[..k]] + SplitAll(s[k + 1..])
  }

  /** `fs` without its trailing empty strings. */
  function DropTrailingEmpty(fs: seq<string>): (r: seq<string>)
    ensures |r| <= |fs| && r == fs[..|r|]
    ensures r == [] || r[|r| - 1] != ""
    ensures forall i :: |r| <= i < |fs| ==> fs[i] == ""
  {
    if fs == [] || fs[|fs| - 1] != "" then fs else DropTrailingEmpty(fs[..|fs| - 1])
  }

  /**
   * Java's `s.split("\t")`: a string without a tab is returned whole (so `""`
   * gives one empty field); otherwise every field between tabs, with the
   * trailing empty ones removed (so `"\t"` gives no field at all).
   */
  function Split(s: string): (fs: seq<string>)
  {
    if Tab !in s then [s] else DropTrailingEmpty(SplitAll(s))
  }

  /** Splitting then joining gives back the string. */
  lemma {:induction false} JoinSplitAll(s: string)
    ensures Join(SplitAll(s)) == s
    decreases |s|
  {
    if Tab in s {
      var k := IndexOf(s, Tab);
      var fs := SplitAll(s);
      var rest := SplitAll(s[k + 1..]);
      assert fs == [s[..k]] + rest;
      assert fs[0] == s[..k] && fs[1..] == rest;
      JoinSplitAll(s[k + 1..]);
      assert Join(fs) == s[..k] + [Tab] + s[k + 1..];
      assert s == s[..k] + [Tab] + s[k + 1..];
    }
  }

  /** The first tab of a join of tab-free fields ends its first field. */
  lemma JoinFirstTab(fs: seq<string>)
    requires |fs| > 1 && Tab !in fs[0]
    ensures var s := Join(fs);
      Tab in s && IndexOf(s, Tab) == |fs[0]| && s[..|fs[0]|] == fs[0] && s[|fs[0]| + 1..] == Join(fs[1..])
  {
    var s := Join(fs);
    var k := |fs[0]|;
    assert s == fs[0] + [Tab] + Join(fs[1..]);
    assert s[k] == Tab && s[..k] == fs[0];
    assert s[k + 1..] == Join(fs[1..]);
  }

  /** Joining tab-free fields then splitting gives back the fields. */
  lemma {:induction false} SplitAllJoin(fs: seq<string>)
    requires |fs| >= 1
    requires forall i :: 0 <= i < |fs| ==> Tab !in fs[i]
    ensures SplitAll(Join(fs)) == fs
  {
    if |fs| > 1 {
      JoinFirstTab(fs);
      SplitAllJoin(fs[1..]);
      assert fs == [fs[0]] + fs[1..];
    }
  }

  /** Java's split undoes a join whose last field is not empty (or which has one field). */
  lemma SplitJoin(fs: seq<string>)
    requires |fs| >= 1
    requires forall i :: 0 <= i < |fs| ==> Tab !in fs[i]
    requires |fs| == 1 || fs[|fs| - 1] != ""
    ensures Split(Join(fs)) == fs
  {
    if |fs| > 1 {
      var s := Join(fs);
      assert s == fs[0] + [Tab] + Join(fs[1..]);
      assert s[|fs[0]|] == Tab;
      SplitAllJoin(fs);
    }
  }

  /** A join whose last field is empty splits back without it. */
  lemma SplitDropsTrailingEmpty(fs: seq<string>)
    requires |fs| >= 2
    requires forall i :: 0 <= i < |fs| ==> Tab !in fs[i]
    requires fs[|fs| - 1] == "" && fs[|fs| - 2] != ""
    ensures Split(Join(fs)) == fs[..|fs| - 1]
  {
    var s := Join(fs);
    assert s == fs[0] + [Tab] + Join(fs[1..]);
    assert s[|fs[0]|] == Tab;
    SplitAllJoin(fs);
    assert DropTrailingEmpty(fs) == DropTrailingEmpty(fs[..|fs| - 1]);
  }

  /** What split keeps of the full field list: a prefix, dropping only empty fields. */
  lemma SplitIsPrefixOfFields(s: string)
    ensures var fs := Split(s); var all := SplitAll(s);
      |fs| <= |all| && fs == all[..|fs|] && (forall i :: |fs| <= i < |all| ==> all[i] == "")
  {
  }

  // ---------------------------------------------------------------------------
  // Integer.parseInt

  const IntMin: int := -0x8000_0000
  const IntMax: int := 0x7fff_ffff

  /** A Java `int`. */
  predicate InIntRange(n: int) { IntMin <= n <= IntMax }

  predicate IsDigit(c: char) { '0' <= c <= '9' }

  predicate AllDigits(s: string) { forall i :: 0 <= i < |s| ==> IsDigit(s[i]) }

  /** The value of a string of decimal digits, most significant first. */
  function DigitsValue(s: string): nat
    requires AllDigits(s)
  {
    if s == [] then 0 else DigitsValue(s[..|s| - 1]) * 10 + (s[|s| - 1] as int - '0' as int)
  }

  /**
   * `Integer.parseInt(s)`: an optional `-` or `+`, then at least one decimal
   * digit and nothing else, whose value fits a Java `int`; `None` is the
   * `NumberFormatException`.
   */
  function ParseInt(s: string): (r: Option<int>)
    ensures r.Some? ==> InIntRange(r.value)
  {
    var signed := |s| > 0 && (s[0] == '-' || s[0] == '+');
    var digits := if signed then s[1..] else s;
    if digits == [] || !AllDigits(digits) then None
    else
      var v: int := if signed && s[0] == '-' then -(DigitsValue(digits) as int) else DigitsValue(digits);
      if InIntRange(v) then Some(v) else None
  }

  /** The decimal digits of a natural number, most significant first. */
  function NatDigits(n: nat): (s: string)
    ensures |s| >= 1 && AllDigits(s)
  {
    if n < 10 then [('0' as int + n) as char]
    else NatDigits(n / 10) + [('0' as int + n % 10) as char]
  }

  /** `Integer.toString(n)`: the decimal rendering, with a leading `-` when negative. */
  function Show(n: int): (s: string)
    ensures |s| >= 1 && forall i :: 0 <= i < |s| ==> IsDigit(s[i]) || (i == 0 && s[i] == '-' && n < 0)
  {
    if n < 0 then "-" + NatDigits(-n) else NatDigits(n)
  }

  lemma {:induction false} DigitsValueOfNatDigits(n: nat)
    ensures DigitsValue(NatDigits(n)) == n
  {
    if n >= 10 {
      DigitsValueOfNatDigits(n / 10);
      var s := NatDigits(n);
      assert s[..|s| - 1] == NatDigits(n / 10);
    }
  }

  /** parseInt reads back every `int` that toString writes. */
  lemma ParseShow(n: int)
    requires InIntRange(n)
    ensures ParseInt(Show(n)) == Some(n)
  {
    if n < 0 {
      ParseShowNegative(n);
    } else {
      DigitsValueOfNatDigits(n);
      var s := Show(n);
      assert s == NatDigits(n) && s[0] != '-' && s[0] != '+';
    }
  }

  lemma ParseShowNegative(n: int)
    requires IntMin <= n < 0
    ensures ParseInt(Show(n)) == Some(n)
  {
    DigitsValueOfNatDigits(-n);
    var s := Show(n);
    assert s[0] == '-' && s[1..] == NatDigits(-n);
  }

  /** A rank field holding anything but a sign and digits is rejected. */
  lemma ParseIntRejectsNonDigit(s: string, i: nat)
    requires i < |s| && !IsDigit(s[i])
    requires i > 0 || (s[0] != '-' && s[0] != '+')
    ensures ParseInt(s) == None
  {
    var signed := |s| > 0 && (s[0] == '-' || s[0] == '+');
    var digits := if signed then s[1..] else s;
    if signed { assert digits[i - 1] == s[i]; } else { assert digits[i] == s[i]; }
  }
}
