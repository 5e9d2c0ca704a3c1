/**
 * The relational building blocks the fixed SQL of the loader is made of:
 * ORDER BY (a stable sort on an integer key), LIMIT, DISTINCT / GROUP BY and
 * the min() and count(*) aggregates.
 */
module Ordering {
  import opened Common

  ghost predicate SortedBy<T>(xs: seq<T>, key: T -> int) {
    forall i, j :: 0 <= i < j < |xs| ==> key(xs[i]) <= key(xs[j])
  }

  /** `x` placed after every element whose key is not larger. */
  function Insert<T>(x: T, xs: seq<T>, key: T -> int): (r: seq<T>)
    requires SortedBy(xs, key)
    ensures SortedBy(r, key)
    ensures multiset(r) == multiset(xs) + multiset{x}
    ensures |r| == |xs| + 1
  {
    if xs == [] || key(x) < key(xs[0]) then [x] + xs
    else
      var rest := Insert(x, xs[1..], key);
      assert xs == [xs[0]] + xs[1..];
      LowerBound(xs[0], x, xs[1..], rest, key);
      [xs[0]] + rest
  }

  /** A key not above `x`'s nor any of `xs`'s is not above any element of a permutation of `[x] + xs`. */
  lemma LowerBound<T>(h: T, x: T, xs: seq<T>, rest: seq<T>, key: T -> int)
    requires key(h) <= key(x)
    requires forall j :: 0 <= j < |xs| ==> key(h) <= key(xs[j])
    requires multiset(rest) == multiset(xs) + multiset{x}
    ensures forall j :: 0 <= j < |rest| ==> key(h) <= key(rest[j])
  {
    forall j | 0 <= j < |rest| ensures key(h) <= key(rest[j]) {
      assert rest[j] in multiset(rest);
      if rest[j] != x {
        assert rest[j] in multiset(xs);
      }
    }
  }

  /** ORDER BY key: a sorted permutation of `xs` (insertion sort, stable). */
  function SortBy<T>(xs: seq<T>, key: T -> int): (r: seq<T>)
    ensures SortedBy(r, key)
    ensures multiset(r) == multiset(xs)
    ensures |r| == |xs|
  {
    if xs == [] then []
    else
      assert xs == xs[..|xs| - 1] + [xs[|xs| - 1]];
      Insert(xs[|xs| - 1], SortBy(xs[..|xs| - 1], key), key)
  }

  function Min(a: int, b: int): int { if a <= b then a else b }

  /**
   * ORDER BY key LIMIT limit: the `limit` smallest elements, ascending; all
   * of them when there are fewer; an element left out is never smaller
   * than one kept.
   */
  function TopBy<T>(xs: seq<T>, key: T -> int, limit: nat): (r: seq<T>)
    ensures |r| == Min(limit, |xs|)
    ensures SortedBy(r, key)
    ensures forall i :: 0 <= i < |r| ==> r[i] in xs
    ensures multiset(r) <= multiset(xs)
    ensures forall y, i :: y in xs && y !in r && 0 <= i < |r| ==> key(r[i]) <= key(y)
  {
    var s := SortBy(xs, key);
    SortedPrefix(xs, s, key, Min(limit, |s|));
    s[..Min(limit, |s|)]
  }

  /** A prefix of a sorted permutation of `xs` is sorted, drawn from `xs`, and no later than what it leaves out. */
  lemma SortedPrefix<T>(xs: seq<T>, s: seq<T>, key: T -> int, m: nat)
    requires SortedBy(s, key) && multiset(s) == multiset(xs) && m <= |s|
    ensures SortedBy(s[..m], key)
    ensures forall i :: 0 <= i < m ==> s[..m][i] in xs
    ensures multiset(s[..m]) <= multiset(xs)
    ensures forall y, i :: y in xs && y !in s[..m] && 0 <= i < m ==> key(s[..m][i]) <= key(y)
  {
    var r := s[..m];
    assert s == r + s[m..];
    forall i | 0 <= i < m ensures r[i] in xs {
      assert r[i] in multiset(s);
    }
    forall y, i | y in xs && y !in r && 0 <= i < m ensures key(r[i]) <= key(y) {
      assert y in multiset(s);
      var j :| 0 <= j < |s| && s[j] == y;
      assert forall k :: 0 <= k < m ==> r[k] == s[k];
    }
  }

  /**
   * An element of a list without repeats makes the cut when fewer than
   * `limit` other elements rank no worse than it.
   */
  lemma TopByComplete<T>(xs: seq<T>, key: T -> int, limit: nat, y: T, rivals: set<T>)
    requires Unique(xs) && y in xs
    requires forall z :: z in rivals <==> z in xs && z != y && key(z) <= key(y)
    requires |rivals| < limit
    ensures y in TopBy(xs, key, limit)
  {
    var r := TopBy(xs, key, limit);
    if y !in r {
      var shown := set z | z in r;
      forall z | z in shown ensures z in rivals {
        var i :| 0 <= i < |r| && r[i] == z;
      }
      SubBagKeepsUnique(xs, r);
      UniqueElems(r);
      SubsetSize(shown, rivals);
      if |xs| <= limit {
        UniqueElems(xs);
        SubsetSize(rivals, (set z | z in xs) - {y});
      }
    }
  }

  /** DISTINCT: each element once, in order of first occurrence. */
  function Distinct<K(==,!new)>(ks: seq<K>): (r: seq<K>)
    ensures forall k :: k in r <==> k in ks
    ensures forall i, j :: 0 <= i < j < |r| ==> r[i] != r[j]
    ensures |r| <= |ks|
  {
    if ks == [] then []
    else
      var r := Distinct(ks[..|ks| - 1]);
      assert ks == ks[..|ks| - 1] + [ks[|ks| - 1]];
      if ks[|ks| - 1] in r then r else r + [ks[|ks| - 1]]
  }

  predicate HasKey<K(==)>(xs: seq<(K, int)>, k: K) {
    exists i :: 0 <= i < |xs| && xs[i].0 == k
  }

  /** min(value) over the entries of group `k`. */
  function MinFor<K(==)>(xs: seq<(K, int)>, k: K): (m: int)
    requires HasKey(xs, k)
    ensures exists i :: 0 <= i < |xs| && xs[i].0 == k && xs[i].1 == m
    ensures forall i :: 0 <= i < |xs| && xs[i].0 == k ==> m <= xs[i].1
  {
    var n := |xs| - 1;
    if xs[n].0 != k then
      assert HasKey(xs[..n], k) by {
        var i :| 0 <= i < |xs| && xs[i].0 == k;
        assert xs[..n][i] == xs[i];
      }
      var m := MinFor(xs[..n], k);
      assert forall i :: 0 <= i < n ==> xs[..n][i] == xs[i];
      m
    else if !HasKey(xs[..n], k) then
      assert forall i :: 0 <= i < n ==> xs[..n][i] == xs[i];
      xs[n].1
    else
      var m := MinFor(xs[..n], k);
      assert forall i :: 0 <= i < n ==> xs[..n][i] == xs[i];
      if m <= xs[n].1 then m else xs[n].1
  }

  /** count(*) over the entries of group `k`. */
  function CountFor<K(==)>(xs: seq<(K, int)>, k: K): (c: nat)
    ensures c <= |xs|
  {
    if xs == [] then 0
    else CountFor(xs[..|xs| - 1], k) + (if xs[|xs| - 1].0 == k then 1 else 0)
  }

  /** A group holds more than one entry exactly when two distinct entries carry its key. */
  lemma {:induction false} CountAboveOne<K>(xs: seq<(K, int)>, k: K)
    ensures CountFor(xs, k) > 1 <==>
      exists i, j :: 0 <= i < j < |xs| && xs[i].0 == k && xs[j].0 == k
  {
    if xs != [] {
      var n := |xs| - 1;
      CountAboveOne(xs[..n], k);
      CountPositive(xs[..n], k);
      assert forall i :: 0 <= i < n ==> xs[..n][i] == xs[i];
    }
  }

  /** A group is non-empty exactly when some entry carries its key. */
  lemma {:induction false} CountPositive<K>(xs: seq<(K, int)>, k: K)
    ensures CountFor(xs, k) > 0 <==> HasKey(xs, k)
  {
    if xs != [] {
      var n := |xs| - 1;
      CountPositive(xs[..n], k);
      assert forall i :: 0 <= i < n ==> xs[..n][i] == xs[i];
    }
  }

  function Keys<K, V>(xs: seq<(K, V)>): (ks: seq<K>)
    ensures |ks| == |xs| && forall i :: 0 <= i < |xs| ==> ks[i] == xs[i].0
  {
    seq(|xs|, i requires 0 <= i < |xs| => xs[i].0)
  }

  /**
   * GROUP BY key with min(value): one entry per distinct key, in order of
   * first occurrence, carrying the least value of its group.
   */
  function GroupMin<K(==,!new)>(xs: seq<(K, int)>): (r: seq<(K, int)>)
    ensures forall k :: HasKey(r, k) <==> HasKey(xs, k)
    ensures forall i, j :: 0 <= i < j < |r| ==> r[i].0 != r[j].0
    ensures forall i :: 0 <= i < |r| ==> HasKey(xs, r[i].0) && r[i].1 == MinFor(xs, r[i].0)
  {
    var ks := Distinct(Keys(xs));
    assert forall k :: k in ks <==> HasKey(xs, k) by {
      forall k ensures k in ks <==> HasKey(xs, k) {
        if HasKey(xs, k) {
          var i :| 0 <= i < |xs| && xs[i].0 == k;
          assert Keys(xs)[i] == k;
        }
      }
    }
    var r := seq(|ks|, i requires 0 <= i < |ks| => (ks[i], MinFor(xs, ks[i])));
    assert forall k :: HasKey(r, k) <==> k in ks by {
      forall k ensures HasKey(r, k) <==> k in ks {
        if k in ks {
          var i :| 0 <= i < |ks| && ks[i] == k;
          assert r[i].0 == k;
        }
      }
    }
    r
  }

  /** Each group of GROUP BY has an entry of its own key and carries that key's minimum. */
  lemma GroupMinMember<K(!new)>(xs: seq<(K, int)>, g: (K, int))
    requires g in GroupMin(xs)
    ensures HasKey(xs, g.0) && g.1 == MinFor(xs, g.0)
  {
    var r := GroupMin(xs);
    var k :| 0 <= k < |r| && r[k] == g;
  }

  lemma GroupMinUnique<K(!new)>(xs: seq<(K, int)>)
    ensures Unique(GroupMin(xs))
  {
    var g := GroupMin(xs);
    assert forall i, j :: 0 <= i < j < |g| ==> g[i].0 != g[j].0;
  }

  /** No element occurs twice. */
  ghost predicate Unique<T>(xs: seq<T>) {
    forall i, j :: 0 <= i < j < |xs| ==> xs[i] != xs[j]
  }

  lemma {:induction false} UniqueCountsOnce<T>(xs: seq<T>, v: T)
    requires Unique(xs)
    ensures multiset(xs)[v] <= 1
  {
    if xs != [] {
      var n := |xs| - 1;
      assert xs == xs[..n] + [xs[n]];
      assert forall i :: 0 <= i < n ==> xs[..n][i] == xs[i];
      UniqueCountsOnce(xs[..n], v);
      if xs[n] == v {
        assert v !in xs[..n];
      }
    }
  }

  /** A sequence without repeats has as many distinct elements as entries. */
  lemma {:induction false} UniqueElems<T>(xs: seq<T>)
    requires Unique(xs)
    ensures |set x | x in xs| == |xs|
  {
    if xs != [] {
      var n := |xs| - 1;
      assert forall i :: 0 <= i < n ==> xs[..n][i] == xs[i];
      UniqueElems(xs[..n]);
      assert xs == xs[..n] + [xs[n]];
      assert (set x | x in xs) == (set x | x in xs[..n]) + {xs[n]};
    }
  }

  lemma SubsetSize<T>(a: set<T>, b: set<T>)
    requires a <= b
    ensures |a| <= |b|
  {
    assert b == a + (b - a);
  }

  lemma RepeatCountsTwice<T>(ys: seq<T>, i: nat, j: nat)
    requires i < j < |ys| && ys[i] == ys[j]
    ensures multiset(ys)[ys[i]] >= 2
  {
    assert ys == ys[..j] + ys[j..];
    assert ys[..j][i] == ys[i];
    assert ys[j..][0] == ys[j];
  }

  /** Reordering or dropping elements cannot make an element occur twice. */
  lemma SubBagKeepsUnique<T>(xs: seq<T>, ys: seq<T>)
    requires multiset(ys) <= multiset(xs) && Unique(xs)
    ensures Unique(ys)
  {
    forall i, j | 0 <= i < j < |ys| ensures ys[i] != ys[j] {
      if ys[i] == ys[j] {
        RepeatCountsTwice(ys, i, j);
        UniqueCountsOnce(xs, ys[i]);
      }
    }
  }

  /** WHERE / HAVING: the elements that satisfy `p`, in order. */
  function Filter<T(!new)>(xs: seq<T>, p: T -> bool): (r: seq<T>)
    ensures |r| <= |xs|
    ensures forall x :: x in r <==> x in xs && p(x)
  {
    if xs == [] then []
    else
      var n := |xs| - 1;
      assert xs == xs[..n] + [xs[n]];
      Filter(xs[..n], p) + (if p(xs[n]) then [xs[n]] else [])
  }

  /** The rows `x` forms with the elements of `ys` that `f` pairs it with, in order. */
  function Pairings<A, B(!new), C(!new)>(x: A, ys: seq<B>, f: (A, B) -> Option<C>): (r: seq<C>)
    ensures forall c :: c in r <==> exists y :: y in ys && f(x, y) == Some(c)
  {
    if ys == [] then []
    else
      var n := |ys| - 1;
      assert ys == ys[..n] + [ys[n]];
      Pairings(x, ys[..n], f) + (match f(x, ys[n]) case Some(c) => [c] case None => [])
  }

  /** Each element of `ys` that `x` pairs with yields one row: as many rows as partners, and each row as often as it is formed. */
  lemma {:induction false} PairingsCount<A, B(!new), C(!new)>(x: A, ys: seq<B>, f: (A, B) -> Option<C>)
    ensures |Pairings(x, ys, f)| == |Filter(ys, y => f(x, y).Some?)|
    ensures forall c :: multiset(Pairings(x, ys, f))[c] == |Filter(ys, y => f(x, y) == Some(c))|
  {
    if ys != [] {
      var n := |ys| - 1;
      PairingsCount(x, ys[..n], f);
      FilterSplit(ys, y => f(x, y).Some?);
      forall c ensures multiset(Pairings(x, ys, f))[c] == |Filter(ys, y => f(x, y) == Some(c))| {
        FilterSplit(ys, y => f(x, y) == Some(c));
      }
    }
  }

  /** WHERE keeps duplicates: an element that qualifies occurs as often as in the input. */
  lemma {:induction false} FilterCount<T(!new)>(xs: seq<T>, p: T -> bool)
    ensures forall x :: multiset(Filter(xs, p))[x] == if p(x) then multiset(xs)[x] else 0
    ensures multiset(Filter(xs, p)) <= multiset(xs)
  {
    if xs != [] {
      var n := |xs| - 1;
      assert xs == xs[..n] + [xs[n]];
      FilterCount(xs[..n], p);
    }
  }

  /** When every element qualifies, WHERE returns the input unchanged. */
  lemma {:induction false} FilterAll<T(!new)>(xs: seq<T>, p: T -> bool)
    requires forall x :: x in xs ==> p(x)
    ensures Filter(xs, p) == xs
  {
    if xs != [] {
      var n := |xs| - 1;
      assert xs == xs[..n] + [xs[n]];
      assert forall x :: x in xs[..n] ==> x in xs;
      FilterAll(xs[..n], p);
    }
  }

  lemma FilterSplit<T(!new)>(xs: seq<T>, p: T -> bool)
    requires xs != []
    ensures |Filter(xs, p)| == |Filter(xs[..|xs| - 1], p)| + if p(xs[|xs| - 1]) then 1 else 0
  {
  }

  /** A nested-loop join: every row `f` forms from a pair of `xs` and `ys`. */
  function JoinBy<A, B(!new), C(!new)>(xs: seq<A>, ys: seq<B>, f: (A, B) -> Option<C>): (r: seq<C>)
    ensures forall c :: c in r <==> exists x, y :: x in xs && y in ys && f(x, y) == Some(c)
  {
    if xs == [] then []
    else
      var n := |xs| - 1;
      assert xs == xs[..n] + [xs[n]];
      JoinBy(xs[..n], ys, f) + Pairings(xs[n], ys, f)
  }

  /** `x` paired with each element of `ys`, in order. */
  function Row<A, B>(x: A, ys: seq<B>): (r: seq<(A, B)>)
    ensures |r| == |ys| && forall j :: 0 <= j < |ys| ==> r[j] == (x, ys[j])
  {
    seq(|ys|, j requires 0 <= j < |ys| => (x, ys[j]))
  }

  /** The cross product: every element of `xs` with every element of `ys`, row by row. */
  function Cross<A, B>(xs: seq<A>, ys: seq<B>): (r: seq<(A, B)>)
    ensures |r| == |xs| * |ys|
  {
    if xs == [] then []
    else
      var n := |xs| - 1;
      Cross(xs[..n], ys) + Row(xs[n], ys)
  }

  lemma {:induction false} FilterAppend<T(!new)>(a: seq<T>, b: seq<T>, p: T -> bool)
    ensures |Filter(a + b, p)| == |Filter(a, p)| + |Filter(b, p)|
  {
    if b == [] {
      assert a + b == a;
    } else {
      var n := |b| - 1;
      assert (a + b)[..|a + b| - 1] == a + b[..n];
      assert (a + b)[|a + b| - 1] == b[n];
      FilterAppend(a, b[..n], p);
      FilterSplit(a + b, p);
      FilterSplit(b, p);
    }
  }

  lemma {:induction false} FilterRow<A(!new), B(!new)>(x: A, ys: seq<B>, p: ((A, B)) -> bool, q: B -> bool)
    requires forall y :: p((x, y)) == q(y)
    ensures |Filter(Row(x, ys), p)| == |Filter(ys, q)|
  {
    if ys != [] {
      var n := |ys| - 1;
      assert Row(x, ys)[..n] == Row(x, ys[..n]);
      FilterRow(x, ys[..n], p, q);
      FilterSplit(Row(x, ys), p);
      FilterSplit(ys, q);
    }
  }

  /**
   * The join keeps duplicates: a row occurs in it as often as it is formed
   * by a pair of the cross product of `xs` and `ys`.
   */
  lemma {:induction false} JoinByCount<A(!new), B(!new), C(!new)>(xs: seq<A>, ys: seq<B>, f: (A, B) -> Option<C>)
    ensures forall c :: multiset(JoinBy(xs, ys, f))[c] == |Filter(Cross(xs, ys), (p: (A, B)) => f(p.0, p.1) == Some(c))|
  {
    if xs != [] {
      var n := |xs| - 1;
      JoinByCount(xs[..n], ys, f);
      PairingsCount(xs[n], ys, f);
      forall c ensures multiset(JoinBy(xs, ys, f))[c] == |Filter(Cross(xs, ys), (p: (A, B)) => f(p.0, p.1) == Some(c))| {
        FilterAppend(Cross(xs[..n], ys), Row(xs[n], ys), (p: (A, B)) => f(p.0, p.1) == Some(c));
        FilterRow(xs[n], ys, (p: (A, B)) => f(p.0, p.1) == Some(c), y => f(xs[n], y) == Some(c));
      }
    }
  }

  /** A predicate that no element satisfies selects nothing. */
  lemma {:induction false} FilterNone<T(!new)>(xs: seq<T>, p: T -> bool)
    requires forall i :: 0 <= i < |xs| ==> !p(xs[i])
    ensures Filter(xs, p) == []
  {
    if xs != [] {
      var n := |xs| - 1;
      assert forall i :: 0 <= i < n ==> xs[..n][i] == xs[i];
      FilterNone(xs[..n], p);
    }
  }

  /** A predicate that holds of at most one position keeps at most one element. */
  lemma {:induction false} FilterAtMostOne<T(!new)>(xs: seq<T>, p: T -> bool)
    requires forall i, j :: 0 <= i < j < |xs| && p(xs[i]) ==> !p(xs[j])
    ensures |Filter(xs, p)| <= 1
  {
    if xs != [] {
      var n := |xs| - 1;
      assert forall i :: 0 <= i < n ==> xs[..n][i] == xs[i];
      FilterAtMostOne(xs[..n], p);
      FilterSplit(xs, p);
      if p(xs[n]) {
        FilterNone(xs[..n], p);
      }
    }
  }

  /**
   * When every element of `xs` has at most one partner in `ys`, the join
   * has one row per element of `xs` that has a partner.
   */
  lemma {:induction false} JoinByOnePartner<A(!new), B(!new), C(!new)>(xs: seq<A>, ys: seq<B>, f: (A, B) -> Option<C>, has: A -> bool)
    requires forall x, i, j :: x in xs && 0 <= i < j < |ys| && f(x, ys[i]).Some? ==> f(x, ys[j]).None?
    requires forall x :: x in xs ==> (has(x) <==> exists y :: y in ys && f(x, y).Some?)
    ensures |JoinBy(xs, ys, f)| == |Filter(xs, has)|
  {
    if xs != [] {
      var n := |xs| - 1;
      assert forall x :: x in xs[..n] ==> x in xs;
      JoinByOnePartner(xs[..n], ys, f, has);
      var x := xs[n];
      assert x in xs;
      OnePartner(x, ys, f);
      assert JoinBy(xs, ys, f) == JoinBy(xs[..n], ys, f) + Pairings(x, ys, f);
      FilterSplit(xs, has);
    }
  }

  /** An element with at most one partner forms one row when it has a partner and none otherwise. */
  lemma OnePartner<A, B(!new), C(!new)>(x: A, ys: seq<B>, f: (A, B) -> Option<C>)
    requires forall i, j :: 0 <= i < j < |ys| && f(x, ys[i]).Some? ==> f(x, ys[j]).None?
    ensures |Pairings(x, ys, f)| == if exists y :: y in ys && f(x, y).Some? then 1 else 0
  {
    PairingsCount(x, ys, f);
    FilterAtMostOne(ys, y => f(x, y).Some?);
    var partners := Filter(ys, y => f(x, y).Some?);
    if |partners| == 1 {
      assert partners[0] in partners;
    } else {
      assert partners == [];
    }
  }

  /** Reordering the result of a GROUP BY keeps one entry per key, with its minimum. */
  lemma ReorderedGroups<K(!new)>(xs: seq<(K, int)>, r: seq<(K, int)>)
    requires multiset(r) == multiset(GroupMin(xs))
    ensures forall i :: 0 <= i < |r| ==> HasKey(xs, r[i].0) && r[i].1 == MinFor(xs, r[i].0)
    ensures forall i, j :: 0 <= i < j < |r| ==> r[i].0 != r[j].0
    ensures forall k :: HasKey(xs, k) ==> exists i :: 0 <= i < |r| && r[i].0 == k
  {
    var g := GroupMin(xs);
    forall i | 0 <= i < |r| ensures HasKey(xs, r[i].0) && r[i].1 == MinFor(xs, r[i].0) {
      assert r[i] in multiset(g);
      var k :| 0 <= k < |g| && g[k] == r[i];
    }
    assert Unique(g);
    SubBagKeepsUnique(g, r);
    forall k | HasKey(xs, k) ensures exists i :: 0 <= i < |r| && r[i].0 == k {
      assert HasKey(g, k);
      var m :| 0 <= m < |g| && g[m].0 == k;
      assert g[m] in multiset(r);
      var i :| 0 <= i < |r| && r[i] == g[m];
    }
  }
}
