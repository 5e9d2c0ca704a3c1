/**
 * INSERT ... ON CONFLICT DO NOTHING, one offered row after another: a row
 * that collides with a row already in the table, under any of its unique
 * constraints, is skipped; every other row is appended.
 */
module Conflicts {

  /** `o` collides with some row of `table`. */
  predicate CollidesWithAny<T(==)>(table: seq<T>, o: T, conflict: (T, T) -> bool)
  {
    exists x :: x in table && conflict(x, o)
  }

  function InsertIgnore<T(==)>(table: seq<T>, offered: seq<T>, conflict: (T, T) -> bool): (r: seq<T>)
    ensures |table| <= |r| && r[..|table|] == table
    ensures forall k :: |table| <= k < |r| ==> r[k] in offered
    ensures forall x :: x in r ==> x in table || x in offered
    decreases |offered|
  {
    if offered == [] then table
    else
      var next := if CollidesWithAny(table, offered[0], conflict) then table else table + [offered[0]];
      var r := InsertIgnore(next, offered[1..], conflict);
      assert r[..|table|] == next[..|table|];
      assert forall x :: x in offered[1..] ==> x in offered;
      assert forall k :: |table| <= k < |next| ==> r[k] == next[k] == offered[0];
      assert forall x :: x in r ==> x in table || x in offered by {
        forall x | x in r ensures x in table || x in offered {
          var k :| 0 <= k < |r| && r[k] == x;
          if k < |table| { assert r[..|table|][k] == x; }
        }
      }
      r
  }

  ghost predicate Symmetric<T(!new)>(conflict: (T, T) -> bool)
  {
    forall a, b :: conflict(a, b) == conflict(b, a)
  }

  /** No two rows of the table, at different places, collide. */
  ghost predicate Consistent<T>(table: seq<T>, conflict: (T, T) -> bool)
  {
    forall i, j :: 0 <= i < |table| && 0 <= j < |table| && i != j ==> !conflict(table[i], table[j])
  }

  /** The unique constraints hold after the insert as they held before. */
  lemma {:induction false} InsertIgnoreConsistent<T(!new)>(table: seq<T>, offered: seq<T>, conflict: (T, T) -> bool)
    requires Symmetric(conflict) && Consistent(table, conflict)
    ensures Consistent(InsertIgnore(table, offered, conflict), conflict)
    decreases |offered|
  {
    if offered != [] {
      var o := offered[0];
      if !CollidesWithAny(table, o, conflict) {
        var next := table + [o];
        forall i, j | 0 <= i < |next| && 0 <= j < |next| && i != j
          ensures !conflict(next[i], next[j])
        {
          if j == |table| {
            assert next[i] in table;
          } else if i == |table| {
            assert next[j] in table;
            assert conflict(next[j], next[i]) == conflict(next[i], next[j]);
          }
        }
        InsertIgnoreConsistent(next, offered[1..], conflict);
      } else {
        InsertIgnoreConsistent(table, offered[1..], conflict);
      }
    }
  }

  /** A row is only ever skipped because it collides with a row the table ends up holding. */
  lemma {:induction false} InsertIgnoreMaximal<T>(table: seq<T>, offered: seq<T>, conflict: (T, T) -> bool)
    ensures var r := InsertIgnore(table, offered, conflict);
      forall o :: o in offered ==> o in r || CollidesWithAny(r, o, conflict)
    decreases |offered|
  {
    if offered != [] {
      var o := offered[0];
      var next := if CollidesWithAny(table, o, conflict) then table else table + [o];
      var r := InsertIgnore(next, offered[1..], conflict);
      InsertIgnoreMaximal(next, offered[1..], conflict);
      assert r == InsertIgnore(table, offered, conflict);
      assert forall x :: x in next ==> x in r by {
        assert r[..|next|] == next;
        forall x | x in next ensures x in r {
          var k :| 0 <= k < |next| && next[k] == x;
          assert r[k] == x;
        }
      }
      forall p | p in offered ensures p in r || CollidesWithAny(r, p, conflict) {
        if p != o {
          assert p in offered[1..];
        } else if CollidesWithAny(table, o, conflict) {
          var x :| x in table && conflict(x, o);
          assert x in r;
        } else {
          assert o in next;
        }
      }
    }
  }

  /**
   * First wins: an offered row that collides with nothing in the table and
   * with no row offered before it is inserted.
   */
  lemma {:induction false} InsertIgnoreFirstWins<T>(table: seq<T>, offered: seq<T>, conflict: (T, T) -> bool, i: nat)
    requires i < |offered|
    requires !CollidesWithAny(table, offered[i], conflict)
    requires forall j :: 0 <= j < i ==> !conflict(offered[j], offered[i])
    ensures offered[i] in InsertIgnore(table, offered, conflict)
    decreases |offered|
  {
    var o := offered[0];
    var next := if CollidesWithAny(table, o, conflict) then table else table + [o];
    var r := InsertIgnore(next, offered[1..], conflict);
    assert r == InsertIgnore(table, offered, conflict);
    if i == 0 {
      assert r[..|next|] == next;
      assert r[|table|] == o;
    } else {
      assert !CollidesWithAny(next, offered[i], conflict);
      assert offered[1..][i - 1] == offered[i];
      InsertIgnoreFirstWins(next, offered[1..], conflict, i - 1);
    }
  }

  /** When nothing collides, every offered row goes in, in order. */
  lemma {:induction false} InsertIgnoreNoCollision<T>(table: seq<T>, offered: seq<T>, conflict: (T, T) -> bool)
    requires Consistent(table + offered, conflict)
    ensures InsertIgnore(table, offered, conflict) == table + offered
    decreases |offered|
  {
    if offered != [] {
      var all := table + offered;
      var o := offered[0];
      assert !CollidesWithAny(table, o, conflict) by {
        forall x | x in table ensures !conflict(x, o) {
          var k :| 0 <= k < |table| && table[k] == x;
          assert all[k] == x && all[|table|] == o;
        }
      }
      assert table + [o] + offered[1..] == all;
      InsertIgnoreNoCollision(table + [o], offered[1..], conflict);
    }
  }
}
