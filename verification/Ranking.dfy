/**
 Ranks by counting.

 A rank is "how many are strictly better, plus one", under pp descending with the id as tie-break.  It
 is the position in the fully sorted list, and a bijection onto 1..n.  Used for a score's number among
 its owner's best plays (app/database/score.py, get_best_id) and for a player's place in the ranking
 (app/database/statistics.py, get_rank).
 */
module Ranking {
  import opened Common

  /** A table row as far as ranking sees it; the rest of the row is `data`. */
  datatype Entry<+T> = Entry(id: int, pp: real, data: T)

  predicate Better<T>(a: Entry<T>, b: Entry<T>) {
    a.pp > b.pp || (a.pp == b.pp && a.id < b.id)
  }

  ghost predicate DistinctIds<T(!new)>(table: set<Entry<T>>) {
    forall a, b | a in table && b in table && a.id == b.id :: a == b
  }

  function BetterThan<T(==)>(table: set<Entry<T>>, e: Entry<T>): set<Entry<T>> {
    set b | b in table && Better(b, e)
  }

  function Position<T(==)>(table: set<Entry<T>>, e: Entry<T>): nat {
    |BetterThan(table, e)| + 1
  }

  /** s lists the whole table, best first. */
  ghost predicate IsSortedList<T(!new)>(table: set<Entry<T>>, s: seq<Entry<T>>) {
    && (forall e :: e in s <==> e in table)
    && (forall i, j | 0 <= i < j < |s| :: Better(s[i], s[j]))
  }

  lemma {:induction false} BestExists<T(!new)>(table: set<Entry<T>>) returns (b: Entry<T>)
    requires table != {} && DistinctIds(table)
    ensures b in table && forall x | x in table && x != b :: Better(b, x)
  {
    var c :| c in table;
    if table == {c} {
      b := c;
    } else {
      var d := BestExists(table - {c});
      b := if Better(c, d) then c else d;
      assert forall x | x in table && x != c :: x in table - {c};
    }
  }

  lemma {:induction false} SortedListExists<T(!new)>(table: set<Entry<T>>) returns (s: seq<Entry<T>>)
    requires DistinctIds(table)
    ensures IsSortedList(table, s)
  {
    if table == {} {
      s := [];
    } else {
      var b := BestExists(table);
      var rest := SortedListExists(table - {b});
      s := [b] + rest;
    }
  }

  /** Counting the better ones gives the position in the sorted list. */
  lemma PositionIsIndex<T(!new)>(table: set<Entry<T>>, s: seq<Entry<T>>, i: nat)
    requires IsSortedList(table, s) && i < |s|
    ensures Position(table, s[i]) == i + 1
  {
    var ahead := s[..i];
    DistinctCount(ahead);
    forall e
      ensures e in BetterThan(table, s[i]) <==> e in ahead
    {
      if e in BetterThan(table, s[i]) {
        var j :| 0 <= j < |s| && s[j] == e;
        assert j < i && ahead[j] == e;
      }
    }
    assert BetterThan(table, s[i]) == Elements(ahead);
  }

  lemma SortedLength<T(!new)>(table: set<Entry<T>>, s: seq<Entry<T>>)
    requires IsSortedList(table, s)
    ensures |s| == |table|
  {
    DistinctCount(s);
    assert table == Elements(s);
  }

  ghost predicate Taken<T(!new)>(table: set<Entry<T>>, n: int) {
    exists e :: e in table && Position(table, e) == n
  }

  lemma PositionOf<T(!new)>(table: set<Entry<T>>, s: seq<Entry<T>>, e: Entry<T>) returns (i: nat)
    requires IsSortedList(table, s) && e in table
    ensures i < |s| && s[i] == e && Position(table, e) == i + 1
  {
    assert e in s;
    i :| 0 <= i < |s| && s[i] == e;
    PositionIsIndex(table, s, i);
  }

  /** The positions are exactly 1..n, each taken once. */
  lemma PositionsAreBijective<T(!new)>(table: set<Entry<T>>)
    requires DistinctIds(table)
    ensures forall e, f | e in table && f in table && Position(table, e) == Position(table, f) :: e == f
    ensures forall n :: Taken(table, n) <==> 1 <= n <= |table|
  {
    var s := SortedListExists(table);
    SortedLength(table, s);
    forall e, f | e in table && f in table && Position(table, e) == Position(table, f)
      ensures e == f
    {
      var i := PositionOf(table, s, e);
      var j := PositionOf(table, s, f);
    }
    forall n
      ensures Taken(table, n) <==> 1 <= n <= |table|
    {
      if 1 <= n <= |table| {
        PositionIsIndex(table, s, n - 1);
        assert s[n - 1] in table;
      } else if Taken(table, n) {
        var e :| e in table && Position(table, e) == n;
        var i := PositionOf(table, s, e);
      }
    }
  }
}
