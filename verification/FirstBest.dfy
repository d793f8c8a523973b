/**
 "The first best row of every key", the shape of both table rebuilds (tools/recalculate.py,
 build_best_scores and build_total_score_best_scores) and of the live table of best scores: a dictionary
 filled in reading order, with strict-greater replacement.  The rebuilds read in the order of a query
 without ORDER BY.

 What does the order decide?  Never the keys nor the values; the rows themselves exactly when two plays
 share a key and its best value.
 */
module FirstBest {
  import opened Common

  /** Which plays count, the row a play gives, and the key and the value of a row. */
  datatype Rule<!P, !K, !R> = Rule(counts: P -> bool, row: P -> R, key: R -> K, value: R -> real)

  predicate SameKeys<P, K(==), R>(t: Rule<P, K, R>, p: P, q: P) {
    t.key(t.row(p)) == t.key(t.row(q))
  }

  function Worth<P, K, R>(t: Rule<P, K, R>, p: P): real {
    t.value(t.row(p))
  }

  /** h[i] is the first play with the best value of its key. */
  ghost predicate IsWinner<P(!new), K(!new), R(!new)>(t: Rule<P, K, R>, h: seq<P>, i: nat)
    requires i < |h|
  {
    && t.counts(h[i])
    && forall j | 0 <= j < |h| && t.counts(h[j]) && SameKeys(t, h[j], h[i]) ::
         Worth(t, h[j]) < Worth(t, h[i]) || (Worth(t, h[j]) == Worth(t, h[i]) && i <= j)
  }

  /** The table: the row of the first best play of every key. */
  ghost function Winners<P(!new), K(!new), R(!new)>(t: Rule<P, K, R>, h: seq<P>): set<R> {
    set i | 0 <= i < |h| && IsWinner(t, h, i) :: t.row(h[i])
  }

  /** The play a row of the table comes from. */
  lemma WinningPlay<P(!new), K(!new), R(!new)>(t: Rule<P, K, R>, h: seq<P>, r: R) returns (i: nat)
    requires r in Winners(t, h)
    ensures i < |h| && IsWinner(t, h, i) && t.row(h[i]) == r
  {
    i :| 0 <= i < |h| && IsWinner(t, h, i) && t.row(h[i]) == r;
  }

  /** Every play that counts is dominated by the winner of its key. */
  lemma {:induction false} WinnerExists<P(!new), K(!new), R(!new)>(t: Rule<P, K, R>, h: seq<P>, k: nat)
    returns (i: nat)
    requires k < |h| && t.counts(h[k])
    ensures i < |h| && IsWinner(t, h, i) && SameKeys(t, h[i], h[k]) && Worth(t, h[k]) <= Worth(t, h[i])
    decreases |h|
  {
    var n := |h| - 1;
    var d := h[..n];
    assert forall j | 0 <= j < n :: d[j] == h[j];
    if k == n && forall l | 0 <= l < n :: !(t.counts(d[l]) && SameKeys(t, d[l], h[n])) {
      i := n;
    } else {
      var l := k;
      if k == n {
        l :| 0 <= l < n && t.counts(d[l]) && SameKeys(t, d[l], h[n]);
      }
      i := WinnerExists(t, d, l);
      if t.counts(h[n]) && SameKeys(t, h[n], d[i]) && Worth(t, h[n]) > Worth(t, d[i]) {
        i := n;
      }
    }
  }

  lemma WinnerUnique<P(!new), K(!new), R(!new)>(t: Rule<P, K, R>, h: seq<P>, i: nat, j: nat)
    requires i < |h| && j < |h| && IsWinner(t, h, i) && IsWinner(t, h, j) && SameKeys(t, h[i], h[j])
    ensures i == j
  {
  }

  /** A key has one row. */
  lemma RowUnique<P(!new), K(!new), R(!new)>(t: Rule<P, K, R>, h: seq<P>, r: R, q: R)
    requires r in Winners(t, h) && q in Winners(t, h) && t.key(r) == t.key(q)
    ensures r == q
  {
    var i := WinningPlay(t, h, r);
    var j := WinningPlay(t, h, q);
    WinnerUnique(t, h, i, j);
  }

  // ----- One more play.

  /** The row of the key of p, if there is one. */
  ghost predicate Holds<P(!new), K(!new), R(!new)>(t: Rule<P, K, R>, rows: set<R>, p: P, held: Option<R>) {
    match held
    case Some(r) => r in rows && t.key(r) == t.key(t.row(p))
    case None => forall r | r in rows :: t.key(r) != t.key(t.row(p))
  }

  /** Strict-greater replacement. */
  function Replaced<P, K, R(==)>(t: Rule<P, K, R>, rows: set<R>, p: P, held: Option<R>): set<R> {
    if !t.counts(p) then rows
    else if held.None? then rows + {t.row(p)}
    else if Worth(t, p) > t.value(held.value) then rows - {held.value} + {t.row(p)}
    else rows
  }

  /** An earlier winner stays one unless the new play beats it. */
  lemma StaysWinner<P(!new), K(!new), R(!new)>(t: Rule<P, K, R>, h: seq<P>, p: P, i: nat)
    requires i < |h|
    ensures IsWinner(t, h + [p], i) <==>
      IsWinner(t, h, i) && !(t.counts(p) && SameKeys(t, p, h[i]) && Worth(t, p) > Worth(t, h[i]))
  {
    var g := h + [p];
    assert forall j | 0 <= j < |h| :: g[j] == h[j];
    assert g[|h|] == p;
    if IsWinner(t, g, i) {
      forall j | 0 <= j < |h| && t.counts(h[j]) && SameKeys(t, h[j], h[i])
        ensures Worth(t, h[j]) < Worth(t, h[i]) || (Worth(t, h[j]) == Worth(t, h[i]) && i <= j)
      {
        assert g[j] == h[j];
      }
    }
  }

  lemma NewestWins<P(!new), K(!new), R(!new)>(t: Rule<P, K, R>, h: seq<P>, p: P, held: Option<R>)
    requires Holds(t, Winners(t, h), p, held) && t.counts(p)
    ensures IsWinner(t, h + [p], |h|) <==> held.None? || Worth(t, p) > t.value(held.value)
  {
    var g := h + [p];
    assert forall j | 0 <= j < |h| :: g[j] == h[j];
    forall j | 0 <= j < |h| && t.counts(h[j]) && SameKeys(t, h[j], p)
      ensures held.Some? && Worth(t, h[j]) <= t.value(held.value)
    {
      var i := WinnerExists(t, h, j);
      assert t.row(h[i]) in Winners(t, h);
      RowUnique(t, h, t.row(h[i]), held.value);
    }
    if held.Some? {
      var i := WinningPlay(t, h, held.value);
      assert t.counts(g[i]) && SameKeys(t, g[i], p);
    }
  }

  lemma WinnersAfter<P(!new), K(!new), R(!new)>(t: Rule<P, K, R>, h: seq<P>, p: P, r: R)
    ensures r in Winners(t, h + [p]) <==>
      || (r in Winners(t, h) && !(t.counts(p) && t.key(r) == t.key(t.row(p)) && Worth(t, p) > t.value(r)))
      || (r == t.row(p) && IsWinner(t, h + [p], |h|))
  {
    var g := h + [p];
    assert forall j | 0 <= j < |h| :: g[j] == h[j];
    if r in Winners(t, h) {
      var i := WinningPlay(t, h, r);
      StaysWinner(t, h, p, i);
    }
    if r in Winners(t, g) {
      var i := WinningPlay(t, g, r);
      if i < |h| {
        StaysWinner(t, h, p, i);
      }
    }
  }

  /** One more play only changes the row of its key, and only if it is strictly better. */
  lemma WinnersStep<P(!new), K(!new), R(!new)>(t: Rule<P, K, R>, h: seq<P>, p: P, held: Option<R>)
    requires Holds(t, Winners(t, h), p, held)
    ensures Winners(t, h + [p]) == Replaced(t, Winners(t, h), p, held)
  {
    if t.counts(p) {
      NewestWins(t, h, p, held);
    }
    forall r
      ensures r in Winners(t, h + [p]) <==> r in Replaced(t, Winners(t, h), p, held)
    {
      WinnersAfter(t, h, p, r);
      if held.Some? && r in Winners(t, h) && t.key(r) == t.key(t.row(p)) {
        RowUnique(t, h, r, held.value);
      }
    }
  }

  // ----- Any reading order.

  /** p counts and no play of its key is better. */
  ghost predicate IsBest<P(!new), K(!new), R(!new)>(t: Rule<P, K, R>, h: seq<P>, p: P) {
    p in h && t.counts(p) && forall q | q in h && t.counts(q) && SameKeys(t, q, p) :: Worth(t, q) <= Worth(t, p)
  }

  /** No two plays share a key and its best value. */
  ghost predicate NoSharedBest<P(!new), K(!new), R(!new)>(t: Rule<P, K, R>, h: seq<P>) {
    forall p, q | IsBest(t, h, p) && IsBest(t, h, q) && SameKeys(t, p, q) :: p == q
  }

  lemma WinnerIsBest<P(!new), K(!new), R(!new)>(t: Rule<P, K, R>, h: seq<P>, i: nat)
    requires i < |h| && IsWinner(t, h, i)
    ensures IsBest(t, h, h[i])
  {
  }

  /** Whatever the order, every key has a winner of the same value. */
  lemma SameValues<P(!new), K(!new), R(!new)>(t: Rule<P, K, R>, h: seq<P>, g: seq<P>, i: nat) returns (j: nat)
    requires SameMembers(h, g) && i < |h| && IsWinner(t, h, i)
    ensures j < |g| && IsWinner(t, g, j) && SameKeys(t, g[j], h[i]) && Worth(t, g[j]) == Worth(t, h[i])
  {
    assert h[i] in g;
    var k :| 0 <= k < |g| && g[k] == h[i];
    j := WinnerExists(t, g, k);
    WinnerIsBest(t, h, i);
    assert g[j] in h;
  }

  /** Without a shared best the order decides nothing. */
  lemma BestsDecide<P(!new), K(!new), R(!new)>(t: Rule<P, K, R>, h: seq<P>, g: seq<P>)
    requires SameMembers(h, g) && NoSharedBest(t, h)
    ensures Winners(t, h) <= Winners(t, g)
  {
    forall r | r in Winners(t, h)
      ensures r in Winners(t, g)
    {
      var i := WinningPlay(t, h, r);
      var j := SameValues(t, h, g, i);
      WinnerIsBest(t, h, i);
      WinnerIsBest(t, g, j);
      assert IsBest(t, h, g[j]);
    }
  }

  lemma OrderFree<P(!new), K(!new), R(!new)>(t: Rule<P, K, R>, h: seq<P>, g: seq<P>)
    requires SameMembers(h, g) && NoSharedBest(t, h)
    ensures Winners(t, h) == Winners(t, g)
  {
    BestsDecide(t, h, g);
    assert forall p :: IsBest(t, g, p) <==> IsBest(t, h, p);
    BestsDecide(t, g, h);
  }

  /** Every play has a row of its own. */
  ghost predicate OwnRows<P(!new), K(!new), R(!new)>(t: Rule<P, K, R>, h: seq<P>) {
    forall p, q | p in h && q in h && t.row(p) == t.row(q) :: p == q
  }

  /** p is read first. */
  lemma ReadFirst<P(!new)>(h: seq<P>, p: P) returns (g: seq<P>)
    requires p in h
    ensures multiset(g) == multiset(h) && g != [] && g[0] == p
  {
    var i :| 0 <= i < |h| && h[i] == p;
    g := [p] + (h[..i] + h[i + 1..]);
    assert h == h[..i] + [p] + h[i + 1..];
  }

  /** Where a best play is read first, the row of another one of its key is missing. */
  lemma FirstWins<P(!new), K(!new), R(!new)>(t: Rule<P, K, R>, g: seq<P>, p: P, q: P)
    requires g != [] && g[0] == p && IsBest(t, g, p) && q in g && SameKeys(t, p, q) && p != q && OwnRows(t, g)
    ensures t.row(p) in Winners(t, g) && t.row(q) !in Winners(t, g)
  {
    assert IsWinner(t, g, 0);
    if t.row(q) in Winners(t, g) {
      var j := WinningPlay(t, g, t.row(q));
      assert g[j] in g && g[j] == q;
      WinnerUnique(t, g, 0, j);
    }
  }

  /** Of two orders that start with different best plays of a key, one changes the table. */
  lemma OrderMatters<P(!new), K(!new), R(!new)>(t: Rule<P, K, R>, h: seq<P>, p: P, q: P) returns (g: seq<P>)
    requires IsBest(t, h, p) && IsBest(t, h, q) && SameKeys(t, p, q) && p != q && OwnRows(t, h)
    ensures multiset(g) == multiset(h) && Winners(t, g) != Winners(t, h)
  {
    var x := ReadFirst(h, p);
    var y := ReadFirst(h, q);
    Reordered(h, x);
    Reordered(h, y);
    FirstWins(t, x, p, q);
    FirstWins(t, y, q, p);
    g := if Winners(t, x) == Winners(t, h) then y else x;
  }

  /** Every order gives the very same rows if and only if no two plays share a key and its best value. */
  lemma OrderExact<P(!new), K(!new), R(!new)>(t: Rule<P, K, R>, h: seq<P>)
    requires OwnRows(t, h)
    ensures NoSharedBest(t, h) <==> forall g | multiset(g) == multiset(h) :: Winners(t, g) == Winners(t, h)
  {
    if NoSharedBest(t, h) {
      forall g | multiset(g) == multiset(h)
        ensures Winners(t, g) == Winners(t, h)
      {
        Reordered(h, g);
        OrderFree(t, h, g);
      }
    } else {
      var p, q :| IsBest(t, h, p) && IsBest(t, h, q) && SameKeys(t, p, q) && p != q;
      var g := OrderMatters(t, h, p, q);
      assert multiset(g) == multiset(h);
    }
  }
}
