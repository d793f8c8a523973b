/**
 Two tables of best scores, one with a row at least as good for every map of the other: how do their account
 pp compare?  Never less; and the same exactly if every better or additional row is beyond place 1000.
 */
module Covering {
  import opened Common
  import opened WeightedPp
  import opened BestScores

  /** For every row of x, y has a row of the same map with at least the same pp. */
  ghost predicate Covers(y: set<BestRow>, x: set<BestRow>) {
    forall r | r in x :: exists q :: q in y && KeyOf(q) == KeyOf(r) && r.pp <= q.pp
  }

  ghost predicate OneRowPerMap(x: set<BestRow>) {
    forall r, q | r in x && q in x && KeyOf(r) == KeyOf(q) :: r == q
  }

  function KeysOf(x: set<BestRow>): set<MapKey> {
    set r | r in x :: KeyOf(r)
  }

  lemma {:induction false} AsManyKeys(x: set<BestRow>)
    requires OneRowPerMap(x)
    ensures |KeysOf(x)| == |x|
  {
    if x != {} {
      var r :| r in x;
      AsManyKeys(x - {r});
      assert KeysOf(x) == KeysOf(x - {r}) + {KeyOf(r)};
    }
  }

  lemma FewerKeys(x: set<BestRow>, y: set<BestRow>)
    requires OneRowPerMap(x) && OneRowPerMap(y) && KeysOf(x) <= KeysOf(y)
    ensures |x| <= |y|
  {
    AsManyKeys(x);
    AsManyKeys(y);
    SubsetCount(KeysOf(x), KeysOf(y));
  }

  lemma CoveredCount(x: set<BestRow>, y: set<BestRow>, v: real)
    requires Covers(y, x) && OneRowPerMap(x) && OneRowPerMap(y)
    ensures |AtLeast(x, v)| <= |AtLeast(y, v)|
  {
    forall k | k in KeysOf(AtLeast(x, v))
      ensures k in KeysOf(AtLeast(y, v))
    {
      var r :| r in AtLeast(x, v) && KeyOf(r) == k;
      var q :| q in y && KeyOf(q) == KeyOf(r) && r.pp <= q.pp;
      assert q in AtLeast(y, v);
    }
    FewerKeys(AtLeast(x, v), AtLeast(y, v));
  }

  lemma CoveredSize(x: set<BestRow>, y: set<BestRow>)
    requires Covers(y, x) && OneRowPerMap(x) && OneRowPerMap(y)
    ensures |x| <= |y|
  {
    forall k | k in KeysOf(x)
      ensures k in KeysOf(y)
    {
      var r :| r in x && KeyOf(r) == k;
    }
    FewerKeys(x, y);
  }

  lemma CoveredTops(x: set<BestRow>, s: seq<BestRow>, y: set<BestRow>, t: seq<BestRow>)
    requires Covers(y, x) && OneRowPerMap(x) && OneRowPerMap(y) && IsTop(x, s, LIMIT) && IsTop(y, t, LIMIT)
    ensures |s| <= |t| && (forall i | 0 <= i < |s| :: s[i].pp <= t[i].pp)
    ensures Weighted(Pps(s)) <= Weighted(Pps(t))
  {
    forall v
      ensures |AtLeast(x, v)| <= |AtLeast(y, v)|
    {
      CoveredCount(x, y, v);
    }
    CoveredSize(x, y);
    CountingDominates(x, s, y, t, LIMIT);
  }

  /** A table that covers another one is worth at least as much account pp. */
  lemma CoveringRaises(x: set<BestRow>, y: set<BestRow>)
    requires Covers(y, x) && OneRowPerMap(x) && OneRowPerMap(y)
    ensures UserPp(x) <= UserPp(y)
  {
    var s := TopExists(x, LIMIT);
    var t := TopExists(y, LIMIT);
    UserPpFromTop(x, s);
    UserPpFromTop(y, t);
    CoveredTops(x, s, y, t);
  }

  // ----- When is it worth the same?

  /** The table has a row of the same map and pp. */
  ghost predicate HasEqual(x: set<BestRow>, q: BestRow) {
    exists r :: r in x && KeyOf(r) == KeyOf(q) && r.pp == q.pp
  }

  /** A row that changes nothing: the table has one like it, or a thousand at least as good. */
  ghost predicate AddsNothing(x: set<BestRow>, q: BestRow) {
    HasEqual(x, q) || |AtLeast(x, q.pp)| >= LIMIT
  }

  lemma MeetCount(x: set<BestRow>, y: set<BestRow>, v: real)
    requires OneRowPerMap(x) && OneRowPerMap(y) && (forall q | q in y :: AddsNothing(x, q))
    requires |AtLeast(x, v)| < LIMIT
    ensures |AtLeast(y, v)| <= |AtLeast(x, v)|
  {
    forall k | k in KeysOf(AtLeast(y, v))
      ensures k in KeysOf(AtLeast(x, v))
    {
      var q :| q in AtLeast(y, v) && KeyOf(q) == k;
      SubsetCount(AtLeast(x, q.pp), AtLeast(x, v));
      var r :| r in x && KeyOf(r) == KeyOf(q) && r.pp == q.pp;
      assert r in AtLeast(x, v);
    }
    FewerKeys(AtLeast(y, v), AtLeast(x, v));
  }

  lemma NoneHigher(x: set<BestRow>, s: seq<BestRow>, y: set<BestRow>, t: seq<BestRow>, i: nat)
    requires OneRowPerMap(x) && OneRowPerMap(y) && (forall q | q in y :: AddsNothing(x, q))
    requires IsTop(x, s, LIMIT) && IsTop(y, t, LIMIT) && i < |t|
    ensures i < |s| && t[i].pp <= s[i].pp
  {
    var v := t[i].pp;
    TopValueByCount(y, t, LIMIT, i, v);
    if |AtLeast(x, v)| < LIMIT {
      MeetCount(x, y, v);
    }
    assert |AtLeast(x, v)| > i;
    SubsetCount(AtLeast(x, v), x);
    TopValueByCount(x, s, LIMIT, i, v);
  }

  lemma NothingAdded(x: set<BestRow>, y: set<BestRow>)
    requires OneRowPerMap(x) && OneRowPerMap(y) && (forall q | q in y :: AddsNothing(x, q))
    ensures UserPp(y) <= UserPp(x)
  {
    var s := TopExists(x, LIMIT);
    var t := TopExists(y, LIMIT);
    UserPpFromTop(x, s);
    UserPpFromTop(y, t);
    LowerTops(x, s, y, t);
  }

  lemma LowerTops(x: set<BestRow>, s: seq<BestRow>, y: set<BestRow>, t: seq<BestRow>)
    requires OneRowPerMap(x) && OneRowPerMap(y) && (forall q | q in y :: AddsNothing(x, q))
    requires IsTop(x, s, LIMIT) && IsTop(y, t, LIMIT)
    ensures Weighted(Pps(t)) <= Weighted(Pps(s))
  {
    forall i: nat | i < |t|
      ensures i < |s| && Pps(t)[i] <= Pps(s)[i]
    {
      NoneHigher(x, s, y, t, i);
    }
    if t != [] {
      NoneHigher(x, s, y, t, |t| - 1);
    }
    WeightedMonotone(Pps(s), Pps(t));
  }

  lemma GainCount(x: set<BestRow>, y: set<BestRow>, q: BestRow)
    requires Covers(y, x) && OneRowPerMap(x) && OneRowPerMap(y) && q in y && !HasEqual(x, q)
    ensures |AtLeast(x, q.pp)| < |AtLeast(y, q.pp)|
  {
    var low, high := AtLeast(x, q.pp), AtLeast(y, q.pp) - {q};
    forall k | k in KeysOf(low)
      ensures k in KeysOf(high)
    {
      var r :| r in low && KeyOf(r) == k;
      var o :| o in y && KeyOf(o) == KeyOf(r) && r.pp <= o.pp;
      assert o in high;
    }
    FewerKeys(low, high);
  }

  lemma GainShows(x: set<BestRow>, s: seq<BestRow>, y: set<BestRow>, t: seq<BestRow>, q: BestRow, n: nat)
    requires IsTop(x, s, LIMIT) && IsTop(y, t, LIMIT) && n == |AtLeast(x, q.pp)| < LIMIT
    requires n < |AtLeast(y, q.pp)|
    ensures n < |t| && q.pp <= t[n].pp && (n < |s| ==> s[n].pp < q.pp)
  {
    SubsetCount(AtLeast(y, q.pp), y);
    TopValueByCount(y, t, LIMIT, n, q.pp);
    if n < |s| {
      TopValueByCount(x, s, LIMIT, n, q.pp);
    }
  }

  lemma GainRaises(x: set<BestRow>, y: set<BestRow>, q: BestRow)
    requires Covers(y, x) && OneRowPerMap(x) && OneRowPerMap(y) && q in y && q.pp > 0.0 && !AddsNothing(x, q)
    ensures UserPp(x) < UserPp(y)
  {
    var s := TopExists(x, LIMIT);
    var t := TopExists(y, LIMIT);
    UserPpFromTop(x, s);
    UserPpFromTop(y, t);
    CoveredTops(x, s, y, t);
    GainCount(x, y, q);
    GainShows(x, s, y, t, q, |AtLeast(x, q.pp)|);
    HigherTops(s, t, |AtLeast(x, q.pp)|);
  }

  lemma HigherTops(s: seq<BestRow>, t: seq<BestRow>, n: nat)
    requires |s| <= |t| && (forall i | 0 <= i < |s| :: s[i].pp <= t[i].pp)
    requires n < |t| && 0.0 < t[n].pp && (n < |s| ==> s[n].pp < t[n].pp)
    ensures Weighted(Pps(s)) < Weighted(Pps(t))
  {
    WeightedStrict(Pps(t), Pps(s), n);
  }

  /** A covering table of positive rows is worth the same account pp if and only if each of its rows is matched
      or has a thousand rows at least as good before it. */
  lemma CoveringExact(x: set<BestRow>, y: set<BestRow>)
    requires Covers(y, x) && OneRowPerMap(x) && OneRowPerMap(y) && (forall q | q in y :: q.pp > 0.0)
    ensures UserPp(x) == UserPp(y) <==> forall q | q in y :: AddsNothing(x, q)
  {
    CoveringRaises(x, y);
    if forall q | q in y :: AddsNothing(x, q) {
      NothingAdded(x, y);
    } else {
      var q :| q in y && !AddsNothing(x, q);
      GainRaises(x, y, q);
    }
  }
}
