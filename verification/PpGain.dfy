/**
 How one new best score moves the account pp (app/database/score.py, _process_score_pp and the
 account_pp_delta block of _process_statistics).

 A new row x enters the table, possibly in place of a weaker row of the same map.  The weighted total
 never falls, and rises by at most the weight of x's own position times its pp, cut at 1000 or not.
 */
module PpGain {
  import opened Common
  import opened Ranking
  import opened WeightedPp

  /** x joins the table, and `out` (empty, or one weaker row) leaves. */
  ghost predicate Joins<T(!new)>(table: set<Entry<T>>, out: set<Entry<T>>, x: Entry<T>) {
    x !in table && out <= table && |out| <= 1 && forall y | y in out :: y.pp < x.pp
  }

  lemma AtLeastJoined<T(!new)>(table: set<Entry<T>>, x: Entry<T>, v: real)
    requires x !in table
    ensures |AtLeast(table + {x}, v)| == |AtLeast(table, v)| + (if x.pp >= v then 1 else 0)
  {
    assert AtLeast(table + {x}, v) == if x.pp >= v then AtLeast(table, v) + {x} else AtLeast(table, v);
  }

  lemma AtLeastShrinks<T(!new)>(table: set<Entry<T>>, u: real, v: real)
    requires u <= v
    ensures |AtLeast(table, v)| <= |AtLeast(table, u)|
  {
    SubsetCount(AtLeast(table, v), AtLeast(table, u));
  }

  /** The table after the exchange has at least as many rows above any threshold. */
  lemma ExchangeDominates<T(!new)>(table: set<Entry<T>>, out: set<Entry<T>>, x: Entry<T>, v: real)
    requires Joins(table, out, x)
    ensures |AtLeast(table, v)| <= |AtLeast(table - out + {x}, v)|
  {
    var kept := table - out;
    AtLeastJoined(kept, x, v);
    if out == {} {
      assert kept == table;
    } else {
      var y :| y in out;
      SubsetCount({y}, out);
      assert |out - {y}| == 0;
      assert out == {y};
      AtLeastJoined(kept, y, v);
      assert kept + {y} == table;
    }
  }

  lemma ExchangeSize<T(!new)>(table: set<Entry<T>>, out: set<Entry<T>>, x: Entry<T>)
    requires Joins(table, out, x)
    ensures |table| <= |table - out + {x}|
  {
  }

  /** Values after x's place do not exceed x. */
  lemma InsertedBelow<T(!new)>(table: set<Entry<T>>, x: Entry<T>, t: seq<Entry<T>>, limit: nat, i: nat)
    requires x !in table && IsTop(table + {x}, t, limit) && |AtLeast(table, x.pp)| <= i < |t|
    ensures t[i].pp <= x.pp
  {
    var v := t[i].pp;
    TopValueByCount(table + {x}, t, limit, i, v);
    AtLeastJoined(table, x, v);
    if x.pp < v {
      AtLeastShrinks(table, x.pp, v);
    }
  }

  lemma InsertedAbove<T(!new)>(table: set<Entry<T>>, s: seq<Entry<T>>, x: Entry<T>, t: seq<Entry<T>>, limit: nat,
                               i: nat)
    requires x !in table && IsTop(table, s, limit) && IsTop(table + {x}, t, limit)
    requires i < |t| && i < |AtLeast(table, x.pp)|
    ensures i < |s| && t[i].pp <= s[i].pp
  {
    var v := t[i].pp;
    SubsetCount(AtLeast(table, x.pp), table);
    assert |table + {x}| == |table| + 1;
    TopValueByCount(table + {x}, t, limit, i, v);
    AtLeastJoined(table, x, v);
    if v <= x.pp {
      AtLeastShrinks(table, v, x.pp);
    }
    TopValueByCount(table, s, limit, i, v);
  }

  lemma InsertedAfter<T(!new)>(table: set<Entry<T>>, s: seq<Entry<T>>, x: Entry<T>, t: seq<Entry<T>>, limit: nat,
                               i: nat)
    requires x !in table && IsTop(table, s, limit) && IsTop(table + {x}, t, limit)
    requires |AtLeast(table, x.pp)| < i < |t|
    ensures i - 1 < |s| && t[i].pp <= s[i - 1].pp
  {
    var v := t[i].pp;
    InsertedCount(table, x, t, limit, i);
    SubsetCount(AtLeast(table, v), table);
    assert i <= |table| && i <= limit;
    assert i - 1 < |s|;
    TopValueByCount(table, s, limit, i - 1, v);
  }

  lemma InsertedCount<T(!new)>(table: set<Entry<T>>, x: Entry<T>, t: seq<Entry<T>>, limit: nat, i: nat)
    requires x !in table && IsTop(table + {x}, t, limit) && i < |t|
    ensures |AtLeast(table, t[i].pp)| >= i && i < limit
  {
    TopValueByCount(table + {x}, t, limit, i, t[i].pp);
    AtLeastJoined(table, x, t[i].pp);
  }

  /** w is v with x inserted at place k, seen through pointwise bounds. */
  ghost predicate ShiftedAt(v: seq<real>, w: seq<real>, k: nat, x: real, i: nat)
    requires i < |w|
  {
    && (i < k ==> i < |v| && w[i] <= v[i])
    && (i == k ==> w[i] <= x)
    && (i > k ==> i - 1 < |v| && w[i] <= v[i - 1])
  }

  lemma ShiftedParts(v: seq<real>, w: seq<real>, k: nat, x: real)
    requires k < |w| && forall i: nat | i < |w| :: ShiftedAt(v, w, k, x, i)
    ensures k <= |v|
    ensures Weighted(w[..k]) <= Weighted(v[..k])
    ensures Weighted(w[k + 1..]) <= Weighted(v[k..])
    ensures Counted(w[k]) <= Counted(x)
  {
    var tail := w[k + 1..];
    assert ShiftedAt(v, w, k, x, k);
    assert k == 0 || ShiftedAt(v, w, k, x, k - 1);
    assert k == |w| - 1 || ShiftedAt(v, w, k, x, |w| - 1);
    forall i | 0 <= i < k
      ensures w[..k][i] <= v[..k][i]
    {
      assert ShiftedAt(v, w, k, x, i);
    }
    WeightedMonotone(v[..k], w[..k]);
    forall i | 0 <= i < |tail|
      ensures tail[i] <= v[k..][i]
    {
      assert ShiftedAt(v, w, k, x, k + 1 + i);
    }
    WeightedMonotone(v[k..], tail);
  }

  lemma InsertionPastEnd(v: seq<real>, w: seq<real>, k: nat, x: real)
    requires |w| <= k && forall i: nat | i < |w| :: ShiftedAt(v, w, k, x, i)
    ensures Weighted(w) <= Weighted(v)
  {
    assert |w| == 0 || ShiftedAt(v, w, k, x, |w| - 1);
    forall i | 0 <= i < |w|
      ensures i < |v| && w[i] <= v[i]
    {
      assert ShiftedAt(v, w, k, x, i);
    }
    WeightedMonotone(v, w);
  }

  lemma TailBound(w: seq<real>, k: nat, x: real, rest: real)
    requires k < |w| && Counted(w[k]) <= x && Weighted(w[k + 1..]) <= rest
    ensures Weighted(w[k..]) <= x + rest
  {
    WeightedNonNegative(w[k + 1..]);
    assert w[k..][1..] == w[k + 1..] && w[k..][0] == w[k];
  }

  lemma CombineParts(v: seq<real>, w: seq<real>, k: nat, x: real)
    requires k <= |w| && k <= |v|
    requires Weighted(w[..k]) <= Weighted(v[..k])
    requires Weighted(w[k..]) <= x + Weighted(v[k..])
    ensures Weighted(w) <= Weighted(v) + Discounted(k, x)
  {
    WeightedSplit(w, k);
    WeightedSplit(v, k);
    CombineTails(k, x, Weighted(w[k..]), Weighted(v[k..]));
  }

  lemma CombineTails(k: nat, x: real, w: real, v: real)
    requires w <= x + v
    ensures Discounted(k, w) <= Discounted(k, x) + Discounted(k, v)
  {
  }

  /** Such an insertion adds at most x at the weight of its place. */
  lemma InsertionBound(v: seq<real>, w: seq<real>, k: nat, x: real)
    requires forall i: nat | i < |w| :: ShiftedAt(v, w, k, x, i)
    ensures Weighted(w) <= Weighted(v) + Discounted(k, Counted(x))
  {
    if k < |w| {
      ShiftedParts(v, w, k, x);
      TailBound(w, k, Counted(x), Weighted(v[k..]));
      CombineParts(v, w, k, Counted(x));
    } else {
      InsertionPastEnd(v, w, k, x);
      DiscountedDecreases(k, k, Counted(x));
    }
  }

  /** The values of the enlarged table are the old ones with x inserted after the rows that tie or beat it. */
  lemma InsertionShifts<T(!new)>(table: set<Entry<T>>, s: seq<Entry<T>>, x: Entry<T>, t: seq<Entry<T>>, limit: nat,
                                 i: nat)
    requires x !in table && IsTop(table, s, limit) && IsTop(table + {x}, t, limit) && i < |t|
    ensures ShiftedAt(Pps(s), Pps(t), |AtLeast(table, x.pp)|, x.pp, i)
  {
    var k := |AtLeast(table, x.pp)|;
    var v, w := Pps(s), Pps(t);
    assert w[i] == t[i].pp && forall j | 0 <= j < |s| :: v[j] == s[j].pp;
    if i < k {
      InsertedAbove(table, s, x, t, limit, i);
    } else if i == k {
      InsertedBelow(table, x, t, limit, i);
    } else {
      InsertedAfter(table, s, x, t, limit, i);
    }
  }

  lemma InsertionGainLists<T(!new)>(table: set<Entry<T>>, s: seq<Entry<T>>, x: Entry<T>, t: seq<Entry<T>>, limit: nat)
    requires x !in table && IsTop(table, s, limit) && IsTop(table + {x}, t, limit)
    ensures Weighted(Pps(t)) <= Weighted(Pps(s)) + Discounted(|AtLeast(table, x.pp)|, Counted(x.pp))
  {
    forall i: nat | i < |t| {
      InsertionShifts(table, s, x, t, limit, i);
    }
    InsertionBound(Pps(s), Pps(t), |AtLeast(table, x.pp)|, x.pp);
  }

  lemma InsertionGain<T(!new)>(table: set<Entry<T>>, x: Entry<T>)
    requires x !in table
    ensures UserPp(table + {x}) <= UserPp(table) + Discounted(|AtLeast(table, x.pp)|, Counted(x.pp))
  {
    var s := TopExists(table, LIMIT);
    var t := TopExists(table + {x}, LIMIT);
    UserPpFromTop(table, s);
    UserPpFromTop(table + {x}, t);
    InsertionGainLists(table, s, x, t, LIMIT);
  }

  lemma DroppingLowers<T(!new)>(table: set<Entry<T>>, out: set<Entry<T>>)
    requires out <= table
    ensures UserPp(table - out) <= UserPp(table)
  {
    var s := TopExists(table - out, LIMIT);
    var t := TopExists(table, LIMIT);
    UserPpFromTop(table - out, s);
    UserPpFromTop(table, t);
    SubsetCount(table - out, table);
    forall v
      ensures |AtLeast(table - out, v)| <= |AtLeast(table, v)|
    {
      SubsetCount(AtLeast(table - out, v), AtLeast(table, v));
    }
    CountingDominates(table - out, s, table, t, LIMIT);
  }

  lemma ExchangeRaises<T(!new)>(table: set<Entry<T>>, out: set<Entry<T>>, x: Entry<T>)
    requires Joins(table, out, x)
    ensures UserPp(table) <= UserPp(table - out + {x})
  {
    var after := table - out + {x};
    var s := TopExists(table, LIMIT);
    var t := TopExists(after, LIMIT);
    UserPpFromTop(table, s);
    UserPpFromTop(after, t);
    forall v
      ensures |AtLeast(table, v)| <= |AtLeast(after, v)|
    {
      ExchangeDominates(table, out, x, v);
    }
    ExchangeSize(table, out, x);
    CountingDominates(table, s, after, t, LIMIT);
  }

  /** The weight of x's own position is at least the weight of the place after all rows tied with it. */
  lemma PositionWeight<T(!new)>(kept: set<Entry<T>>, x: Entry<T>)
    requires x !in kept
    ensures Discounted(|AtLeast(kept, x.pp)|, Counted(x.pp)) <= WeightedAt(x.pp, Position(kept + {x}, x) - 1)
  {
    SubsetCount(BetterThan(kept + {x}, x), AtLeast(kept, x.pp));
    DiscountedDecreases(Position(kept + {x}, x) - 1, |AtLeast(kept, x.pp)|, Counted(x.pp));
    WeightedAtIsDiscounted(x.pp, Position(kept + {x}, x) - 1);
  }

  /** The gain of a new best: never negative, at most its own weighted pp at its new position. */
  lemma NewBestGain<T(!new)>(table: set<Entry<T>>, out: set<Entry<T>>, x: Entry<T>)
    requires Joins(table, out, x)
    ensures
      var after := table - out + {x};
      0.0 <= UserPp(after) - UserPp(table) <= WeightedAt(x.pp, Position(after, x) - 1)
  {
    var kept := table - out;
    ExchangeRaises(table, out, x);
    DroppingLowers(table, out);
    InsertionGain(kept, x);
    PositionWeight(kept, x);
  }
}
