/**
 Account pp: the geometric weighted sum over the first thousand rows (app/calculator.py,
 app/database/score.py calculate_user_pp).

 The query has no tie-break, so any list of a thousand best rows may come back.  All of them carry the
 same pp values, because the i-th value is decided by counting.
 */
module WeightedPp {
  import opened Common
  import opened Sums
  import opened Ranking

  function PpWeight(index: nat): real {
    if index == 0 then 1.0 else 0.95 * PpWeight(index - 1)
  }

  function Counted(pp: real): real {
    if pp > 0.0 then pp else 0.0
  }

  /** The weighted pp of the row at a position. */
  function WeightedAt(pp: real, index: nat): real {
    if pp > 0.0 then PpWeight(index) * pp else 0.0
  }

  /** x after n discounts of five percent. */
  function Discounted(n: nat, x: real): real {
    if n == 0 then x else 0.95 * Discounted(n - 1, x)
  }

  lemma {:induction false} DiscountedIsScaled(n: nat, x: real)
    ensures Discounted(n, x) == PpWeight(n) * x
  {
    if n > 0 {
      DiscountedIsScaled(n - 1, x);
      assert PpWeight(n) * x == 0.95 * (PpWeight(n - 1) * x);
    }
  }

  lemma WeightedAtIsDiscounted(pp: real, n: nat)
    ensures WeightedAt(pp, n) == Discounted(n, Counted(pp))
  {
  }

  lemma {:induction false} DiscountedSum(n: nat, x: real, y: real)
    ensures Discounted(n, x + y) == Discounted(n, x) + Discounted(n, y)
  {
    if n > 0 {
      DiscountedSum(n - 1, x, y);
    }
  }

  lemma {:induction false} DiscountedMonotone(n: nat, x: real, y: real)
    requires x <= y
    ensures Discounted(n, x) <= Discounted(n, y)
  {
    if n > 0 {
      DiscountedMonotone(n - 1, x, y);
    }
  }

  lemma {:induction false} DiscountedDecreases(j: nat, k: nat, x: real)
    requires j <= k && 0.0 <= x
    ensures 0.0 <= Discounted(k, x) <= Discounted(j, x)
  {
    if j < k {
      DiscountedDecreases(j, k - 1, x);
    } else if 0 < k {
      DiscountedDecreases(k - 1, k - 1, x);
    }
  }

  /** The weighted sum of a list of values. */
  function Weighted(v: seq<real>): real {
    if v == [] then 0.0 else Counted(v[0]) + 0.95 * Weighted(v[1..])
  }

  function Pps<T>(s: seq<Entry<T>>): seq<real> {
    seq(|s|, i requires 0 <= i < |s| => s[i].pp)
  }

  lemma {:induction false} PpWeightBounds(n: nat)
    ensures 0.0 < PpWeight(n) <= 1.0
  {
    if n > 0 {
      PpWeightBounds(n - 1);
    }
  }

  lemma {:induction false} WeightedNonNegative(v: seq<real>)
    ensures 0.0 <= Weighted(v)
  {
    if v != [] {
      WeightedNonNegative(v[1..]);
    }
  }

  /** A list cut anywhere: the tail is discounted by the weight of the cut. */
  lemma {:induction false} WeightedSplit(v: seq<real>, k: nat)
    requires k <= |v|
    ensures Weighted(v) == Weighted(v[..k]) + Discounted(k, Weighted(v[k..]))
  {
    if k == 0 {
      assert v[0..] == v;
    } else {
      WeightedSplit(v[1..], k - 1);
      assert v[..k][1..] == v[1..][..k - 1] && v[1..][k - 1..] == v[k..];
    }
  }

  lemma {:induction false} PowerIsWeight(n: nat)
    ensures Power(0.95, n) == PpWeight(n)
  {
    if n > 0 {
      PowerIsWeight(n - 1);
    }
  }

  /** A row at a position is worth 0.95 to the power of the rows before it, times its pp. */
  lemma WeightedAtIsPower(pp: real, n: nat)
    ensures WeightedAt(pp, n) == if pp > 0.0 then Power(0.95, n) * pp else 0.0
  {
    PowerIsWeight(n);
  }

  /** The weighted sum, term by term. */
  lemma {:induction false} WeightedIsTotal(v: seq<real>, terms: seq<real>)
    requires |terms| == |v| && forall i | 0 <= i < |v| :: terms[i] == Power(0.95, i) * Counted(v[i])
    ensures Weighted(v) == Total(terms)
  {
    if v != [] {
      var n := |v| - 1;
      WeightedIsTotal(v[..n], terms[..n]);
      WeightedSplit(v, n);
      assert v[n..] == [v[n]] && Weighted([v[n]]) == Counted(v[n]);
      DiscountedIsScaled(n, Counted(v[n]));
      PowerIsWeight(n);
    }
  }

  /** A longer list that is at least as large everywhere weighs at least as much. */
  lemma {:induction false} WeightedMonotone(x: seq<real>, y: seq<real>)
    requires |y| <= |x|
    requires forall i | 0 <= i < |y| :: y[i] <= x[i]
    ensures Weighted(y) <= Weighted(x)
  {
    if y == [] {
      WeightedNonNegative(x);
    } else {
      WeightedMonotone(x[1..], y[1..]);
    }
  }

  /** Strictly more, if it is larger somewhere, or longer, at a positive value. */
  lemma {:induction false} WeightedStrict(x: seq<real>, y: seq<real>, k: nat)
    requires |y| <= |x| && k < |x| && 0.0 < x[k] && (k < |y| ==> y[k] < x[k])
    requires forall i | 0 <= i < |y| :: y[i] <= x[i]
    ensures Weighted(y) < Weighted(x)
  {
    if k > 0 {
      WeightedStrict(x[1..], if y == [] then [] else y[1..], k - 1);
    } else if y == [] {
      WeightedNonNegative(x[1..]);
    } else {
      WeightedMonotone(x[1..], y[1..]);
    }
  }

  /** Weights alone sum to 20 (1 - 0.95^n); values in a range weigh that range times as much. */
  lemma {:induction false} WeightedBetween(v: seq<real>, lo: real, hi: real)
    requires 0.0 <= lo
    requires forall i | 0 <= i < |v| :: lo <= v[i] <= hi
    ensures lo * (20.0 * (1.0 - PpWeight(|v|))) <= Weighted(v)
    ensures v != [] ==> Weighted(v) <= hi * (20.0 * (1.0 - PpWeight(|v|)))
  {
    if v != [] {
      WeightedBetween(v[1..], lo, hi);
      var w := PpWeight(|v| - 1);
      assert 20.0 * (1.0 - PpWeight(|v|)) == 1.0 + 0.95 * (20.0 * (1.0 - w));
      if |v| > 1 {
        assert hi * (1.0 + 0.95 * (20.0 * (1.0 - w))) == hi + 0.95 * (hi * (20.0 * (1.0 - w)));
      }
      assert lo * (1.0 + 0.95 * (20.0 * (1.0 - w))) == lo + 0.95 * (lo * (20.0 * (1.0 - w)));
    }
  }

  // ----- The query.

  /** s is what "order by pp descending limit n" may return. */
  ghost predicate IsTop<T(!new)>(table: set<Entry<T>>, s: seq<Entry<T>>, limit: nat) {
    && (forall i, j | 0 <= i < j < |s| :: s[i] != s[j] && s[i].pp >= s[j].pp)
    && (forall e | e in s :: e in table)
    && |s| == (if |table| < limit then |table| else limit)
    && (forall e, x | e in table && e !in s && x in s :: e.pp <= x.pp)
  }

  function AtLeast<T(==)>(table: set<Entry<T>>, v: real): set<Entry<T>> {
    set e | e in table && e.pp >= v
  }

  /** The i-th value is at least v exactly when more than i rows are. */
  lemma TopValueByCount<T(!new)>(table: set<Entry<T>>, s: seq<Entry<T>>, limit: nat, i: nat, v: real)
    requires IsTop(table, s, limit) && i < |s|
    ensures s[i].pp >= v <==> |AtLeast(table, v)| >= i + 1
  {
    if s[i].pp >= v {
      var head := s[..i + 1];
      DistinctCount(head);
      SubsetCount(Elements(head), AtLeast(table, v));
    } else {
      var head := s[..i];
      DistinctCount(head);
      forall e | e in AtLeast(table, v)
        ensures e in head
      {
        assert s[i] in s;
        var j :| 0 <= j < |s| && s[j] == e;
        assert head[j] == e;
      }
      SubsetCount(AtLeast(table, v), Elements(head));
    }
  }

  /** More rows above every threshold means at least as much account pp, cut or not. */
  lemma CountingDominates<T(!new)>(table: set<Entry<T>>, s: seq<Entry<T>>, larger: set<Entry<T>>, t: seq<Entry<T>>,
                                   limit: nat)
    requires IsTop(table, s, limit) && IsTop(larger, t, limit)
    requires |table| <= |larger|
    requires forall v :: |AtLeast(table, v)| <= |AtLeast(larger, v)|
    ensures |s| <= |t| && (forall i | 0 <= i < |s| :: s[i].pp <= t[i].pp)
    ensures Weighted(Pps(s)) <= Weighted(Pps(t))
  {
    forall i | 0 <= i < |s|
      ensures s[i].pp <= t[i].pp
    {
      TopValueByCount(table, s, limit, i, s[i].pp);
      TopValueByCount(larger, t, limit, i, s[i].pp);
      assert |AtLeast(table, s[i].pp)| <= |AtLeast(larger, s[i].pp)|;
    }
    WeightedMonotone(Pps(t), Pps(s));
  }

  /** Whatever order tied rows come in, the values and hence the weighted sum are the same. */
  lemma TopValuesUnique<T(!new)>(table: set<Entry<T>>, s: seq<Entry<T>>, t: seq<Entry<T>>, limit: nat)
    requires IsTop(table, s, limit) && IsTop(table, t, limit)
    ensures Pps(s) == Pps(t)
  {
    CountingDominates(table, s, table, t, limit);
    CountingDominates(table, t, table, s, limit);
  }

  lemma SortedPrefixIsTop<T(!new)>(table: set<Entry<T>>, s: seq<Entry<T>>, limit: nat)
    requires IsSortedList(table, s)
    ensures IsTop(table, if limit < |s| then s[..limit] else s, limit)
  {
    SortedLength(table, s);
    if limit < |s| {
      var head := s[..limit];
      forall e, x | e in table && e !in head && x in head
        ensures e.pp <= x.pp
      {
        assert e in s;
        var j :| 0 <= j < |s| && s[j] == e;
        var k :| 0 <= k < |head| && head[k] == x;
        assert forall i | 0 <= i < limit :: head[i] == s[i];
      }
    }
  }

  lemma {:induction false} MaximumExists<T(!new)>(table: set<Entry<T>>)
    requires table != {}
    ensures exists b :: b in table && forall x | x in table :: x.pp <= b.pp
  {
    var c :| c in table;
    if table == {c} {
      assert c in table && forall x | x in table :: x.pp <= c.pp;
    } else {
      MaximumExists(table - {c});
      var d :| d in table - {c} && forall x | x in table - {c} :: x.pp <= d.pp;
      var b := if c.pp > d.pp then c else d;
      assert forall x | x in table :: x == c || x in table - {c};
      assert b in table && forall x | x in table :: x.pp <= b.pp;
    }
  }

  lemma {:induction false} TopExists<T(!new)>(table: set<Entry<T>>, limit: nat) returns (s: seq<Entry<T>>)
    ensures IsTop(table, s, limit)
    decreases limit
  {
    if table == {} || limit == 0 {
      s := [];
    } else {
      MaximumExists(table);
      var b :| b in table && forall x | x in table :: x.pp <= b.pp;
      var rest := TopExists(table - {b}, limit - 1);
      assert |table - {b}| == |table| - 1;
      s := [b] + rest;
    }
  }

  const LIMIT: nat := 1000

  /** The account pp of a table of best scores. */
  ghost function UserPp<T(!new)>(table: set<Entry<T>>): real {
    TopExistsSomewhere(table);
    var s :| IsTop(table, s, LIMIT);
    Weighted(Pps(s))
  }

  lemma TopExistsSomewhere<T(!new)>(table: set<Entry<T>>)
    ensures exists s :: IsTop(table, s, LIMIT)
  {
    var s := TopExists(table, LIMIT);
  }

  /** Any result of the query gives it. */
  lemma UserPpFromTop<T(!new)>(table: set<Entry<T>>, s: seq<Entry<T>>)
    requires IsTop(table, s, LIMIT)
    ensures UserPp(table) == Weighted(Pps(s))
  {
    var t :| IsTop(table, t, LIMIT) && UserPp(table) == Weighted(Pps(t));
    TopValuesUnique(table, s, t, LIMIT);
  }
}
