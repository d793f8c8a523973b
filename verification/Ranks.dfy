/**
 The two counted ranks behind their per-session memos, and the weight shown next to a best score.
 */
module Ranks {
  import opened Common
  import opened Scores
  import opened Ranking
  import opened WeightedPp
  import opened BestScores

  // ----- Weights shown per score, against the account pp.

  /** The sum over some rows of the weight shown for the row times its pp. */
  ghost function ShownSum(table: set<BestRow>, part: set<BestRow>): real {
    if part == {} then 0.0
    else
      var e :| e in part;
      Shown(table, e) + ShownSum(table, part - {e})
  }

  /** The weight field of a score, times its pp. */
  function Shown(table: set<BestRow>, e: BestRow): real {
    PpWeight(Position(table, e) - 1) * e.pp
  }

  lemma {:induction false} ShownSumSplit(table: set<BestRow>, part: set<BestRow>, e: BestRow)
    requires e in part
    ensures ShownSum(table, part) == Shown(table, e) + ShownSum(table, part - {e})
    decreases |part|
  {
    var c :| c in part && ShownSum(table, part) == Shown(table, c) + ShownSum(table, part - {c});
    if c != e {
      ShownSumSplit(table, part - {c}, e);
      ShownSumSplit(table, part - {e}, c);
      assert part - {c} - {e} == part - {e} - {c};
    }
  }

  /** Listed best first, the rows from the i-th on add up to the discounted weighted sum of the tail. */
  lemma {:induction false} ShownSumOfTail(table: set<BestRow>, s: seq<BestRow>, i: nat)
    requires IsSortedList(table, s) && i <= |s|
    requires forall e | e in table :: e.pp >= 0.0
    ensures ShownSum(table, Elements(s[i..])) == Discounted(i, Weighted(Pps(s)[i..]))
    decreases |s| - i
  {
    if i == |s| {
      assert Elements(s[i..]) == {};
      DiscountNothing(i);
    } else {
      ShownSumOfTail(table, s, i + 1);
      ShownHead(table, s, i);
      DiscountStep(Pps(s), i);
    }
  }

  lemma ShownHead(table: set<BestRow>, s: seq<BestRow>, i: nat)
    requires IsSortedList(table, s) && i < |s|
    requires forall e | e in table :: e.pp >= 0.0
    ensures ShownSum(table, Elements(s[i..])) == WeightedAt(s[i].pp, i) + ShownSum(table, Elements(s[i + 1..]))
  {
    var part := Elements(s[i..]);
    assert s[i] in s && s[i] in s[i..];
    ShownSumSplit(table, part, s[i]);
    assert part - {s[i]} == Elements(s[i + 1..]);
    ShownAtIndex(table, s, i);
  }

  lemma ShownAtIndex(table: set<BestRow>, s: seq<BestRow>, i: nat)
    requires IsSortedList(table, s) && i < |s|
    requires forall e | e in table :: e.pp >= 0.0
    ensures Shown(table, s[i]) == WeightedAt(s[i].pp, i)
  {
    PositionIsIndex(table, s, i);
    assert s[i] in s && s[i] in table;
  }

  lemma {:induction false} WeightedZero(v: seq<real>)
    requires forall i | 0 <= i < |v| :: v[i] >= 0.0
    ensures Weighted(v) == 0.0 <==> forall i | 0 <= i < |v| :: v[i] == 0.0
  {
    if v != [] {
      WeightedZero(v[1..]);
      WeightedNonNegative(v[1..]);
      assert (forall i | 0 <= i < |v| :: v[i] == 0.0) ==> forall i | 0 <= i < |v[1..]| :: v[1..][i] == 0.0;
      if v[0] == 0.0 && forall i | 0 <= i < |v[1..]| :: v[1..][i] == 0.0 {
        assert forall i | 1 <= i < |v| :: v[i] == v[1..][i - 1];
      }
    }
  }

  lemma {:induction false} DiscountedZero(n: nat, x: real)
    requires x >= 0.0
    ensures Discounted(n, x) >= 0.0
    ensures Discounted(n, x) == 0.0 <==> x == 0.0
  {
    if n > 0 {
      DiscountedZero(n - 1, x);
    }
  }

  /** The weights shown with the scores add up to the account pp exactly when everything past the 1000th
      place is worth nothing; otherwise they add up to more. */
  lemma ShownWeightsVersusAccountPp(table: set<BestRow>)
    requires DistinctIds(table) && forall e | e in table :: e.pp >= 0.0
    ensures ShownSum(table, table) >= UserPp(table)
    ensures ShownSum(table, table) == UserPp(table) <==>
      forall e | e in table && Position(table, e) > LIMIT :: e.pp == 0.0
  {
    var s := SortedListExists(table);
    SortedLength(table, s);
    SortedPrefixIsTop(table, s, LIMIT);
    ShownSumOfTail(table, s, 0);
    assert s[0..] == s && Elements(s) == table && Pps(s)[0..] == Pps(s);
    DiscountZero(Weighted(Pps(s)));
    if |s| <= LIMIT {
      UserPpFromTop(table, s);
      forall e | e in table
        ensures Position(table, e) <= LIMIT
      {
        var i := PositionOf(table, s, e);
      }
    } else {
      UserPpFromTop(table, s[..LIMIT]);
      LongList(table, s);
    }
  }

  lemma DiscountZero(x: real)
    ensures Discounted(0, x) == x
  {
  }

  /** A list longer than the limit against its first thousand rows. */
  lemma LongList(table: set<BestRow>, s: seq<BestRow>)
    requires IsSortedList(table, s) && |s| > LIMIT && forall e | e in table :: e.pp >= 0.0
    ensures Weighted(Pps(s)) >= Weighted(Pps(s[..LIMIT]))
    ensures Weighted(Pps(s)) == Weighted(Pps(s[..LIMIT])) <==>
      forall e | e in table && Position(table, e) > LIMIT :: e.pp == 0.0
  {
    assert forall i | 0 <= i < |s| :: s[i] in table;
    TailWeighs(s);
    TailByPosition(table, s, Pps(s)[LIMIT..]);
  }

  /** The account pp of a long list against its full weighted sum. */
  lemma TailWeighs(s: seq<BestRow>)
    requires |s| > LIMIT && forall i | 0 <= i < |s| :: s[i].pp >= 0.0
    ensures Weighted(Pps(s)) >= Weighted(Pps(s[..LIMIT]))
    ensures Weighted(Pps(s)) == Weighted(Pps(s[..LIMIT])) <==>
      forall i | 0 <= i < |Pps(s)[LIMIT..]| :: Pps(s)[LIMIT..][i] == 0.0
  {
    var tail := Pps(s)[LIMIT..];
    assert Pps(s)[..LIMIT] == Pps(s[..LIMIT]);
    WeightedSplit(Pps(s), LIMIT);
    WeightedNonNegative(tail);
    WeightedZero(tail);
    DiscountedZero(LIMIT, Weighted(tail));
  }

  lemma TailByPosition(table: set<BestRow>, s: seq<BestRow>, tail: seq<real>)
    requires IsSortedList(table, s) && |s| > LIMIT && tail == Pps(s)[LIMIT..]
    ensures (forall i | 0 <= i < |tail| :: tail[i] == 0.0) <==>
      forall e | e in table && Position(table, e) > LIMIT :: e.pp == 0.0
  {
    if forall i | 0 <= i < |tail| :: tail[i] == 0.0 {
      forall e | e in table && Position(table, e) > LIMIT
        ensures e.pp == 0.0
      {
        var i := PositionOf(table, s, e);
        assert tail[i - LIMIT] == e.pp;
      }
    } else {
      var i :| 0 <= i < |tail| && tail[i] != 0.0;
      PositionIsIndex(table, s, LIMIT + i);
      assert s[LIMIT + i] in table;
    }
  }

  /** n rows of one account with one pp each. */
  function Flat(n: nat): set<BestRow> {
    if n == 0 then {} else Flat(n - 1) + {Entry(n, 1.0, BestInfo(Account(UserId(1), 0), n, 1.0))}
  }

  lemma {:induction false} FlatRows(n: nat)
    ensures |Flat(n)| == n && DistinctIds(Flat(n)) && forall e | e in Flat(n) :: e.pp == 1.0 && e.id <= n
  {
    if n > 0 {
      FlatRows(n - 1);
    }
  }

  /** A thousand and one equal plays: the weights shown with them promise more than the account has. */
  lemma ShownWeightsPromiseMore()
    ensures ShownSum(Flat(LIMIT + 1), Flat(LIMIT + 1)) > UserPp(Flat(LIMIT + 1))
  {
    var table := Flat(LIMIT + 1);
    FlatRows(LIMIT + 1);
    PositionsAreBijective(table);
    assert Taken(table, LIMIT + 1);
    ShownWeightsVersusAccountPp(table);
  }

  // ----- get_best_id.

  /** The number of a score among its owner's best plays; none for a score without a row. */
  ghost predicate IsBestId(rows: set<BestRow>, scoreId: int, n: Option<nat>) {
    match n
    case None => forall r | r in rows :: r.id != scoreId
    case Some(k) => exists r :: r in rows && r.id == scoreId && k == Position(Own(rows, r.data.account), r)
  }

  /** A request session that reads best_scores and remembers answers. */
  class BestIdSession {
    const rows: set<BestRow>
    var memo: map<int, Option<nat>>

    ghost predicate Valid()
      reads this
    {
      DistinctIds(rows) && forall k | k in memo :: IsBestId(rows, k, memo[k])
    }

    constructor (rows: set<BestRow>)
      requires DistinctIds(rows)
      ensures Valid() && this.rows == rows
    {
      this.rows := rows;
      memo := map[];
    }

    /** The memo never changes an answer. */
    method GetBestId(scoreId: int) returns (n: Option<nat>)
      requires Valid()
      modifies `memo
      ensures Valid() && IsBestId(rows, scoreId, n)
    {
      if scoreId in memo {
        return memo[scoreId];
      }
      var found := set r | r in rows && r.id == scoreId;
      assert forall r | r in rows && r.id == scoreId :: r in found;
      if found == {} {
        n := None;
      } else {
        var row := AnyMember(found);
        var better := set b | b in rows && b.data.account == row.data.account &&
                                (b.pp > row.pp || (b.pp == row.pp && b.id < scoreId));
        assert better == BetterThan(Own(rows, row.data.account), row);
        n := Some(|better| + 1);
      }
      memo := memo[scoreId := n];
    }
  }

  /** There is only one right answer. */
  lemma BestIdUnique(rows: set<BestRow>, scoreId: int, m: Option<nat>, n: Option<nat>)
    requires DistinctIds(rows) && IsBestId(rows, scoreId, m) && IsBestId(rows, scoreId, n)
    ensures m == n
  {
  }

  /** In plain terms: one more than the number of the owner's rows with more pp, or with the same pp and a smaller
      id. */
  lemma BestIdMeaning(rows: set<BestRow>, r: BestRow, n: Option<nat>)
    requires DistinctIds(rows) && r in rows && IsBestId(rows, r.id, n)
    ensures n == Some(1 + |set b | b in rows && b.data.account == r.data.account &&
                                   (b.pp > r.pp || (b.pp == r.pp && b.id < r.id))|)
  {
    assert BetterThan(Own(rows, r.data.account), r) ==
      set b | b in rows && b.data.account == r.data.account && (b.pp > r.pp || (b.pp == r.pp && b.id < r.id));
  }

  // ----- get_rank.

  /** What the ranking asks of a statistics row; pp and the user id are the entry itself. */
  datatype UserInfo =
    UserInfo(mode: int, isRanked: bool, isActive: bool, restricted: bool, lastPlayed: Option<int>, country: int)

  type UserRow = Entry<UserInfo>

  /** The filters shared by both queries. */
  predicate RankEligible(r: UserRow, mode: int, cutoff: int, country: Option<int>) {
    && r.data.mode == mode
    && r.pp > 0.0
    && r.data.isRanked && r.data.isActive && !r.data.restricted
    && r.data.lastPlayed.Some? && r.data.lastPlayed.value >= cutoff
    && (country.Some? ==> r.data.country == country.value)
  }

  function EligibleUsers(rows: set<UserRow>, mode: int, cutoff: int, country: Option<int>): set<UserRow> {
    set r | r in rows && RankEligible(r, mode, cutoff, country)
  }

  /** One statistics row per user and mode. */
  ghost predicate OneRowPerMode(rows: set<UserRow>) {
    forall r, q | r in rows && q in rows && r.id == q.id && r.data.mode == q.data.mode :: r == q
  }

  ghost predicate IsRank(rows: set<UserRow>, cutoff: int, r: UserRow, country: Option<int>, n: Option<nat>) {
    var ranked := EligibleUsers(rows, r.data.mode, cutoff, country);
    n == if r in ranked then Some(Position(ranked, r)) else None
  }

  /** A request session over user statistics; `cutoff` is the start of the activity window. */
  class RankSession {
    const rows: set<UserRow>
    const cutoff: int
    var memo: map<(int, int, Option<int>), Option<nat>>

    ghost predicate Valid()
      reads this
    {
      && OneRowPerMode(rows)
      && forall r, country | r in rows && (r.id, r.data.mode, country) in memo ::
           IsRank(rows, cutoff, r, country, memo[(r.id, r.data.mode, country)])
    }

    constructor (rows: set<UserRow>, cutoff: int)
      requires OneRowPerMode(rows)
      ensures Valid() && this.rows == rows && this.cutoff == cutoff
    {
      this.rows := rows;
      this.cutoff := cutoff;
      memo := map[];
    }

    /** None exactly for a player outside the ranking, otherwise the position among the eligible rows. */
    method GetRank(statistics: UserRow, country: Option<int>) returns (n: Option<nat>)
      requires Valid() && statistics in rows
      modifies `memo
      ensures Valid() && IsRank(rows, cutoff, statistics, country, n)
    {
      var key := (statistics.id, statistics.data.mode, country);
      if key in memo {
        return memo[key];
      }
      var eligible := set r | r in rows && RankEligible(r, statistics.data.mode, cutoff, country);
      assert eligible == EligibleUsers(rows, statistics.data.mode, cutoff, country);
      var entered := set r | r in eligible && r.id == statistics.id;
      assert statistics in eligible ==> statistics in entered;
      if entered == {} {
        n := None;
      } else {
        var mine := AnyMember(entered);
        assert mine == statistics;
        var better := set b | b in eligible &&
                                (b.pp > statistics.pp || (b.pp == statistics.pp && b.id < statistics.id));
        assert better == BetterThan(eligible, statistics);
        n := Some(|better| + 1);
      }
      memo := memo[key := n];
    }
  }

  /** The rank in plain terms: none for a player without pp, unranked, inactive, restricted, long unseen or of another
      country; else one more than the number of such players with more pp, or with the same pp and a smaller id. */
  lemma RankMeaning(rows: set<UserRow>, cutoff: int, r: UserRow, country: Option<int>, n: Option<nat>)
    requires IsRank(rows, cutoff, r, country, n) && r in rows
    ensures
      var ahead := set b |
        && b in rows && b.data.mode == r.data.mode && b.pp > 0.0
        && b.data.isRanked && b.data.isActive && !b.data.restricted
        && b.data.lastPlayed.Some? && b.data.lastPlayed.value >= cutoff
        && (country.Some? ==> b.data.country == country.value)
        && (b.pp > r.pp || (b.pp == r.pp && b.id < r.id));
      n ==
        if r.pp > 0.0 && r.data.isRanked && r.data.isActive && !r.data.restricted && r.data.lastPlayed.Some? &&
           r.data.lastPlayed.value >= cutoff && (country.Some? ==> r.data.country == country.value)
        then Some(|ahead| + 1) else None
  {
    var ranked := EligibleUsers(rows, r.data.mode, cutoff, country);
    assert BetterThan(ranked, r) == set b |
      && b in rows && b.data.mode == r.data.mode && b.pp > 0.0
      && b.data.isRanked && b.data.isActive && !b.data.restricted
      && b.data.lastPlayed.Some? && b.data.lastPlayed.value >= cutoff
      && (country.Some? ==> b.data.country == country.value)
      && (b.pp > r.pp || (b.pp == r.pp && b.id < r.id));
  }

  /** Who is not in the ranking moves nobody's rank. */
  lemma UnrankedMovesNobody(rows: set<UserRow>, cutoff: int, x: UserRow, r: UserRow, country: Option<int>,
                            n: Option<nat>)
    requires r in rows && r != x
    requires x.data.restricted || !x.data.isRanked || !x.data.isActive || x.pp <= 0.0 || x.data.lastPlayed.None? ||
             x.data.lastPlayed.value < cutoff || x.data.mode != r.data.mode
    ensures IsRank(rows, cutoff, r, country, n) <==> IsRank(rows - {x}, cutoff, r, country, n)
  {
    assert EligibleUsers(rows - {x}, r.data.mode, cutoff, country) == EligibleUsers(rows, r.data.mode, cutoff, country);
  }

  /** The ranks handed out in a mode are exactly 1..n, each once. */
  lemma RanksAreBijective(rows: set<UserRow>, mode: int, cutoff: int, country: Option<int>)
    requires OneRowPerMode(rows)
    ensures
      var ranked := EligibleUsers(rows, mode, cutoff, country);
      && (forall n :: Taken(ranked, n) <==> 1 <= n <= |ranked|)
      && (forall e, f | e in ranked && f in ranked && Position(ranked, e) == Position(ranked, f) :: e == f)
  {
    PositionsAreBijective(EligibleUsers(rows, mode, cutoff, country));
  }
}
