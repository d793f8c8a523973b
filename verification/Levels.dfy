/**
 The score-to-level curve of app/calculator.py.

 Going from level k to level k + 1 costs `Requirement(k)` points; the loop spends the score level by
 level.  The specification side is the prefix sum `Cumulative` and the inverse curve `LevelToScore`.
 */
module Levels {

  /** A table that can be walked: nonempty, and every level costs something. */
  ghost predicate IsCostTable(s: seq<int>) {
    s != [] && forall i :: 0 <= i < |s| ==> 0 < s[i]
  }

  type CostTable = s: seq<int> | IsCostTable(s) witness [1]

  // The server's table, in rows of ten.
  const COSTS_0: seq<int> := [30000, 100000, 210000, 360000, 550000, 780000, 1050000, 1360000, 1710000, 2100000]
  const COSTS_1: seq<int> := [2530000, 3000000, 3510000, 4060000, 4650000, 5280000, 5950000, 6660000, 7410000, 8200000]
  const COSTS_2: seq<int> := [9030000, 9900000, 10810000, 11760000, 12750000,
                              13780000, 14850000, 15960000, 17110000, 18300000]
  const COSTS_3: seq<int> := [19530000, 20800000, 22110000, 23460000, 24850000,
                              26280000, 27750000, 29260000, 30810000, 32400000]
  const COSTS_4: seq<int> := [34030000, 35700000, 37410000, 39160000, 40950000,
                              42780000, 44650000, 46560000, 48510000, 50500000]
  const COSTS_5: seq<int> := [52530000, 54600000, 56710000, 58860000, 61050000,
                              63280000, 65550000, 67860000, 70210001, 72600001]
  const COSTS_6: seq<int> := [75030002, 77500003, 80010006, 82560010, 85150019,
                              87780034, 90450061, 93160110, 95910198, 98700357]
  const COSTS_7: seq<int> := [101530643, 104401157, 107312082, 110263748, 113256747,
                              116292144, 119371859, 122499346, 125680824, 128927482]
  const COSTS_8: seq<int> := [132259468, 135713043, 139353477, 143298259, 147758866,
                              153115959, 160054726, 169808506, 184597311, 208417160]
  const COSTS_9: seq<int> := [248460887, 317675597, 439366075, 655480935, 1041527682,
                              1733419828, 2975801691, 5209033044, 9225761479, 99999999999]
  const COSTS_10: seq<int> := [99999999999, 99999999999, 99999999999, 99999999999, 99999999999,
                               99999999999, 99999999999, 99999999999, 99999999999, 99999999999]
  const COSTS_11: seq<int> := [99999999999, 99999999999, 99999999999, 99999999999, 99999999999]

  const TO_NEXT_LEVEL: seq<int> :=
    COSTS_0 + COSTS_1 + COSTS_2 + COSTS_3 + COSTS_4 + COSTS_5 +
    COSTS_6 + COSTS_7 + COSTS_8 + COSTS_9 + COSTS_10 + COSTS_11

  /** The first n entries of s are all at least b. */
  predicate AtLeast(s: seq<int>, n: nat, b: int)
    requires n <= |s|
  {
    n == 0 || (b <= s[n - 1] && AtLeast(s, n - 1, b))
  }

  lemma {:induction false} AtLeastAt(s: seq<int>, n: nat, b: int, i: nat)
    requires i < n <= |s| && AtLeast(s, n, b)
    ensures b <= s[i]
  {
    if i < n - 1 {
      AtLeastAt(s, n - 1, b, i);
    }
  }

  lemma RowAtLeast(s: seq<int>, b: int)
    requires AtLeast(s, |s|, b)
    ensures forall i :: 0 <= i < |s| ==> b <= s[i]
  {
    forall i | 0 <= i < |s|
      ensures b <= s[i]
    {
      AtLeastAt(s, |s|, b, i);
    }
  }

  lemma TableIsPositive()
    ensures IsCostTable(TO_NEXT_LEVEL)
  {
    assert AtLeast(COSTS_0, 10, 30000);
    RowAtLeast(COSTS_0, 30000);
    assert AtLeast(COSTS_1, 10, 30000);
    RowAtLeast(COSTS_1, 30000);
    assert AtLeast(COSTS_2, 10, 30000);
    RowAtLeast(COSTS_2, 30000);
    assert AtLeast(COSTS_3, 10, 30000);
    RowAtLeast(COSTS_3, 30000);
    assert AtLeast(COSTS_4, 10, 30000);
    RowAtLeast(COSTS_4, 30000);
    assert AtLeast(COSTS_5, 10, 30000);
    RowAtLeast(COSTS_5, 30000);
    assert AtLeast(COSTS_6, 10, 30000);
    RowAtLeast(COSTS_6, 30000);
    assert AtLeast(COSTS_7, 10, 30000);
    RowAtLeast(COSTS_7, 30000);
    assert AtLeast(COSTS_8, 10, 30000);
    RowAtLeast(COSTS_8, 30000);
    assert AtLeast(COSTS_9, 10, 30000);
    RowAtLeast(COSTS_9, 30000);
    assert AtLeast(COSTS_10, 10, 30000);
    RowAtLeast(COSTS_10, 30000);
    assert AtLeast(COSTS_11, 5, 30000);
    RowAtLeast(COSTS_11, 30000);
  }

  /** Points needed to go from level k to level k + 1; the last entry of the table repeats forever. */
  function Requirement(costs: CostTable, k: nat): (r: int)
    ensures 0 < r
  {
    var last := |costs| - 1;
    costs[if k < last then k else last]
  }

  /** Points needed to complete the first k levels. */
  function Cumulative(costs: CostTable, k: nat): int {
    if k == 0 then 0 else Cumulative(costs, k - 1) + Requirement(costs, k - 1)
  }

  lemma {:induction false} CumulativeGrows(costs: CostTable, j: nat, k: nat)
    requires j < k
    ensures 0 <= Cumulative(costs, j) && Cumulative(costs, j) + Requirement(costs, j) <= Cumulative(costs, k)
    decreases k
  {
    if j < k - 1 {
      CumulativeGrows(costs, j, k - 1);
    } else if 0 < j {
      CumulativeGrows(costs, j - 1, j);
    }
  }

  /** The level k is complete with s points and the next one is not. */
  ghost predicate Completed(costs: CostTable, s: int, k: nat) {
    Cumulative(costs, k) <= s < Cumulative(costs, k + 1)
  }

  lemma CompletedUnique(costs: CostTable, s: int, j: nat, k: nat)
    requires Completed(costs, s, j) && Completed(costs, s, k)
    ensures j == k
  {
    if j < k {
      CumulativeGrows(costs, j, k);
    } else if k < j {
      CumulativeGrows(costs, k, j);
    }
  }

  /** The number of levels completed with s points, searched from level k on. */
  ghost function CompletedFrom(costs: CostTable, s: int, k: nat): (n: nat)
    requires Cumulative(costs, k) <= s
    ensures Completed(costs, s, n)
    decreases s - Cumulative(costs, k)
  {
    if s < Cumulative(costs, k + 1) then k else CompletedFrom(costs, s, k + 1)
  }

  /** What the curve means: whole levels, plus the paid fraction of the next one, counted from 1. */
  ghost function LevelOf(costs: CostTable, s: int): real {
    if s <= 0 then 1.0 else LevelAt(costs, s, CompletedFrom(costs, s, 0))
  }

  ghost function LevelAt(costs: CostTable, s: int, k: nat): real {
    1.0 + k as real + (s - Cumulative(costs, k)) as real / Requirement(costs, k) as real
  }

  /** Any k that brackets s gives the level: the closed form of the curve. */
  lemma LevelClosedForm(costs: CostTable, s: int, k: nat)
    requires Completed(costs, s, k)
    ensures LevelOf(costs, s) == LevelAt(costs, s, k)
    ensures 0 <= s && 1.0 + k as real <= LevelOf(costs, s) < 2.0 + k as real
  {
    if 0 < k {
      CumulativeGrows(costs, 0, k);
    }
    CompletedUnique(costs, s, CompletedFrom(costs, s, 0), k);
    FractionBelowOne((s - Cumulative(costs, k)) as real, Requirement(costs, k) as real);
  }

  lemma FractionBelowOne(x: real, r: real)
    requires 0.0 <= x && 0.0 < r
    ensures 0.0 <= x / r
    ensures x / r < 1.0 <==> x < r
  {
    assert x / r * r == x;
  }

  /** Every whole level is entered exactly when its prefix sum is paid. */
  lemma LevelAtPrefixSum(costs: CostTable, k: nat)
    ensures LevelOf(costs, Cumulative(costs, k)) == 1.0 + k as real
  {
    LevelClosedForm(costs, Cumulative(costs, k), k);
    ZeroShare(Requirement(costs, k) as real);
  }

  lemma ZeroShare(r: real)
    requires 0.0 < r
    ensures 0.0 / r == 0.0
  {
  }

  lemma DivisionMonotone(x: real, y: real, r: real)
    requires x < y && 0.0 < r
    ensures x / r < y / r
  {
  }

  lemma LevelStrictlyIncreasing(costs: CostTable, s: int, t: int)
    requires 0 <= s < t
    ensures LevelOf(costs, s) < LevelOf(costs, t)
  {
    var j, k := CompletedFrom(costs, s, 0), CompletedFrom(costs, t, 0);
    LevelClosedForm(costs, s, j);
    LevelClosedForm(costs, t, k);
    if k < j {
      CumulativeGrows(costs, k, j);
    } else if j == k {
      var c := Cumulative(costs, k);
      DivisionMonotone((s - c) as real, (t - c) as real, Requirement(costs, k) as real);
    }
  }

  /** Never decreasing on all integers, negative scores included. */
  lemma LevelMonotone(costs: CostTable, s: int, t: int)
    requires s <= t
    ensures 1.0 <= LevelOf(costs, s) <= LevelOf(costs, t)
  {
    if 0 < s {
      LevelClosedForm(costs, s, CompletedFrom(costs, s, 0));
      if s < t {
        LevelStrictlyIncreasing(costs, s, t);
      }
    } else if 0 < t {
      LevelClosedForm(costs, t, CompletedFrom(costs, t, 0));
    }
  }

  /** The inverse curve: the score at which a (fractional) level is reached. */
  ghost function LevelToScore(costs: CostTable, level: real): real
    requires 1.0 <= level
  {
    var k: nat := (level - 1.0).Floor;
    Cumulative(costs, k) as real + (level - 1.0 - k as real) * Requirement(costs, k) as real
  }

  lemma LevelRoundTrip(costs: CostTable, s: int)
    requires 0 <= s
    ensures 1.0 <= LevelOf(costs, s)
    ensures LevelToScore(costs, LevelOf(costs, s)) == s as real
  {
    var k := CompletedFrom(costs, s, 0);
    LevelClosedForm(costs, s, k);
    WholePart(LevelOf(costs, s) - 1.0, k);
    ShareBack((s - Cumulative(costs, k)) as real, Requirement(costs, k) as real);
    assert LevelOf(costs, s) - 1.0 - k as real == (s - Cumulative(costs, k)) as real / Requirement(costs, k) as real;
  }

  lemma WholePart(x: real, k: nat)
    requires k as real <= x < k as real + 1.0
    ensures x.Floor == k
  {
  }

  lemma ShareBack(x: real, r: real)
    requires 0.0 < r
    ensures x / r * r == x
  {
  }

  /** Python's round(): to the nearest integer, ties to the even one. */
  function RoundHalfEven(x: real): int {
    var f := x.Floor;
    var rest := x - f as real;
    if rest < 0.5 then f
    else if rest > 0.5 then f + 1
    else if f % 2 == 0 then f else f + 1
  }

  /** The loop, for any table: spend the score level by level, indexing only at whole levels. */
  method WalkLevels(costs: CostTable, totalScore: int) returns (result: real)
    ensures result == LevelOf(costs, totalScore)
  {
    var remaining := totalScore;
    var level := 0.0;
    ghost var k: nat := 0;
    while remaining > 0
      invariant totalScore <= 0 ==> remaining == totalScore && level == 0.0
      invariant remaining > 0 ==> level == k as real && remaining == totalScore - Cumulative(costs, k)
      invariant remaining <= 0 < totalScore ==> level + 1.0 == LevelOf(costs, totalScore)
      decreases remaining
    {
      var index := RoundHalfEven(level);
      assert index == k;
      var requirement := costs[if index < |costs| - 1 then index else |costs| - 1];
      var share := remaining as real / requirement as real;
      FractionBelowOne(remaining as real, requirement as real);
      if remaining < requirement {
        LevelClosedForm(costs, totalScore, k);
      } else if remaining == requirement {
        LevelAtPrefixSum(costs, k + 1);
      }
      level := level + if 1.0 < share then 1.0 else share;
      remaining := remaining - requirement;
      k := k + 1;
    }
    result := level + 1.0;
  }

  /** The level shown for a total score. */
  ghost function ScoreToLevel(s: int): real {
    TableIsPositive();
    LevelOf(TO_NEXT_LEVEL, s)
  }

  lemma ScoreToLevelMonotone(s: int, t: int)
    requires s <= t
    ensures 1.0 <= ScoreToLevel(s) <= ScoreToLevel(t)
  {
    TableIsPositive();
    LevelMonotone(TO_NEXT_LEVEL, s, t);
  }

  method CalculateScoreToLevel(totalScore: int) returns (result: real)
    ensures result == ScoreToLevel(totalScore)
  {
    TableIsPositive();
    result := WalkLevels(TO_NEXT_LEVEL, totalScore);
  }

  // ----- The table and the curve in plain numbers.

  /** The sum of the first n entries. */
  function SumTo(s: seq<int>, n: nat): int
    requires n <= |s|
  {
    if n == 0 then 0 else SumTo(s, n - 1) + s[n - 1]
  }

  lemma {:induction false} SumOfBoth(s: seq<int>, t: seq<int>, n: nat)
    requires n <= |t|
    ensures SumTo(s + t, |s| + n) == SumTo(s, |s|) + SumTo(t, n)
  {
    if n == 0 {
      SumOfPart(s, t, |s|);
    } else {
      SumOfBoth(s, t, n - 1);
    }
  }

  lemma {:induction false} SumOfPart(s: seq<int>, t: seq<int>, n: nat)
    requires n <= |s|
    ensures SumTo(s + t, n) == SumTo(s, n)
  {
    if n > 0 {
      SumOfPart(s, t, n - 1);
    }
  }

  /** What the first k levels cost: the sum of the first k entries; the last entry goes on for ever. */
  lemma {:induction false} CumulativeIsSum(costs: CostTable, k: nat)
    ensures k <= |costs| ==> Cumulative(costs, k) == SumTo(costs, k)
    ensures k > |costs| ==> Cumulative(costs, k) == Cumulative(costs, k - 1) + costs[|costs| - 1]
  {
    if 0 < k <= |costs| {
      CumulativeIsSum(costs, k - 1);
    }
  }

  /** The first n entries follow the official curve, from that level on. */
  predicate Follows(s: seq<int>, n: nat, from: nat)
    requires n <= |s|
  {
    n == 0 || (s[n - 1] == 10000 * (from + n) * (2 * (from + n) + 1) && Follows(s, n - 1, from))
  }

  /** The first 58 levels cost 10000 n (2 n + 1) each. */
  lemma RowsFollowCurve()
    ensures Follows(COSTS_0, 10, 0) && Follows(COSTS_1, 10, 10) && Follows(COSTS_2, 10, 20)
    ensures Follows(COSTS_3, 10, 30) && Follows(COSTS_4, 10, 40) && Follows(COSTS_5, 8, 50)
  {
  }

  lemma RowSums()
    ensures SumTo(COSTS_0, 10) == 8250000
    ensures SumTo(COSTS_1, 10) == 51250000
    ensures SumTo(COSTS_2, 10) == 134250000
    ensures SumTo(COSTS_3, 10) == 257250000
    ensures SumTo(COSTS_4, 10) == 420250000
    ensures SumTo(COSTS_5, 10) == 623250002
    ensures SumTo(COSTS_6, 10) == 866250800
    ensures SumTo(COSTS_7, 10) == 1149536032
    ensures SumTo(COSTS_8, 10) == 1574376775
    ensures SumTo(COSTS_9, 10) == 121846527217
    ensures SumTo(COSTS_10, 10) == 999999999990
    ensures SumTo(COSTS_11, 5) == 499999999995
  {
  }

  /** The whole table adds up. */
  lemma TableSum()
    ensures |TO_NEXT_LEVEL| == 115 && SumTo(TO_NEXT_LEVEL, 115) == 1626931190811
  {
    RowSums();
    var t := COSTS_0;
    SumOfBoth(t, COSTS_1, 10);
    t := t + COSTS_1;
    SumOfBoth(t, COSTS_2, 10);
    t := t + COSTS_2;
    SumOfBoth(t, COSTS_3, 10);
    t := t + COSTS_3;
    SumOfBoth(t, COSTS_4, 10);
    t := t + COSTS_4;
    SumOfBoth(t, COSTS_5, 10);
    t := t + COSTS_5;
    SumOfBoth(t, COSTS_6, 10);
    t := t + COSTS_6;
    SumOfBoth(t, COSTS_7, 10);
    t := t + COSTS_7;
    SumOfBoth(t, COSTS_8, 10);
    t := t + COSTS_8;
    SumOfBoth(t, COSTS_9, 10);
    t := t + COSTS_9;
    SumOfBoth(t, COSTS_10, 10);
    t := t + COSTS_10;
    SumOfBoth(t, COSTS_11, 5);
    t := t + COSTS_11;
  }
}
