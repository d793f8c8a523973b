/**
 What one play and two plays of a map lead to, live and rebuilt, in plain numbers: by the status of the map,
 the two switches and the fields of the plays alone.
 */
module FirstPlays {
  import opened Common
  import opened Levels
  import opened Scores
  import opened Ledger
  import opened Recalculation
  import opened Agreement

  function One(b: bool): int {
    if b then 1 else 0
  }

  function Max(a: int, b: int): int {
    if a < b then b else a
  }

  /** The only two look-ups an empty board allows. */
  lemma NothingToFind(cfg: Config, p: Play, best: Option<Row>, bestMod: Option<Row>)
    requires LegalPicks(cfg, {}, p, best, bestMod)
    ensures best.None? && bestMod.None?
  {
    assert MapRows({}, p.account, p.beatmap) == {} && WithMods({}, p.mods) == {};
  }

  lemma FirstState(cfg: Config, a: Account, p: Play, s: State)
    requires p.account == a && Reaches(cfg, {a}, [p], s)
    ensures StepWith(cfg, Fresh({a}), p, None, None, s)
  {
    assert Init([p]) == [] && Last([p]) == p;
    var before :| Reaches(cfg, {a}, [], before) && Step(cfg, before, p, s);
    var best, bestMod :| StepWith(cfg, before, p, best, bestMod, s);
    NothingToFind(cfg, p, best, bestMod);
  }

  /** One play: its row, and its part of ranked score, grades, level and combo. */
  lemma OnePlayLive(cfg: Config, p: Play, s: State)
    requires Reaches(cfg, {p.account}, [p], s)
    ensures
      var status := cfg.status(p.beatmap);
      s.rows ==
        if p.passed && p.modsOk &&
           (status.Ranked? || status.Approved? || status.Qualified? || status.Loved? || cfg.allBoards)
        then {Row(p.id, p.account, p.beatmap, p.mods, p.total, p.rank)} else {}
    ensures
      var status := cfg.status(p.beatmap);
      s.stats == map[p.account :=
        if p.passed && p.modsOk && (status.Ranked? || status.Approved? || status.Loved? || cfg.allPp) && p.total > 0
        then Stats(p.total, p.total, One(p.rank.X?), One(p.rank.XH?), One(p.rank.S?), One(p.rank.SH?), One(p.rank.A?),
                   ScoreToLevel(p.total), Max(0, p.maxCombo))
        else Stats(p.total, 0, 0, 0, 0, 0, 0, 1.0, 0)]
  {
    FirstState(cfg, p.account, p, s);
  }

  // ----- A second play of the same map.

  lemma SecondState(cfg: Config, p: Play, q: Play, s: State)
    returns (before: State, best: Option<Row>, bestMod: Option<Row>)
    requires p.account == q.account && Reaches(cfg, {p.account}, [p, q], s)
    ensures Reaches(cfg, {p.account}, [p], before) && before.stats.Keys == {p.account}
    ensures StepWith(cfg, before, q, best, bestMod, s)
  {
    assert Init([p, q]) == [p] && Last([p, q]) == q;
    before :| Reaches(cfg, {p.account}, [p], before) && Step(cfg, before, q, s);
    OnePlayLive(cfg, p, before);
    best, bestMod :| StepWith(cfg, before, q, best, bestMod, s);
  }

  lemma OneRowToFind(cfg: Config, r: Row, q: Play, best: Option<Row>, bestMod: Option<Row>)
    requires LegalPicks(cfg, {r}, q, best, bestMod) && q.passed && (OnRanked(cfg, q) || OnBoard(cfg, q))
    requires r.account == q.account && r.beatmap == q.beatmap
    ensures best == Some(r) && bestMod == if r.mods == q.mods then Some(r) else None
  {
    assert MapRows({r}, q.account, q.beatmap) == {r};
    assert r in WithMods({r}, q.mods) <==> r.mods == q.mods;
    assert r.mods != q.mods ==> WithMods({r}, q.mods) == {};
  }

  ghost predicate SameMapPlays(p: Play, q: Play) {
    && p.account == q.account && p.beatmap == q.beatmap && p.id != q.id
    && p.passed && q.passed && p.modsOk && q.modsOk
  }

  /** The rows: one per mod set, and of two plays with the same mods the better one, the earlier one if tied. */
  lemma TwoPlaysRows(cfg: Config, p: Play, q: Play, s: State)
    requires SameMapPlays(p, q) && Reaches(cfg, {p.account}, [p, q], s)
    ensures
      var status := cfg.status(p.beatmap);
      var first := Row(p.id, p.account, p.beatmap, p.mods, p.total, p.rank);
      var second := Row(q.id, q.account, q.beatmap, q.mods, q.total, q.rank);
      s.rows ==
        if !(status.Ranked? || status.Approved? || status.Qualified? || status.Loved? || cfg.allBoards) then {}
        else if p.mods != q.mods then {first, second}
        else if q.total > p.total then {second}
        else {first}
  {
    var before, best, bestMod := SecondState(cfg, p, q, s);
    OnePlayLive(cfg, p, before);
    if OnBoard(cfg, q) {
      OneRowToFind(cfg, RowOf(p), q, best, bestMod);
    }
  }

  /** What a grade counter shows: the first play's grade if it has points, and the second play's in its place if
      that is better. */
  function Swapped(p: Play, q: Play, first: bool, second: bool): int {
    One(p.total > 0 && first) + if q.total > p.total then One(second) - One(first) else 0
  }

  /** Ranked score and grades where the map counts and has a leaderboard: the larger total only. */
  lemma TwoPlaysRanked(cfg: Config, p: Play, q: Play, s: State)
    requires SameMapPlays(p, q) && Reaches(cfg, {p.account}, [p, q], s)
    requires
      var status := cfg.status(p.beatmap);
      && (status.Ranked? || status.Approved? || status.Loved? || cfg.allPp)
      && (status.Ranked? || status.Approved? || status.Qualified? || status.Loved? || cfg.allBoards)
    ensures s.stats.Keys == {p.account}
    ensures
      s.stats[p.account] ==
        Stats(p.total + q.total, Max(p.total, q.total),
              Swapped(p, q, p.rank.X?, q.rank.X?), Swapped(p, q, p.rank.XH?, q.rank.XH?),
              Swapped(p, q, p.rank.S?, q.rank.S?), Swapped(p, q, p.rank.SH?, q.rank.SH?),
              Swapped(p, q, p.rank.A?, q.rank.A?),
              ScoreToLevel(if q.total > p.total then p.total + q.total else p.total),
              Max(if p.total > 0 then Max(0, p.maxCombo) else 0, if q.total > p.total then q.maxCombo else 0))
  {
    var before, best, bestMod := SecondState(cfg, p, q, s);
    OnePlayLive(cfg, p, before);
    OneRowToFind(cfg, RowOf(p), q, best, bestMod);
    FirstStats(cfg, p, before.stats[p.account]);
    SecondStats(cfg, before.stats[p.account], p, q);
  }

  ghost predicate AfterFirst(p: Play, t: Stats) {
    && t.totalScore == p.total && t.rankedScore == p.total
    && t.gradeSs == One(p.total > 0 && p.rank.X?) && t.gradeSsh == One(p.total > 0 && p.rank.XH?)
    && t.gradeS == One(p.total > 0 && p.rank.S?) && t.gradeSh == One(p.total > 0 && p.rank.SH?)
    && t.gradeA == One(p.total > 0 && p.rank.A?)
    && t.levelCurrent == ScoreToLevel(p.total) && t.maximumCombo == if p.total > 0 then Max(0, p.maxCombo) else 0
  }

  lemma FirstStats(cfg: Config, p: Play, t: Stats)
    requires OnRanked(cfg, p) && t == StatsAfter(cfg, ZeroStats, p, None)
    ensures AfterFirst(p, t)
  {
    LevelOfNothing();
  }

  lemma SecondStats(cfg: Config, t: Stats, p: Play, q: Play)
    requires OnRanked(cfg, q) && AfterFirst(p, t)
    ensures
      StatsAfter(cfg, t, q, Some(RowOf(p))) ==
        Stats(p.total + q.total, Max(p.total, q.total),
              Swapped(p, q, p.rank.X?, q.rank.X?), Swapped(p, q, p.rank.XH?, q.rank.XH?),
              Swapped(p, q, p.rank.S?, q.rank.S?), Swapped(p, q, p.rank.SH?, q.rank.SH?),
              Swapped(p, q, p.rank.A?, q.rank.A?),
              ScoreToLevel(if q.total > p.total then p.total + q.total else p.total),
              Max(if p.total > 0 then Max(0, p.maxCombo) else 0, if q.total > p.total then q.maxCombo else 0))
  {
    var u := StatsAfter(cfg, t, q, Some(RowOf(p)));
    SecondGrades(cfg, t, p, q);
    if q.total > p.total {
      assert Difference(q, Some(RowOf(p))) > 0;
      assert u.levelCurrent == ScoreToLevel(p.total + q.total);
    } else {
      assert u == t.(totalScore := t.totalScore + q.total);
    }
  }

  lemma SecondGrades(cfg: Config, t: Stats, p: Play, q: Play)
    requires OnRanked(cfg, q) && AfterFirst(p, t)
    ensures
      var u := StatsAfter(cfg, t, q, Some(RowOf(p)));
      && u.gradeSs == Swapped(p, q, p.rank.X?, q.rank.X?) && u.gradeSsh == Swapped(p, q, p.rank.XH?, q.rank.XH?)
      && u.gradeS == Swapped(p, q, p.rank.S?, q.rank.S?) && u.gradeSh == Swapped(p, q, p.rank.SH?, q.rank.SH?)
      && u.gradeA == Swapped(p, q, p.rank.A?, q.rank.A?)
  {
  }

  /** Where it counts without a leaderboard: both totals and both grades. */
  lemma TwoPlaysWithoutBoard(cfg: Config, p: Play, q: Play, s: State)
    requires SameMapPlays(p, q) && Reaches(cfg, {p.account}, [p, q], s)
    requires cfg.allPp && !cfg.allBoards
    requires
      var status := cfg.status(p.beatmap);
      !(status.Ranked? || status.Approved? || status.Qualified? || status.Loved?)
    ensures s.stats.Keys == {p.account}
    ensures s.stats[p.account].rankedScore == s.stats[p.account].totalScore == p.total + q.total
    ensures s.stats[p.account].gradeSs == One(p.total > 0 && p.rank.X?) + One(q.total > 0 && q.rank.X?)
    ensures s.stats[p.account].gradeA == One(p.total > 0 && p.rank.A?) + One(q.total > 0 && q.rank.A?)
  {
    var before, best, bestMod := SecondState(cfg, p, q, s);
    OnePlayLive(cfg, p, before);
    NothingToFind(cfg, q, best, bestMod);
  }

  lemma UncountedStats(cfg: Config, t: Stats, q: Play, best: Option<Row>)
    requires !OnRanked(cfg, q)
    ensures StatsAfter(cfg, t, q, best) == t.(totalScore := t.totalScore + q.total)
  {
  }

  /** Where it does not count, only total score grows. */
  lemma TwoPlaysUnranked(cfg: Config, p: Play, q: Play, s: State)
    requires SameMapPlays(p, q) && Reaches(cfg, {p.account}, [p, q], s) && !cfg.allPp
    requires
      var status := cfg.status(p.beatmap);
      !(status.Ranked? || status.Approved? || status.Loved?)
    ensures s.stats.Keys == {p.account}
    ensures s.stats[p.account] == Stats(p.total + q.total, 0, 0, 0, 0, 0, 0, 1.0, 0)
  {
    var before, best, bestMod := SecondState(cfg, p, q, s);
    FirstState(cfg, p.account, p, before);
    UncountedStats(cfg, ZeroStats, p, None);
    UncountedStats(cfg, before.stats[p.account], q, best);
  }

  /** With the switches off, two plays of a loved map leave one ranked score, the larger one. */
  lemma LovedMapCountsOnce(cfg: Config, p: Play, q: Play, s: State)
    requires SameMapPlays(p, q) && Reaches(cfg, {p.account}, [p, q], s)
    requires !cfg.allPp && !cfg.allBoards && cfg.status(p.beatmap).Loved?
    ensures s.stats.Keys == {p.account} && s.stats[p.account].rankedScore == Max(p.total, q.total)
  {
    TwoPlaysRanked(cfg, p, q, s);
  }

  // ----- The rebuild.

  lemma OnePlayHistory(cfg: Config, p: Play, h: seq<Play>)
    requires h == [p]
    ensures Maps(h, p.account) == {p.beatmap} && TotalSum(h, p.account) == p.total
    ensures Best(h, p.account, p.beatmap) == if p.passed && p.modsOk then p.total else 0
    ensures BestPlay(h, p.account, p.beatmap) == if p.passed && p.modsOk && p.total > 0 then Some(p) else None
    ensures MaxCombo(cfg, PpGate, h, p.account) ==
      if p.passed && p.modsOk && cfg.PpMap(p.beatmap) then Max(0, p.maxCombo) else 0
  {
    assert Init(h) == [] && Last(h) == p;
    assert Best([], p.account, p.beatmap) == 0 && BestPlay([], p.account, p.beatmap) == None;
    assert TotalSum([], p.account) == 0 && MaxCombo(cfg, PpGate, [], p.account) == 0;
  }

  /** The rebuilt row of one play, passed or not. */
  lemma OnePlayRebuilt(cfg: Config, p: Play, rebuilt: Stats)
    requires IsRebuilt(cfg, [p], p.account, rebuilt)
    ensures
      var status := cfg.status(p.beatmap);
      var counts := p.passed && p.modsOk && (status.Ranked? || status.Approved? || cfg.allPp);
      var earns := counts && p.total > 0;
      rebuilt ==
        Stats(p.total, if counts then p.total else 0, One(earns && p.rank.X?), One(earns && p.rank.XH?),
              One(earns && p.rank.S?), One(earns && p.rank.SH?), One(earns && p.rank.A?), ScoreToLevel(p.total),
              if counts then Max(0, p.maxCombo) else 0)
  {
    OnePlayHistory(cfg, p, [p]);
    OneMapRebuilt(cfg, [p], p.account, p.beatmap, rebuilt);
  }

  /** A history of one map is rebuilt from that map's credit. */
  lemma OneMapRebuilt(cfg: Config, h: seq<Play>, a: Account, m: int, rebuilt: Stats)
    requires IsRebuilt(cfg, h, a, rebuilt) && Maps(h, a) == {m}
    ensures rebuilt ==
      Stats(TotalSum(h, a), BestCredit(cfg, PpGate, h, a, m),
            GradeCredit(cfg, PpGate, h, a, GradeSS, m), GradeCredit(cfg, PpGate, h, a, GradeSSH, m),
            GradeCredit(cfg, PpGate, h, a, GradeS, m), GradeCredit(cfg, PpGate, h, a, GradeSH, m),
            GradeCredit(cfg, PpGate, h, a, GradeA, m), ScoreToLevel(TotalSum(h, a)), MaxCombo(cfg, PpGate, h, a))
  {
    SumOfOne(BestCredits(cfg, PpGate, h, a), m);
    forall g: Grade
      ensures rebuilt.Count(g) == GradeCredit(cfg, PpGate, h, a, g, m)
    {
      SumOfOne(GradeCredits(cfg, PpGate, h, a, g), m);
    }
    assert rebuilt.Count(GradeSS) == rebuilt.gradeSs && rebuilt.Count(GradeSSH) == rebuilt.gradeSsh;
    assert rebuilt.Count(GradeS) == rebuilt.gradeS && rebuilt.Count(GradeSH) == rebuilt.gradeSh;
    assert rebuilt.Count(GradeA) == rebuilt.gradeA;
  }

  lemma TwoPlaysHistory(cfg: Config, p: Play, q: Play, h: seq<Play>)
    requires h == [p, q] && SameMapPlays(p, q)
    ensures Maps(h, p.account) == {p.beatmap} && TotalSum(h, p.account) == p.total + q.total
    ensures Best(h, p.account, p.beatmap) == Max(p.total, q.total)
    ensures BestPlay(h, p.account, p.beatmap) ==
      if q.total > p.total then Some(q) else if p.total > 0 then Some(p) else None
    ensures cfg.PpMap(p.beatmap) ==>
      MaxCombo(cfg, PpGate, h, p.account) == Max(Max(0, p.maxCombo), q.maxCombo)
  {
    assert Init(h) == [p] && Last(h) == q;
    OnePlayHistory(cfg, p, [p]);
    MapsGrow([p], q, p.account);
    assert [p] + [q] == h;
  }

  /** What the rebuild counts: the grade of the play that is first to reach the larger total. */
  function Credited(p: Play, q: Play, first: bool, second: bool): int {
    if q.total > p.total then One(second) else One(p.total > 0 && first)
  }

  /** The rebuilt row of two plays of a map: the larger total, the grade of the first play to reach it, and the
      larger combo of both. */
  lemma TwoPlaysRebuilt(cfg: Config, p: Play, q: Play, rebuilt: Stats)
    requires SameMapPlays(p, q) && IsRebuilt(cfg, [p, q], p.account, rebuilt)
    requires
      var status := cfg.status(p.beatmap);
      status.Ranked? || status.Approved? || cfg.allPp
    ensures
      rebuilt ==
        Stats(p.total + q.total, Max(p.total, q.total),
              Credited(p, q, p.rank.X?, q.rank.X?), Credited(p, q, p.rank.XH?, q.rank.XH?),
              Credited(p, q, p.rank.S?, q.rank.S?), Credited(p, q, p.rank.SH?, q.rank.SH?),
              Credited(p, q, p.rank.A?, q.rank.A?), ScoreToLevel(p.total + q.total),
              Max(Max(0, p.maxCombo), q.maxCombo))
  {
    var h := [p, q];
    TwoPlaysHistory(cfg, p, q, h);
    OneMapRebuilt(cfg, h, p.account, p.beatmap, rebuilt);
    assert cfg.PpMap(p.beatmap);
    if q.total > p.total {
      assert CreditedGrade(h, p.account, p.beatmap) == GradeOf(q.rank);
    } else if p.total > 0 {
      assert CreditedGrade(h, p.account, p.beatmap) == GradeOf(p.rank);
    } else {
      assert CreditedGrade(h, p.account, p.beatmap) == None;
    }
  }

  lemma SumOfOne(m: map<int, int>, k: int)
    requires m.Keys == {k}
    ensures MapSum(m) == m[k]
  {
    assert m - {k} == map[];
    MapSumSplit(m, k);
  }
}
