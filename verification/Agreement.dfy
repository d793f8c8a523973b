/**
 The incremental ledger against the recalculation, for every history and every way the tied look-ups
 can fall.
 */
module Agreement {
  import opened Common
  import opened Levels
  import opened Scores
  import opened Ledger
  import opened Board
  import opened Recalculation
  import opened Reordering

  /** What a map contributes to the incremental ranked score.  Without a leaderboard no row is ever
      found, so every eligible play counts in full. */
  function OnlineCredit(cfg: Config, h: seq<Play>, a: Account, m: int): int {
    if !cfg.RankedMap(m) then 0
    else if cfg.BoardMap(m) then Best(h, a, m)
    else EligibleSum(h, a, m)
  }

  ghost function OnlineCredits(cfg: Config, h: seq<Play>, a: Account): map<int, int> {
    map m | m in Maps(h, a) :: OnlineCredit(cfg, h, a, m)
  }

  /** p is found to improve its map: on a leaderboard it beats the best, without one any total does. */
  predicate Counts(cfg: Config, h: seq<Play>, p: Play) {
    OnRanked(cfg, p) && p.total > (if cfg.BoardMap(p.beatmap) then Best(h, p.account, p.beatmap) else 0)
  }

  /** The total score when a map was last improved. */
  function LevelledTotal(cfg: Config, h: seq<Play>, a: Account): nat {
    if h == [] then 0
    else if Last(h).account == a && Counts(cfg, Init(h), Last(h)) then TotalSum(h, a)
    else LevelledTotal(cfg, Init(h), a)
  }

  /** The largest combo of a play that improved a map. */
  function OnlineCombo(cfg: Config, h: seq<Play>, a: Account): int {
    if h == [] then 0
    else
      var c, p := OnlineCombo(cfg, Init(h), a), Last(h);
      if p.account == a && Counts(cfg, Init(h), p) && p.maxCombo > c then p.maxCombo else c
  }

  lemma {:induction false} OnlineBounds(cfg: Config, h: seq<Play>, a: Account)
    ensures LevelledTotal(cfg, h, a) <= TotalSum(h, a)
    ensures OnlineCombo(cfg, h, a) <= MaxCombo(cfg, RankedGate, h, a)
  {
    if h != [] {
      OnlineBounds(cfg, Init(h), a);
    }
  }

  /** The counters that do not depend on how ties fall. */
  ghost predicate CountersOk(cfg: Config, h: seq<Play>, a: Account, s: Stats) {
    && s.totalScore == TotalSum(h, a)
    && s.rankedScore == MapSum(OnlineCredits(cfg, h, a))
    && s.levelCurrent == ScoreToLevel(LevelledTotal(cfg, h, a))
    && s.maximumCombo == OnlineCombo(cfg, h, a)
  }

  /** In a reachable state, the looked-up best of an eligible play carries the map's best total. */
  lemma PickIsBest(cfg: Config, accounts: set<Account>, h: seq<Play>, rows: set<Row>, p: Play,
                   best: Option<Row>, bestMod: Option<Row>)
    requires BoardInv(cfg, accounts, h, rows) && p.account in accounts && OnRanked(cfg, p)
    requires LegalPicks(cfg, rows, p, best, bestMod)
    ensures !cfg.BoardMap(p.beatmap) ==> best.None?
    ensures cfg.BoardMap(p.beatmap) ==>
      Best(h, p.account, p.beatmap) == if best.Some? then best.value.total else 0
    ensures cfg.BoardMap(p.beatmap) && best.Some? ==>
      exists j :: 0 <= j < |h| && Eligible(h[j], p.account, p.beatmap) && RowOf(h[j]) == best.value
        && Earliest(h, j, p.account, p.beatmap)
    ensures cfg.BoardMap(p.beatmap) && best.None? ==> BestPlay(h, p.account, p.beatmap).None?
  {
    var a, m := p.account, p.beatmap;
    assert SlotOk(cfg, accounts, h, rows, a, m);
    if cfg.BoardMap(m) {
      var slot := MapRows(rows, a, m);
      FirstIsBest(h, slot, a, m, best);
      BestPlayIsFirst(h, a, m);
      if best.Some? {
        var q :| q in h && Eligible(q, a, m) && RowOf(q) == best.value;
        var j :| 0 <= j < |h| && h[j] == q;
        assert Earliest(h, j, a, m);
      }
    }
  }

  lemma OnlineFrame(cfg: Config, h: seq<Play>, p: Play, a: Account, m: int)
    requires !Eligible(p, a, m)
    ensures OnlineCredit(cfg, h + [p], a, m) == OnlineCredit(cfg, h, a, m)
  {
  }

  lemma OnlineCreditsStep(cfg: Config, h: seq<Play>, a: Account, p: Play)
    requires p.account == a
    ensures MapSum(OnlineCredits(cfg, h + [p], a)) ==
      MapSum(OnlineCredits(cfg, h, a)) + OnlineCredit(cfg, h + [p], a, p.beatmap) - OnlineCredit(cfg, h, a, p.beatmap)
  {
    MapsGrow(h, p, a);
    UnplayedMap(h, a, p.beatmap);
    UnplayedSum(h, a, p.beatmap);
    var before, after := OnlineCredits(cfg, h, a), OnlineCredits(cfg, h + [p], a);
    forall m | m in before && m != p.beatmap
      ensures after[m] == before[m]
    {
      OnlineFrame(cfg, h, p, a, m);
    }
    CreditsUpdate(before, after, p.beatmap);
  }

  lemma {:induction false} UnplayedSum(h: seq<Play>, a: Account, m: int)
    ensures m !in Maps(h, a) ==> EligibleSum(h, a, m) == 0
  {
    if h != [] {
      assert h == Init(h) + [Last(h)];
      MapsGrow(Init(h), Last(h), a);
      UnplayedSum(Init(h), a, m);
    }
  }

  lemma CountersStep(cfg: Config, accounts: set<Account>, h: seq<Play>, s: State, p: Play,
                     best: Option<Row>, bestMod: Option<Row>, t: State)
    requires p.account in accounts && p.account in s.stats && BoardInv(cfg, accounts, h, s.rows)
    requires StepWith(cfg, s, p, best, bestMod, t)
    requires CountersOk(cfg, h, p.account, s.stats[p.account])
    ensures CountersOk(cfg, h + [p], p.account, t.stats[p.account])
  {
    var a, m := p.account, p.beatmap;
    Snoc(h, p);
    OnlineCreditsStep(cfg, h, a, p);
    if OnRanked(cfg, p) {
      PickIsBest(cfg, accounts, h, s.rows, p, best, bestMod);
    }
  }

  /** The statistics of the other accounts do not move. */
  lemma CountersOther(cfg: Config, h: seq<Play>, p: Play, a: Account, s: Stats)
    requires p.account != a && CountersOk(cfg, h, a, s)
    ensures CountersOk(cfg, h + [p], a, s)
  {
    Snoc(h, p);
    MapsGrow(h, p, a);
    forall m | m in Maps(h, a)
      ensures OnlineCredit(cfg, h + [p], a, m) == OnlineCredit(cfg, h, a, m)
    {
      OnlineFrame(cfg, h, p, a, m);
    }
    assert OnlineCredits(cfg, h + [p], a) == OnlineCredits(cfg, h, a);
  }

  /** Every reachable state, every account. */
  lemma {:induction false} CountersReachable(cfg: Config, accounts: set<Account>, h: seq<Play>, s: State, a: Account)
    requires UniqueIds(h) && Reaches(cfg, accounts, h, s) && a in accounts
    ensures a in s.stats && CountersOk(cfg, h, a, s.stats[a])
  {
    BoardReachable(cfg, accounts, h, s);
    if h == [] {
      assert Maps(h, a) == {};
      LevelOfNothing();
    } else {
      UniqueIdsPrefix(h);
      var p := Last(h);
      var before :| Reaches(cfg, accounts, Init(h), before) && Step(cfg, before, p, s);
      BoardReachable(cfg, accounts, Init(h), before);
      CountersReachable(cfg, accounts, Init(h), before, a);
      if p.account == a {
        var best, bestMod :| StepWith(cfg, before, p, best, bestMod, s);
        CountersStep(cfg, accounts, Init(h), before, p, best, bestMod, s);
      } else {
        CountersOther(cfg, Init(h), p, a, before.stats[a]);
      }
    }
  }

  /** The map's share of the ranked score is the same on both sides: a loved map only counts online,
      and a ranked map without a leaderboard counts every play online. */
  predicate SameShare(cfg: Config, h: seq<Play>, a: Account, m: int) {
    && (cfg.RankedMap(m) && !cfg.PpMap(m) ==> PositiveCount(h, a, m) == 0)
    && (cfg.RankedMap(m) && !cfg.BoardMap(m) ==> PositiveCount(h, a, m) <= 1)
  }

  lemma ShareOrder(cfg: Config, h: seq<Play>, a: Account, m: int)
    ensures BestCredit(cfg, PpGate, h, a, m) <= OnlineCredit(cfg, h, a, m)
    ensures BestCredit(cfg, PpGate, h, a, m) == OnlineCredit(cfg, h, a, m) <==> SameShare(cfg, h, a, m)
  {
    BestVersusSum(h, a, m);
  }

  lemma LevelOfNothing()
    ensures ScoreToLevel(0) == 1.0
  {
  }

  /** The level shown is that of the total score exactly if no total was added since a map was improved. */
  lemma LevelLags(cfg: Config, h: seq<Play>, a: Account)
    ensures ScoreToLevel(LevelledTotal(cfg, h, a)) <= ScoreToLevel(TotalSum(h, a))
    ensures ScoreToLevel(LevelledTotal(cfg, h, a)) == ScoreToLevel(TotalSum(h, a)) <==>
      LevelledTotal(cfg, h, a) == TotalSum(h, a)
  {
    OnlineBounds(cfg, h, a);
    ScoreToLevelMonotone(LevelledTotal(cfg, h, a), TotalSum(h, a));
    TableIsPositive();
    if LevelledTotal(cfg, h, a) < TotalSum(h, a) {
      LevelStrictlyIncreasing(TO_NEXT_LEVEL, LevelledTotal(cfg, h, a), TotalSum(h, a));
    }
  }

  /** Total score always agrees with the recalculation, in whatever order it reads; ranked score is never
      below it, and equal exactly when every map has the same share on both sides.  The level never runs ahead,
      and agrees exactly when nothing was added since a map was last improved. */
  lemma LedgerMeetsRecalculation(cfg: Config, accounts: set<Account>, h: seq<Play>, s: State, a: Account, g: seq<Play>,
                                 rebuilt: Stats)
    requires UniqueIds(h) && Reaches(cfg, accounts, h, s) && a in accounts
    requires ReadsOwn(h, a, g) && IsRebuilt(cfg, g, a, rebuilt)
    ensures a in s.stats && s.stats[a].totalScore == rebuilt.totalScore
    ensures s.stats[a].rankedScore >= rebuilt.rankedScore
    ensures s.stats[a].rankedScore == rebuilt.rankedScore <==> forall m | m in Maps(h, a) :: SameShare(cfg, h, a, m)
    ensures s.stats[a].levelCurrent <= rebuilt.levelCurrent
    ensures s.stats[a].levelCurrent == rebuilt.levelCurrent <==> LevelledTotal(cfg, h, a) == TotalSum(h, a)
  {
    CountersReachable(cfg, accounts, h, s, a);
    LevelLags(cfg, h, a);
    ReadTotals(cfg, h, a, g);
    SharesCompare(cfg, h, a);
  }

  lemma SharesCompare(cfg: Config, h: seq<Play>, a: Account)
    ensures MapSum(BestCredits(cfg, PpGate, h, a)) <= MapSum(OnlineCredits(cfg, h, a))
    ensures MapSum(BestCredits(cfg, PpGate, h, a)) == MapSum(OnlineCredits(cfg, h, a)) <==>
      forall m | m in Maps(h, a) :: SameShare(cfg, h, a, m)
  {
    var batch, online := BestCredits(cfg, PpGate, h, a), OnlineCredits(cfg, h, a);
    forall m | m in batch
      ensures batch[m] <= online[m] && (batch[m] == online[m] <==> SameShare(cfg, h, a, m))
    {
      ShareOrder(cfg, h, a, m);
    }
    MapSumOrder(batch, online);
    if batch == online {
      assert forall m | m in Maps(h, a) :: batch[m] == online[m];
    } else {
      assert exists m :: m in Maps(h, a) && batch[m] != online[m];
    }
  }

  /** One positive play on a map that only counts online puts ranked score ahead, in every configuration and
      for every play. */
  lemma OnePlayAhead(cfg: Config, p: Play, s: State, g: seq<Play>, rebuilt: Stats)
    requires OnRanked(cfg, p) && !cfg.PpMap(p.beatmap) && p.total > 0
    requires Reaches(cfg, {p.account}, [p], s) && ReadsOwn([p], p.account, g) && IsRebuilt(cfg, g, p.account, rebuilt)
    ensures p.account in s.stats && s.stats[p.account].rankedScore > rebuilt.rankedScore
  {
    var h := [p];
    assert Init(h) == [] && Last(h) == p;
    LedgerMeetsRecalculation(cfg, {p.account}, h, s, p.account, g, rebuilt);
    assert p in h && p.beatmap in Maps(h, p.account);
    assert PositiveCount(h, p.account, p.beatmap) == 1;
    assert !SameShare(cfg, h, p.account, p.beatmap);
  }

  /** So do two positive plays on a ranked map without a leaderboard, in whatever order they are read. */
  lemma TwoPlaysAhead(cfg: Config, p: Play, q: Play, s: State, g: seq<Play>, rebuilt: Stats)
    requires OnRanked(cfg, p) && OnRanked(cfg, q) && !cfg.BoardMap(p.beatmap) && p.total > 0 && q.total > 0
    requires p.account == q.account && p.beatmap == q.beatmap && p.id != q.id
    requires Reaches(cfg, {p.account}, [p, q], s)
    requires ReadsOwn([p, q], p.account, g) && IsRebuilt(cfg, g, p.account, rebuilt)
    ensures p.account in s.stats && s.stats[p.account].rankedScore > rebuilt.rankedScore
  {
    var h := [p, q];
    assert Init(h) == [p] && Init([p]) == [] && Last(h) == q && Last([p]) == p;
    LedgerMeetsRecalculation(cfg, {p.account}, h, s, p.account, g, rebuilt);
    assert p in h && p.beatmap in Maps(h, p.account);
    assert PositiveCount([p], p.account, p.beatmap) == 1;
    assert PositiveCount(h, p.account, p.beatmap) == 2;
    assert !SameShare(cfg, h, p.account, p.beatmap);
  }
}
