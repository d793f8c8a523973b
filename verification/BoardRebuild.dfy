/**
 The leaderboard rows rebuilt from a history (tools/recalculate.py, build_total_score_best_scores), and
 what the live table keeps of them.
 */
module BoardRebuild {
  import opened Common
  import opened Scores
  import opened Ledger
  import opened Board
  import opened Runs
  import opened FirstBest

  predicate SameKey(p: Play, q: Play) {
    p.account == q.account && p.beatmap == q.beatmap && p.mods == q.mods
  }

  predicate SameRowKey(r: Row, q: Row) {
    r.account == q.account && r.beatmap == q.beatmap && r.mods == q.mods
  }

  predicate RowMatches(r: Row, p: Play) {
    r.account == p.account && r.beatmap == p.beatmap && r.mods == p.mods
  }

  datatype BoardKey = BoardKey(account: Account, beatmap: int, mods: set<string>)

  /** The best total per account, map and mod set, of the plays on a board. */
  function BoardRule(cfg: Config): Rule<Play, BoardKey, Row> {
    Rule((p: Play) => OnBoard(cfg, p), (p: Play) => RowOf(p),
         (r: Row) => BoardKey(r.account, r.beatmap, r.mods), (r: Row) => r.total as real)
  }

  /** One row per account, map and mod set that has a play on a board: the first play with its best total. */
  ghost function RebuiltRows(cfg: Config, h: seq<Play>): set<Row> {
    Winners(BoardRule(cfg), h)
  }

  /** Every key with a play on a board has a rebuilt row, and it dominates the play. */
  lemma RebuiltHasKey(cfg: Config, h: seq<Play>, k: nat) returns (i: nat)
    requires k < |h| && OnBoard(cfg, h[k])
    ensures i < |h| && OnBoard(cfg, h[i]) && RowOf(h[i]) in RebuiltRows(cfg, h)
    ensures SameKey(h[i], h[k]) && h[k].total <= h[i].total
  {
    i := WinnerExists(BoardRule(cfg), h, k);
  }

  /** The play behind a rebuilt row: none of its key is better. */
  lemma RebuiltPlay(cfg: Config, h: seq<Play>, r: Row) returns (i: nat)
    requires r in RebuiltRows(cfg, h)
    ensures i < |h| && OnBoard(cfg, h[i]) && RowOf(h[i]) == r
    ensures forall p | p in h && OnBoard(cfg, p) && SameKey(p, h[i]) :: p.total <= h[i].total
  {
    i := WinningPlay(BoardRule(cfg), h, r);
    WinnerIsBest(BoardRule(cfg), h, i);
    forall p | p in h && OnBoard(cfg, p) && SameKey(p, h[i])
      ensures p.total <= h[i].total
    {
      assert SameKeys(BoardRule(cfg), p, h[i]);
    }
  }

  lemma RebuiltKeyUnique(cfg: Config, h: seq<Play>, r: Row, q: Row)
    requires r in RebuiltRows(cfg, h) && q in RebuiltRows(cfg, h)
    requires SameRowKey(r, q)
    ensures r == q
  {
    RowUnique(BoardRule(cfg), h, r, q);
  }

  /** The rebuilt rows in full: those of the plays with allowed mods on a ranked, approved, qualified or loved map
      (on any, with the switch) that are first to reach the best total of their player, map and mods. */
  lemma RebuiltMeaning(cfg: Config, h: seq<Play>, r: Row)
    ensures r in RebuiltRows(cfg, h) <==>
      exists i: nat ::
        && i < |h| && r == Row(h[i].id, h[i].account, h[i].beatmap, h[i].mods, h[i].total, h[i].rank)
        && h[i].passed && h[i].modsOk
        && (cfg.allBoards || cfg.status(h[i].beatmap) in {Ranked, Approved, Qualified, Loved})
        && forall j | 0 <= j < |h| && h[j].passed && h[j].modsOk && h[j].account == h[i].account &&
                      h[j].beatmap == h[i].beatmap && h[j].mods == h[i].mods ::
             h[j].total < h[i].total || (h[j].total == h[i].total && i <= j)
  {
    forall i: nat | i < |h|
      ensures IsWinner(BoardRule(cfg), h, i) <==>
        && h[i].passed && h[i].modsOk
        && (cfg.allBoards || cfg.status(h[i].beatmap) in {Ranked, Approved, Qualified, Loved})
        && forall j | 0 <= j < |h| && h[j].passed && h[j].modsOk && h[j].account == h[i].account &&
                      h[j].beatmap == h[i].beatmap && h[j].mods == h[i].mods ::
             h[j].total < h[i].total || (h[j].total == h[i].total && i <= j)
    {
      assert forall j | 0 <= j < |h| :: SameKeys(BoardRule(cfg), h[j], h[i]) <==> SameKey(h[j], h[i]);
      assert forall j | 0 <= j < |h| :: Worth(BoardRule(cfg), h[j]) == h[j].total as real;
    }
  }

  /** The row a play displaces in the rebuilt table, if any. */
  ghost predicate Incumbent(rows: set<Row>, p: Play, held: Option<Row>) {
    match held
    case Some(r) => r in rows && RowMatches(r, p)
    case None => forall r | r in rows :: !RowMatches(r, p)
  }

  /** One more play changes only the row of its key, and only if it is strictly better. */
  lemma RebuiltStep(cfg: Config, h: seq<Play>, p: Play, held: Option<Row>)
    requires Incumbent(RebuiltRows(cfg, h), p, held)
    ensures RebuiltRows(cfg, h + [p]) ==
      if !OnBoard(cfg, p) then RebuiltRows(cfg, h)
      else if held.None? then RebuiltRows(cfg, h) + {RowOf(p)}
      else if p.total > held.value.total then RebuiltRows(cfg, h) - {held.value} + {RowOf(p)}
      else RebuiltRows(cfg, h)
  {
    WinnersStep(BoardRule(cfg), h, p, held);
  }

  /** The highest rebuilt row of a map carries the best total of the map. */
  lemma RebuiltTop(cfg: Config, h: seq<Play>, a: Account, m: int, top: Option<Row>)
    requires cfg.BoardMap(m) && IsFirst(MapRows(RebuiltRows(cfg, h), a, m), top)
    ensures top.Some? <==> exists p :: p in h && Eligible(p, a, m)
    ensures top.Some? ==> top.value.total == Best(h, a, m)
  {
    BestIsMaximum(h, a, m);
    if top.Some? {
      var i := RebuiltPlay(cfg, h, top.value);
      assert h[i] in h && Eligible(h[i], a, m);
    }
    forall p | p in h && Eligible(p, a, m)
      ensures top.Some? && p.total <= top.value.total
    {
      var k :| 0 <= k < |h| && h[k] == p;
      var i := RebuiltHasKey(cfg, h, k);
      assert RowOf(h[i]) in MapRows(RebuiltRows(cfg, h), a, m);
    }
  }

  /** Case four with a new leader: the row of another mod set is deleted. */
  predicate DeletesOther(cfg: Config, p: Play, best: Option<Row>, bestMod: Option<Row>) {
    OnBoard(cfg, p) && best.Some? && bestMod.Some? && best.value.scoreId != bestMod.value.scoreId &&
    Difference(p, best) > 0
  }

  /** When case four deletes the best row of the map, the update of the mod row below it always fires: the
      play's own row takes over as the best of the map. */
  lemma DeletedBestIsReplaced(cfg: Config, accounts: set<Account>, h: seq<Play>, rows: set<Row>, p: Play,
                              best: Option<Row>, bestMod: Option<Row>)
    requires BoardInv(cfg, accounts, h, rows) && UniqueIds(h + [p]) && p.account in accounts
    requires LegalPicks(cfg, rows, p, best, bestMod) && DeletesOther(cfg, p, best, bestMod)
    ensures bestMod.value.total < p.total && p.total == Best(h + [p], p.account, p.beatmap)
    ensures
      var after := RowsAfter(cfg, rows, p, best, bestMod);
      best.value !in after && bestMod.value !in after && RowOf(p) in after
  {
    assert SlotOk(cfg, accounts, h, rows, p.account, p.beatmap);
    var slot := MapRows(rows, p.account, p.beatmap);
    assert SlotPicks(slot, p, best, bestMod);
    UniqueIdsPrefix(h + [p]);
    Snoc(h, p);
    PicksOnSlot(h, slot, p, best, bestMod);
    FirstIsBest(h, slot, p.account, p.beatmap, best);
    MachineMeaning(h, slot, p, best, bestMod);
    MachineIsLocal(rows, p, best, bestMod, p.account, p.beatmap);
  }

  /** A play p, a worse play q with other mods, and a play r with the mods of q that beats both. */
  ghost predicate Overtakes(cfg: Config, p: Play, q: Play, r: Play) {
    && p.account == q.account == r.account && p.beatmap == q.beatmap == r.beatmap
    && OnBoard(cfg, p) && OnBoard(cfg, q) && OnBoard(cfg, r)
    && q.total < p.total < r.total && p.mods != q.mods == r.mods
    && p.id != q.id && p.id != r.id && q.id != r.id
  }

  /** The deleted row is really lost: the live table is left with one row where the rebuilt one has two. */
  lemma CaseFourLosesRow(cfg: Config, p: Play, q: Play, r: Play)
    requires Overtakes(cfg, p, q, r)
    ensures exists s :: Reaches(cfg, {p.account}, [p, q, r], s) && s.rows == {RowOf(r)}
    ensures RowOf(p) in RebuiltRows(cfg, [p, q, r]) && RowOf(r) in RebuiltRows(cfg, [p, q, r])
  {
    var h := [p, q, r];
    var s := AfterTwo(cfg, p, q);
    OvertakingPicks(cfg, p, q, r, s);
    var t := NextState(cfg, {p.account}, [p, q], s, r, Some(RowOf(p)), Some(RowOf(q)));
    assert [p, q] + [r] == h;
    BothRebuilt(cfg, p, q, r, h);
  }

  lemma OvertakingPicks(cfg: Config, p: Play, q: Play, r: Play, s: State)
    requires Overtakes(cfg, p, q, r) && s.rows == {RowOf(p), RowOf(q)}
    ensures LegalPicks(cfg, s.rows, r, Some(RowOf(p)), Some(RowOf(q)))
    ensures RowsAfter(cfg, s.rows, r, Some(RowOf(p)), Some(RowOf(q))) == {RowOf(r)}
  {
    assert MapRows(s.rows, r.account, r.beatmap) == s.rows;
    assert WithMods(s.rows, r.mods) == {RowOf(q)};
  }

  lemma BothRebuilt(cfg: Config, p: Play, q: Play, r: Play, h: seq<Play>)
    requires Overtakes(cfg, p, q, r) && h == [p, q, r]
    ensures RowOf(p) in RebuiltRows(cfg, h) && RowOf(r) in RebuiltRows(cfg, h)
  {
    assert IsWinner(BoardRule(cfg), h, 0);
    assert IsWinner(BoardRule(cfg), h, 2);
  }

  lemma AfterTwo(cfg: Config, p: Play, q: Play) returns (s: State)
    requires OnBoard(cfg, p) && OnBoard(cfg, q) && p.account == q.account && p.beatmap == q.beatmap && p.mods != q.mods
    ensures Reaches(cfg, {p.account}, [p, q], s) && s.rows == {RowOf(p), RowOf(q)} && s.stats.Keys == {p.account}
    ensures MapRows(s.rows, p.account, p.beatmap) == s.rows
  {
    var a, m := p.account, p.beatmap;
    var s0 := Fresh({a});
    assert MapRows(s0.rows, a, m) == {} && WithMods({}, p.mods) == {};
    var s1 := NextState(cfg, {a}, [], s0, p, None, None);
    assert [] + [p] == [p] && [p] + [q] == [p, q];
    assert s1.rows == {RowOf(p)} && MapRows(s1.rows, a, m) == s1.rows && WithMods(s1.rows, q.mods) == {};
    s := NextState(cfg, {a}, [p], s1, q, Some(RowOf(p)), None);
  }

  /** After a play on a board, some row of its mod set is at least as good. */
  lemma RowOfPlayStays(cfg: Config, accounts: set<Account>, h: seq<Play>, rows: set<Row>, p: Play,
                       best: Option<Row>, bestMod: Option<Row>)
    requires BoardInv(cfg, accounts, h, rows) && UniqueIds(h + [p]) && p.account in accounts && OnBoard(cfg, p)
    requires LegalPicks(cfg, rows, p, best, bestMod)
    ensures exists r :: r in RowsAfter(cfg, rows, p, best, bestMod) && RowMatches(r, p) && p.total <= r.total
  {
    assert SlotOk(cfg, accounts, h, rows, p.account, p.beatmap);
    var slot := MapRows(rows, p.account, p.beatmap);
    assert SlotPicks(slot, p, best, bestMod);
    MachineMeaning(h, slot, p, best, bestMod);
    MachineIsLocal(rows, p, best, bestMod, p.account, p.beatmap);
    var after := RowMachine(slot, p, best, bestMod);
    assert after == MapRows(RowsAfter(cfg, rows, p, best, bestMod), p.account, p.beatmap);
    if RowOf(p) in after {
      assert RowMatches(RowOf(p), p);
    } else {
      assert bestMod.value in after && RowMatches(bestMod.value, p);
    }
  }

  // ----- Processing a play again.

  /** A row of the play's mods is at least as good as the play. */
  ghost predicate Covered(rows: set<Row>, p: Play) {
    exists r :: r in rows && RowMatches(r, p) && p.total <= r.total
  }

  function Matching(rows: set<Row>, p: Play): set<Row> {
    set r | r in rows && RowMatches(r, p)
  }

  /** The rows after processing again a play that was processed before: it takes over the row of its mods if
      that is worse, or brings the row back if it is gone. */
  lemma RerunRows(cfg: Config, accounts: set<Account>, h: seq<Play>, rows: set<Row>, p: Play, best: Option<Row>,
                  bestMod: Option<Row>)
    requires BoardInv(cfg, accounts, h, rows) && UniqueIds(h) && p in h && p.account in accounts && OnBoard(cfg, p)
    requires LegalPicks(cfg, rows, p, best, bestMod)
    ensures Difference(p, best) <= 0
    ensures RowsAfter(cfg, rows, p, best, bestMod) ==
      if Covered(rows, p) then rows else rows - Matching(rows, p) + {RowOf(p)}
  {
    assert SlotOk(cfg, accounts, h, rows, p.account, p.beatmap);
    var slot := MapRows(rows, p.account, p.beatmap);
    FirstIsBest(h, slot, p.account, p.beatmap, best);
    BestIsMaximum(h, p.account, p.beatmap);
    PicksOnSlot(h, slot, p, best, bestMod);
    MatchingIsPicked(h, rows, p, bestMod);
  }

  lemma MatchingIsPicked(h: seq<Play>, rows: set<Row>, p: Play, bestMod: Option<Row>)
    requires SlotInv(h, MapRows(rows, p.account, p.beatmap), p.account, p.beatmap)
    requires IsFirst(WithMods(MapRows(rows, p.account, p.beatmap), p.mods), bestMod)
    ensures Matching(rows, p) == if bestMod.Some? then {bestMod.value} else {}
    ensures Covered(rows, p) <==> bestMod.Some? && p.total <= bestMod.value.total
  {
    assert forall r | r in rows && RowMatches(r, p) :: r in WithMods(MapRows(rows, p.account, p.beatmap), p.mods);
  }

  /** A play that improves nothing only adds its total; one that is found to improve changes ranked score. */
  lemma StatsMoveIffImproved(cfg: Config, s: Stats, p: Play, best: Option<Row>)
    ensures StatsAfter(cfg, s, p, best) == s.(totalScore := s.totalScore + p.total) <==>
      !(Difference(p, best) > 0 && OnRanked(cfg, p))
  {
  }

  /** The play's total is added once more, and nothing else of the statistics moves. */
  ghost predicate AddsTotalOnly(s: State, p: Play, u: State)
    requires p.account in s.stats
  {
    u.stats == s.stats[p.account := s.stats[p.account].(totalScore := s.stats[p.account].totalScore + p.total)]
  }

  /** Processing a play again, at any later time: it adds its total once more; nothing else of the statistics
      moves exactly if it was not counted without a leaderboard.  On the board it only ever brings back or
      improves the row of its own mods. */
  lemma RerunAtAnyTime(cfg: Config, accounts: set<Account>, h: seq<Play>, s: State, p: Play, u: State)
    requires UniqueIds(h) && Reaches(cfg, accounts, h, s) && p in h && p.account in accounts && Step(cfg, s, p, u)
    ensures p.account in s.stats
    ensures u.rows ==
      if OnBoard(cfg, p) && !Covered(s.rows, p) then s.rows - Matching(s.rows, p) + {RowOf(p)} else s.rows
    ensures AddsTotalOnly(s, p, u) <==> (OnRanked(cfg, p) && p.total > 0 ==> cfg.BoardMap(p.beatmap))
  {
    BoardReachable(cfg, accounts, h, s);
    var best, bestMod :| StepWith(cfg, s, p, best, bestMod, u);
    if OnBoard(cfg, p) {
      RerunRows(cfg, accounts, h, s.rows, p, best, bestMod);
    } else {
      assert SlotOk(cfg, accounts, h, s.rows, p.account, p.beatmap);
    }
    RerunStats(cfg, s, p, best, u);
  }

  lemma RerunStats(cfg: Config, s: State, p: Play, best: Option<Row>, u: State)
    requires p.account in s.stats && u.stats == s.stats[p.account := StatsAfter(cfg, s.stats[p.account], p, best)]
    requires OnBoard(cfg, p) ==> Difference(p, best) <= 0
    requires OnRanked(cfg, p) && !cfg.BoardMap(p.beatmap) ==> best.None?
    ensures AddsTotalOnly(s, p, u) <==> (OnRanked(cfg, p) && p.total > 0 ==> cfg.BoardMap(p.beatmap))
  {
    var was := s.stats[p.account];
    StatsMoveIffImproved(cfg, was, p, best);
    var plain := s.stats[p.account := was.(totalScore := was.totalScore + p.total)];
    assert u.stats == plain <==> u.stats[p.account] == plain[p.account] by {
      assert u.stats == s.stats[p.account := u.stats[p.account]];
    }
  }

  /** Processing it again right away never moves the rows. */
  lemma RerunAtOnce(cfg: Config, accounts: set<Account>, h: seq<Play>, s: State, p: Play, t: State, u: State)
    requires UniqueIds(h + [p]) && Reaches(cfg, accounts, h, s) && p.account in accounts
    requires Step(cfg, s, p, t) && Step(cfg, t, p, u)
    ensures u.rows == t.rows
  {
    Snoc(h, p);
    UniqueIdsPrefix(h + [p]);
    BoardReachable(cfg, accounts, h, s);
    var best, bestMod :| StepWith(cfg, s, p, best, bestMod, t);
    if OnBoard(cfg, p) {
      RowOfPlayStays(cfg, accounts, h, s.rows, p, best, bestMod);
    }
    assert Reaches(cfg, accounts, h + [p], t);
    assert p in h + [p];
    RerunAtAnyTime(cfg, accounts, h + [p], t, p, u);
  }

  // ----- The loop.

  ghost function MapOf(rows: set<Row>, m: int): set<Row> {
    set r | r in rows && r.beatmap == m
  }

  /** The dictionary lists, per map, exactly the rebuilt rows so far. */
  ghost predicate DictionaryOk(cfg: Config, h: seq<Play>, entries: map<int, seq<Row>>) {
    && (forall m | m in entries :: NoDuplicates(entries[m]) && Elements(entries[m]) == MapOf(RebuiltRows(cfg, h), m))
    && (forall r | r in RebuiltRows(cfg, h) :: r.beatmap in entries)
  }

  /** The position of the first row with these mods, or the length. */
  method FindMods(rows: seq<Row>, mods: set<string>) returns (k: nat)
    ensures k <= |rows| && (k < |rows| ==> rows[k].mods == mods)
    ensures forall i | 0 <= i < k :: rows[i].mods != mods
  {
    k := 0;
    while k < |rows| && rows[k].mods != mods
      invariant k <= |rows| && forall i | 0 <= i < k :: rows[i].mods != mods
      decreases |rows| - k
    {
      k := k + 1;
    }
  }

  lemma RemoveAt(rows: seq<Row>, k: nat, r: Row)
    requires k < |rows| && NoDuplicates(rows) && r !in rows
    ensures NoDuplicates(rows[..k] + rows[k + 1..] + [r])
    ensures Elements(rows[..k] + rows[k + 1..] + [r]) == Elements(rows) - {rows[k]} + {r}
  {
  }

  method BuildTotalScoreBestScores(cfg: Config, a: Account, scores: seq<Play>) returns (result: seq<Row>)
    requires forall p | p in scores :: p.account == a
    ensures NoDuplicates(result) && Elements(result) == RebuiltRows(cfg, scores)
  {
    var beatmapScores: map<int, seq<Row>> := map[];
    for n := 0 to |scores|
      invariant DictionaryOk(cfg, scores[..n], beatmapScores)
    {
      assert scores[..n + 1] == scores[..n] + [scores[n]] && scores[n] in scores;
      beatmapScores := BuildIteration(cfg, a, scores[..n], beatmapScores, scores[n]);
    }
    assert scores[..|scores|] == scores;
    forall m, r | m in beatmapScores && r in beatmapScores[m]
      ensures r.beatmap == m
    {
      assert r in Elements(beatmapScores[m]);
    }
    result := Flatten(beatmapScores);
    forall r
      ensures r in Elements(result) <==> r in RebuiltRows(cfg, scores)
    {
      if r in RebuiltRows(cfg, scores) {
        assert r in Elements(beatmapScores[r.beatmap]);
      }
      if r in result {
        assert r in Elements(beatmapScores[r.beatmap]);
      }
    }
  }

  /** All lists one after the other. */
  method Flatten(lists: map<int, seq<Row>>) returns (result: seq<Row>)
    requires forall m | m in lists :: NoDuplicates(lists[m]) && forall r | r in lists[m] :: r.beatmap == m
    ensures NoDuplicates(result)
    ensures forall r :: r in result <==> r.beatmap in lists && r in lists[r.beatmap]
  {
    result := [];
    var todo := lists.Keys;
    while todo != {}
      invariant todo <= lists.Keys
      invariant NoDuplicates(result)
      invariant forall r :: r in result <==> r.beatmap in lists && r.beatmap !in todo && r in lists[r.beatmap]
      decreases |todo|
    {
      var m := AnyMember(todo);
      result := result + lists[m];
      todo := todo - {m};
    }
  }

  lemma UpdateDictionary(cfg: Config, h: seq<Play>, p: Play, entries: map<int, seq<Row>>, list: seq<Row>)
    requires DictionaryOk(cfg, h, entries)
    requires NoDuplicates(list) && Elements(list) == MapOf(RebuiltRows(cfg, h + [p]), p.beatmap)
    requires forall r: Row | r.beatmap != p.beatmap :: r in RebuiltRows(cfg, h + [p]) <==> r in RebuiltRows(cfg, h)
    ensures DictionaryOk(cfg, h + [p], entries[p.beatmap := list])
  {
  }

  method BuildIteration(cfg: Config, a: Account, ghost h: seq<Play>, beatmapScores: map<int, seq<Row>>, score: Play)
    returns (next: map<int, seq<Row>>)
    requires score.account == a && (forall p | p in h :: p.account == a)
    requires DictionaryOk(cfg, h, beatmapScores)
    ensures DictionaryOk(cfg, h + [score], next)
  {
    next := beatmapScores;
    ghost var rebuilt := RebuiltRows(cfg, h);
    if score.passed && cfg.BoardMap(score.beatmap) && score.modsOk {
      var newEntry := RowOf(score);
      var entries := if score.beatmap in next then next[score.beatmap] else [];
      var k := FindMods(entries, score.mods);
      assert Elements(entries) == MapOf(rebuilt, score.beatmap);
      assert forall r | r in entries :: r in rebuilt && r.account == a && r.beatmap == score.beatmap by {
        assert forall r | r in entries :: r in Elements(entries);
      }
      if k == |entries| {
        forall r | r in rebuilt
          ensures !RowMatches(r, score)
        {
          assert r.beatmap == score.beatmap ==> r in Elements(entries);
        }
        RebuiltStep(cfg, h, score, None);
        entries := entries + [newEntry];
        assert Elements(entries) == MapOf(rebuilt, score.beatmap) + {newEntry};
      } else {
        RebuiltStep(cfg, h, score, Some(entries[k]));
        if score.total > entries[k].total {
          if newEntry in entries {
            RebuiltKeyUnique(cfg, h, newEntry, entries[k]);
          }
          RemoveAt(entries, k, newEntry);
          assert MapOf(RebuiltRows(cfg, h + [score]), score.beatmap) ==
            MapOf(rebuilt, score.beatmap) - {entries[k]} + {newEntry};
          entries := entries[..k] + entries[k + 1..] + [newEntry];
        }
      }
      assert Elements(entries) == MapOf(RebuiltRows(cfg, h + [score]), score.beatmap);
      UpdateDictionary(cfg, h, score, next, entries);
      next := next[score.beatmap := entries];
    } else {
      ghost var held: Option<Row> := None;
      if r :| r in rebuilt && RowMatches(r, score) {
        held := Some(r);
      }
      RebuiltStep(cfg, h, score, held);
    }
  }
}
