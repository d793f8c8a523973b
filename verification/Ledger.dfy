/**
 The incremental side: one submission updates the leaderboard rows and the profile statistics in
 place (app/database/score.py, _process_statistics).

 The table is a set of rows.  The two look-ups take the first row of a query ordered by total score
 with no tie-break, so with tied totals any maximal row may come back: a step is a relation.
 */
module Ledger {
  import opened Common
  import opened Levels
  import opened Scores

  /** One row of total_score_best_scores. */
  datatype Row = Row(scoreId: int, account: Account, beatmap: int, mods: set<string>, total: int, rank: Rank)

  datatype Stats = Stats(
    totalScore: int,
    rankedScore: int,
    gradeSs: int,
    gradeSsh: int,
    gradeS: int,
    gradeSh: int,
    gradeA: int,
    levelCurrent: real,
    maximumCombo: int)
  {
    function Count(g: Grade): int {
      match g
      case GradeSS => gradeSs
      case GradeSSH => gradeSsh
      case GradeS => gradeS
      case GradeSH => gradeSh
      case GradeA => gradeA
    }
  }

  const ZeroStats := Stats(0, 0, 0, 0, 0, 0, 0, 1.0, 0)

  datatype State = State(rows: set<Row>, stats: map<Account, Stats>)

  function RowOf(p: Play): Row {
    Row(p.id, p.account, p.beatmap, p.mods, p.total, p.rank)
  }

  /** The play is eligible and its map keeps a leaderboard. */
  predicate OnBoard(cfg: Config, p: Play) {
    p.passed && p.modsOk && cfg.BoardMap(p.beatmap)
  }

  /** The play is eligible and its map counts for ranked score and grades. */
  predicate OnRanked(cfg: Config, p: Play) {
    p.passed && p.modsOk && cfg.RankedMap(p.beatmap)
  }

  function MapRows(rows: set<Row>, a: Account, m: int): set<Row> {
    set r | r in rows && r.account == a && r.beatmap == m
  }

  function WithMods(rows: set<Row>, mods: set<string>): set<Row> {
    set r | r in rows && r.mods == mods
  }

  /** r may be the first row of the query over `candidates`, ordered by total score descending. */
  ghost predicate IsFirst(candidates: set<Row>, r: Option<Row>) {
    match r
    case None => candidates == {}
    case Some(b) => b in candidates && forall x | x in candidates :: x.total <= b.total
  }

  lemma {:induction false} FirstExists(candidates: set<Row>)
    requires candidates != {}
    ensures exists b :: b in candidates && forall x | x in candidates :: x.total <= b.total
  {
    var c :| c in candidates;
    if candidates != {c} {
      FirstExists(candidates - {c});
      var b :| b in candidates - {c} && forall x | x in candidates - {c} :: x.total <= b.total;
      var top := if b.total < c.total then c else b;
      assert forall x | x in candidates :: x == c || x in candidates - {c};
      assert top in candidates && forall x | x in candidates :: x.total <= top.total;
    }
  }

  /** What the two look-ups may return for a play. */
  ghost predicate LegalPicks(cfg: Config, rows: set<Row>, p: Play, best: Option<Row>, bestMod: Option<Row>) {
    if p.passed && (OnRanked(cfg, p) || OnBoard(cfg, p)) then
      IsFirst(MapRows(rows, p.account, p.beatmap), best) &&
      IsFirst(WithMods(MapRows(rows, p.account, p.beatmap), p.mods), bestMod)
    else
      best.None? && bestMod.None?
  }

  function Difference(p: Play, best: Option<Row>): int {
    p.total - (if best.Some? then best.value.total else 0)
  }

  function AddGrade(s: Stats, rank: Rank, n: int): Stats {
    s.(gradeSs := s.gradeSs + (if rank.X? then n else 0),
       gradeSsh := s.gradeSsh + (if rank.XH? then n else 0),
       gradeS := s.gradeS + (if rank.S? then n else 0),
       gradeSh := s.gradeSh + (if rank.SH? then n else 0),
       gradeA := s.gradeA + (if rank.A? then n else 0))
  }

  /** The statistics after a play, given the row looked up as the previous best of the map. */
  ghost function StatsAfter(cfg: Config, s: Stats, p: Play, best: Option<Row>): Stats {
    var s1 := s.(totalScore := s.totalScore + p.total);
    if Difference(p, best) > 0 && OnRanked(cfg, p) then
      var s2 := AddGrade(s1, p.rank, 1);
      var s3 := if best.Some? then AddGrade(s2, best.value.rank, -1) else s2;
      s3.(rankedScore := s3.rankedScore + Difference(p, best),
          levelCurrent := ScoreToLevel(s3.totalScore),
          maximumCombo := if s3.maximumCombo < p.maxCombo then p.maxCombo else s3.maximumCombo)
    else s1
  }

  /** The four cases of the row machine, given both look-ups: no row yet, no row for these mods, the
      best row has these mods, another row is the best. */
  function RowMachine(rows: set<Row>, p: Play, best: Option<Row>, bestMod: Option<Row>): set<Row> {
    if best.None? || bestMod.None? then rows + {RowOf(p)}
    else if best.value.scoreId == bestMod.value.scoreId then
      if Difference(p, best) > 0 then rows - {best.value} + {Overwrite(best.value, p)} else rows
    else
      var kept := if Difference(p, best) > 0 then rows - {best.value} else rows;
      if p.total - bestMod.value.total > 0 then kept - {bestMod.value} + {Overwrite(bestMod.value, p)} else kept
  }

  /** The table after a play: only plays on a board reach the row machine. */
  function RowsAfter(cfg: Config, rows: set<Row>, p: Play, best: Option<Row>, bestMod: Option<Row>): set<Row> {
    if OnBoard(cfg, p) then RowMachine(rows, p, best, bestMod) else rows
  }

  /** An existing row takes over a play's total, rank and id; its keys stay. */
  function Overwrite(r: Row, p: Play): Row {
    r.(total := p.total, rank := p.rank, scoreId := p.id)
  }

  /** One submission.  Without a statistics row for the account it fails and changes nothing. */
  ghost predicate Step(cfg: Config, s: State, p: Play, t: State) {
    if p.account !in s.stats then t == s
    else exists best, bestMod :: StepWith(cfg, s, p, best, bestMod, t)
  }

  ghost predicate StepWith(cfg: Config, s: State, p: Play, best: Option<Row>, bestMod: Option<Row>, t: State)
    requires p.account in s.stats
  {
    && LegalPicks(cfg, s.rows, p, best, bestMod)
    && t.rows == RowsAfter(cfg, s.rows, p, best, bestMod)
    && t.stats == s.stats[p.account := StatsAfter(cfg, s.stats[p.account], p, best)]
  }

  /** The server's tables. */
  class Server {
    const config: Config
    var rows: set<Row>
    var statistics: map<Account, Stats>

    constructor (config: Config, accounts: set<Account>)
      ensures this.config == config
      ensures Contents() == Fresh(accounts)
    {
      this.config := config;
      rows := {};
      statistics := map a | a in accounts :: ZeroStats;
    }

    ghost function Contents(): State
      reads this
    {
      State(rows, statistics)
    }

    /** The first row of a query ordered by total score descending. */
    method First(candidates: set<Row>) returns (r: Option<Row>)
      ensures IsFirst(candidates, r)
    {
      if candidates == {} {
        return None;
      }
      FirstExists(candidates);
      var b :| b in candidates && forall x | x in candidates :: x.total <= b.total;
      return Some(b);
    }

    /** The counter part of a submission. */
    method UpdateCounters(before: Stats, p: Play, previousBest: Option<Row>, difference: int, ranked: bool)
      returns (s: Stats)
      requires difference == Difference(p, previousBest)
      requires ranked <==> config.RankedMap(p.beatmap) && p.modsOk
      ensures s == StatsAfter(config, before, p, previousBest)
    {
      s := before.(totalScore := before.totalScore + p.total);
      if difference > 0 && p.passed && ranked {
        s := AddGrade(s, p.rank, 1);
        if previousBest.Some? {
          s := AddGrade(s, previousBest.value.rank, -1);
        }
        s := s.(rankedScore := s.rankedScore + difference);
        var level := CalculateScoreToLevel(s.totalScore);
        s := s.(levelCurrent := level);
        s := s.(maximumCombo := if s.maximumCombo < p.maxCombo then p.maxCombo else s.maximumCombo);
      }
    }

    /** The leaderboard part of a submission. */
    method UpdateRows(p: Play, previousBest: Option<Row>, previousBestMod: Option<Row>, difference: int)
      requires difference == Difference(p, previousBest)
      modifies this`rows
      ensures rows == RowMachine(old(rows), p, previousBest, previousBestMod)
    {
      if previousBest.None? || previousBestMod.None? {
        rows := rows + {RowOf(p)};
      } else if previousBest.value.scoreId == previousBestMod.value.scoreId && difference > 0 {
        rows := rows - {previousBest.value} + {Overwrite(previousBest.value, p)};
      } else if previousBest.value.scoreId != previousBestMod.value.scoreId {
        if difference > 0 {
          rows := rows - {previousBest.value};
        }
        if p.total - previousBestMod.value.total > 0 {
          rows := rows - {previousBestMod.value} + {Overwrite(previousBestMod.value, p)};
        }
      }
    }

    method ProcessStatistics(p: Play) returns (ok: bool)
      modifies this
      ensures ok <==> p.account in old(statistics)
      ensures Step(config, old(Contents()), p, Contents())
    {
      var modsRanked := p.modsOk;
      var ranked := config.RankedMap(p.beatmap) && modsRanked;
      var hasLeaderboard := config.BoardMap(p.beatmap) && modsRanked;
      var previousBest, previousBestMod := None, None;
      if p.passed && (ranked || hasLeaderboard) {
        previousBest := First(MapRows(rows, p.account, p.beatmap));
        previousBestMod := First(WithMods(MapRows(rows, p.account, p.beatmap), p.mods));
      }
      if p.account !in statistics {
        return false;
      }
      var difference := p.total - (if previousBest.Some? then previousBest.value.total else 0);
      var s := UpdateCounters(statistics[p.account], p, previousBest, difference, ranked);
      if p.passed && hasLeaderboard {
        UpdateRows(p, previousBest, previousBestMod, difference);
      }
      statistics := statistics[p.account := s];
      ok := true;
      assert StepWith(config, old(Contents()), p, previousBest, previousBestMod, Contents());
    }
  }

  function Fresh(accounts: set<Account>): State {
    State({}, map a | a in accounts :: ZeroStats)
  }

  /** s is a state the server can be in after the submissions h, whatever the look-ups returned. */
  ghost predicate Reaches(cfg: Config, accounts: set<Account>, h: seq<Play>, s: State) {
    if h == [] then s == Fresh(accounts)
    else exists before :: Reaches(cfg, accounts, Init(h), before) && Step(cfg, before, Last(h), s)
  }
}
