/**
 Building runs of the ledger: a step with chosen look-ups can always be taken.
 */
module Runs {
  import opened Common
  import opened Scores
  import opened Ledger

  /** A step with given look-ups, taken. */
  lemma NextState(cfg: Config, accounts: set<Account>, h: seq<Play>, s: State, p: Play, best: Option<Row>,
                  bestMod: Option<Row>)
    returns (t: State)
    requires Reaches(cfg, accounts, h, s) && p.account in s.stats && LegalPicks(cfg, s.rows, p, best, bestMod)
    ensures Reaches(cfg, accounts, h + [p], t) && t.rows == RowsAfter(cfg, s.rows, p, best, bestMod)
    ensures t.stats.Keys == s.stats.Keys
  {
    Snoc(h, p);
    t := State(RowsAfter(cfg, s.rows, p, best, bestMod),
               s.stats[p.account := StatsAfter(cfg, s.stats[p.account], p, best)]);
    assert StepWith(cfg, s, p, best, bestMod, t);
    assert Step(cfg, s, p, t);
  }

  /** A step with a chosen previous best. */
  lemma StepTo(cfg: Config, s: State, p: Play, best: Option<Row>) returns (bestMod: Option<Row>, t: State)
    requires p.account in s.stats
    requires if p.passed && (OnRanked(cfg, p) || OnBoard(cfg, p))
      then IsFirst(MapRows(s.rows, p.account, p.beatmap), best) else best.None?
    ensures StepWith(cfg, s, p, best, bestMod, t)
  {
    bestMod := None;
    if p.passed && (OnRanked(cfg, p) || OnBoard(cfg, p)) {
      var candidates := WithMods(MapRows(s.rows, p.account, p.beatmap), p.mods);
      if candidates != {} {
        FirstExists(candidates);
        var b :| b in candidates && forall x | x in candidates :: x.total <= b.total;
        bestMod := Some(b);
      }
    }
    t := State(RowsAfter(cfg, s.rows, p, best, bestMod),
               s.stats[p.account := StatsAfter(cfg, s.stats[p.account], p, best)]);
  }

  lemma SomeFirst(candidates: set<Row>) returns (r: Option<Row>)
    ensures IsFirst(candidates, r)
  {
    r := None;
    if candidates != {} {
      FirstExists(candidates);
      var b :| b in candidates && forall x | x in candidates :: x.total <= b.total;
      r := Some(b);
    }
  }

  /** Go on with any look-ups. */
  lemma GoOn(cfg: Config, accounts: set<Account>, h: seq<Play>, s: State, p: Play) returns (t: State)
    requires Reaches(cfg, accounts, h, s)
    ensures Reaches(cfg, accounts, h + [p], t) && Step(cfg, s, p, t)
  {
    Snoc(h, p);
    t := s;
    if p.account in s.stats {
      var best: Option<Row> := None;
      if p.passed && (OnRanked(cfg, p) || OnBoard(cfg, p)) {
        best := SomeFirst(MapRows(s.rows, p.account, p.beatmap));
      }
      var bestMod;
      bestMod, t := StepTo(cfg, s, p, best);
    }
    assert Step(cfg, s, p, t);
  }

  /** Some run. */
  lemma {:induction false} AnyRun(cfg: Config, accounts: set<Account>, h: seq<Play>) returns (s: State)
    ensures Reaches(cfg, accounts, h, s)
  {
    if h == [] {
      s := Fresh(accounts);
    } else {
      var before := AnyRun(cfg, accounts, Init(h));
      assert h == Init(h) + [Last(h)];
      s := GoOn(cfg, accounts, Init(h), before, Last(h));
    }
  }
}
