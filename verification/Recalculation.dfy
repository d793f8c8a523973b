/**
 The statistics row rebuilt from a history (tools/recalculate.py, _recalculate_statistics).  The loop is
 proved against a closed form: sums over maps of the best total, and the grades of the plays that were first
 to reach it.
 */
module Recalculation {
  import opened Common
  import opened Levels
  import opened Scores
  import opened Ledger

  /** Which plays of a map count: the recalculation uses has_pp(), a live submission uses ranked(). */
  datatype Gate = PpGate | RankedGate

  predicate Open(cfg: Config, gate: Gate, m: int) {
    if gate.PpGate? then cfg.PpMap(m) else cfg.RankedMap(m)
  }

  /** Ranked score, map by map: the best eligible total. */
  ghost function BestCredits(cfg: Config, gate: Gate, h: seq<Play>, a: Account): map<int, int> {
    map m | m in Maps(h, a) :: BestCredit(cfg, gate, h, a, m)
  }

  function BestCredit(cfg: Config, gate: Gate, h: seq<Play>, a: Account, m: int): int {
    if Open(cfg, gate, m) then Best(h, a, m) else 0
  }

  function CreditedGrade(h: seq<Play>, a: Account, m: int): Option<Grade> {
    match BestPlay(h, a, m)
    case Some(p) => GradeOf(p.rank)
    case None => None
  }

  /** One grade counter, map by map: 1 where the credited play has that grade. */
  ghost function GradeCredits(cfg: Config, gate: Gate, h: seq<Play>, a: Account, g: Grade): map<int, int> {
    map m | m in Maps(h, a) :: GradeCredit(cfg, gate, h, a, g, m)
  }

  function GradeCredit(cfg: Config, gate: Gate, h: seq<Play>, a: Account, g: Grade, m: int): int {
    if Open(cfg, gate, m) && CreditedGrade(h, a, m) == Some(g) then 1 else 0
  }

  function MaxCombo(cfg: Config, gate: Gate, h: seq<Play>, a: Account): int {
    if h == [] then 0
    else
      var c := MaxCombo(cfg, gate, Init(h), a);
      var p := Last(h);
      if Eligible(p, a, p.beatmap) && Open(cfg, gate, p.beatmap) && p.maxCombo > c then p.maxCombo else c
  }

  /** The sums the recalculation must produce for a history. */
  ghost predicate Accumulates(cfg: Config, h: seq<Play>, a: Account, s: Stats) {
    && s.totalScore == TotalSum(h, a)
    && s.rankedScore == MapSum(BestCredits(cfg, PpGate, h, a))
    && (forall g: Grade :: s.Count(g) == MapSum(GradeCredits(cfg, PpGate, h, a, g)))
    && s.maximumCombo == MaxCombo(cfg, PpGate, h, a)
  }

  ghost predicate IsRebuilt(cfg: Config, h: seq<Play>, a: Account, s: Stats) {
    Accumulates(cfg, h, a, s) && s.levelCurrent == ScoreToLevel(s.totalScore)
  }

  /** These properties leave no freedom. */
  lemma RebuiltIsUnique(cfg: Config, h: seq<Play>, a: Account, s: Stats, t: Stats)
    requires IsRebuilt(cfg, h, a, s) && IsRebuilt(cfg, h, a, t)
    ensures s == t
  {
    assert forall g: Grade :: s.Count(g) == t.Count(g);
    assert s.Count(GradeSS) == t.Count(GradeSS) && s.Count(GradeSSH) == t.Count(GradeSSH)
        && s.Count(GradeS) == t.Count(GradeS) && s.Count(GradeSH) == t.Count(GradeSH)
        && s.Count(GradeA) == t.Count(GradeA);
  }

  lemma RebuiltExists(cfg: Config, h: seq<Play>, a: Account) returns (s: Stats)
    ensures IsRebuilt(cfg, h, a, s)
  {
    var count := (g: Grade) => MapSum(GradeCredits(cfg, PpGate, h, a, g));
    s := Stats(TotalSum(h, a), MapSum(BestCredits(cfg, PpGate, h, a)), count(GradeSS), count(GradeSSH), count(GradeS),
               count(GradeSH), count(GradeA), ScoreToLevel(TotalSum(h, a)), MaxCombo(cfg, PpGate, h, a));
    assert forall g: Grade :: s.Count(g) == count(g);
  }

  /** A play that is not eligible for a map leaves the map's credit alone. */
  lemma CreditFrame(h: seq<Play>, p: Play, a: Account, m: int)
    requires !Eligible(p, a, m)
    ensures Best(h + [p], a, m) == Best(h, a, m) && BestPlay(h + [p], a, m) == BestPlay(h, a, m)
  {
  }

  /** Credits kept per map, before and after a play of account a: only the play's map moves. */
  lemma CreditsUpdate(before: map<int, int>, after: map<int, int>, m: int)
    requires after.Keys == before.Keys + {m}
    requires forall n | n in before && n != m :: after[n] == before[n]
    ensures MapSum(after) == MapSum(before) + after[m] - (if m in before then before[m] else 0)
  {
    var updated := before[m := after[m]];
    forall n | n in after
      ensures n in updated && after[n] == updated[n]
    {
    }
    assert after == updated;
    MapSumUpdate(before, m, after[m]);
  }

  /** The best credit moves only on the map of the new play. */
  lemma BestCreditsStep(cfg: Config, gate: Gate, h: seq<Play>, a: Account, p: Play)
    requires p.account == a
    ensures
      MapSum(BestCredits(cfg, gate, h + [p], a)) ==
      MapSum(BestCredits(cfg, gate, h, a))
        + BestCredit(cfg, gate, h + [p], a, p.beatmap) - BestCredit(cfg, gate, h, a, p.beatmap)
  {
    MapsGrow(h, p, a);
    UnplayedMap(h, a, p.beatmap);
    var before, after := BestCredits(cfg, gate, h, a), BestCredits(cfg, gate, h + [p], a);
    forall m | m in before && m != p.beatmap
      ensures after[m] == before[m]
    {
      CreditFrame(h, p, a, m);
    }
    CreditsUpdate(before, after, p.beatmap);
  }

  lemma GradeCreditsStep(cfg: Config, gate: Gate, h: seq<Play>, a: Account, g: Grade, p: Play)
    requires p.account == a
    ensures
      MapSum(GradeCredits(cfg, gate, h + [p], a, g)) ==
      MapSum(GradeCredits(cfg, gate, h, a, g))
        + GradeCredit(cfg, gate, h + [p], a, g, p.beatmap) - GradeCredit(cfg, gate, h, a, g, p.beatmap)
  {
    MapsGrow(h, p, a);
    UnplayedMap(h, a, p.beatmap);
    var before, after := GradeCredits(cfg, gate, h, a, g), GradeCredits(cfg, gate, h + [p], a, g);
    forall m | m in before && m != p.beatmap
      ensures after[m] == before[m]
    {
      CreditFrame(h, p, a, m);
    }
    CreditsUpdate(before, after, p.beatmap);
  }

  lemma {:induction false} UnplayedMap(h: seq<Play>, a: Account, m: int)
    ensures m !in Maps(h, a) ==> Best(h, a, m) == 0 && BestPlay(h, a, m).None?
  {
    if h != [] {
      assert h == Init(h) + [Last(h)];
      MapsGrow(Init(h), Last(h), a);
      UnplayedMap(Init(h), a, m);
    }
  }

  /** The dictionary of best plays per map, as the loop keeps it. */
  ghost predicate CacheOk(cfg: Config, h: seq<Play>, a: Account, cached: map<int, Play>) {
    forall m | cfg.PpMap(m) :: BestPlay(h, a, m) == Lookup(cached, m)
  }

  /** What one iteration does to the counters, given the cached best play of the map. */
  function RebuildOne(cfg: Config, s: Stats, p: Play, previous: Option<Play>): Stats {
    var s1 := s.(totalScore := s.totalScore + p.total);
    if cfg.PpMap(p.beatmap) && p.modsOk && p.passed then
      var s2 := s1.(maximumCombo := if s1.maximumCombo < p.maxCombo then p.maxCombo else s1.maximumCombo);
      var difference := p.total - (if previous.Some? then previous.value.total else 0);
      if difference > 0 then
        var s3 := AddGrade(s2.(rankedScore := s2.rankedScore + difference), p.rank, 1);
        if previous.Some? then AddGrade(s3, previous.value.rank, -1) else s3
      else s2
    else s1
  }

  /** A positive difference is exactly a change of the credited play. */
  lemma CreditMoves(h: seq<Play>, a: Account, p: Play, m: int)
    requires Eligible(p, a, m)
    ensures
      var previous := BestPlay(h, a, m);
      var difference := p.total - (if previous.Some? then previous.value.total else 0);
      && Best(h + [p], a, m) == Best(h, a, m) + (if difference > 0 then difference else 0)
      && BestPlay(h + [p], a, m) == (if difference > 0 then Some(p) else previous)
  {
  }

  lemma RebuildGrade(cfg: Config, h: seq<Play>, a: Account, s: Stats, p: Play, previous: Option<Play>, g: Grade)
    requires p.account == a
    requires cfg.PpMap(p.beatmap) ==> BestPlay(h, a, p.beatmap) == previous
    ensures RebuildOne(cfg, s, p, previous).Count(g) == s.Count(g) +
      GradeCredit(cfg, PpGate, h + [p], a, g, p.beatmap) - GradeCredit(cfg, PpGate, h, a, g, p.beatmap)
  {
    var m := p.beatmap;
    if Eligible(p, a, m) {
      CreditMoves(h, a, p, m);
    } else {
      CreditFrame(h, p, a, m);
    }
  }

  lemma RebuildStep(cfg: Config, h: seq<Play>, a: Account, s: Stats, p: Play, previous: Option<Play>)
    requires Accumulates(cfg, h, a, s) && p.account == a
    requires cfg.PpMap(p.beatmap) ==> BestPlay(h, a, p.beatmap) == previous
    ensures Accumulates(cfg, h + [p], a, RebuildOne(cfg, s, p, previous))
  {
    var m, t := p.beatmap, RebuildOne(cfg, s, p, previous);
    Snoc(h, p);
    forall g: Grade
      ensures t.Count(g) == MapSum(GradeCredits(cfg, PpGate, h + [p], a, g))
    {
      RebuildGrade(cfg, h, a, s, p, previous, g);
      GradeCreditsStep(cfg, PpGate, h, a, g, p);
    }
    BestCreditsStep(cfg, PpGate, h, a, p);
    if Eligible(p, a, m) {
      CreditMoves(h, a, p, m);
    } else {
      CreditFrame(h, p, a, m);
    }
  }

  /** What one iteration does to the dictionary. */
  function CacheOne(cfg: Config, cached: map<int, Play>, p: Play, previous: Option<Play>): map<int, Play> {
    var difference := p.total - (if previous.Some? then previous.value.total else 0);
    if cfg.PpMap(p.beatmap) && p.modsOk && p.passed && difference > 0 then cached[p.beatmap := p] else cached
  }

  function Lookup(cached: map<int, Play>, m: int): Option<Play> {
    if m in cached then Some(cached[m]) else None
  }

  lemma CacheStep(cfg: Config, h: seq<Play>, a: Account, cached: map<int, Play>, p: Play)
    requires CacheOk(cfg, h, a, cached) && p.account == a
    ensures cfg.PpMap(p.beatmap) ==> BestPlay(h, a, p.beatmap) == Lookup(cached, p.beatmap)
    ensures CacheOk(cfg, h + [p], a, CacheOne(cfg, cached, p, Lookup(cached, p.beatmap)))
  {
    Snoc(h, p);
    BestPlayIsFirst(h, a, p.beatmap);
    forall m | !Eligible(p, a, m)
      ensures BestPlay(h + [p], a, m) == BestPlay(h, a, m)
    {
      CreditFrame(h, p, a, m);
    }
    if Eligible(p, a, p.beatmap) {
      CreditMoves(h, a, p, p.beatmap);
    }
  }

  /** The loop body: one play into the counters and the dictionary. */
  method RebuildIteration(cfg: Config, a: Account, ghost h: seq<Play>, s0: Stats, cached: map<int, Play>, score: Play)
    returns (s: Stats, cachedBest: map<int, Play>)
    requires score.account == a && Accumulates(cfg, h, a, s0) && CacheOk(cfg, h, a, cached)
    ensures Accumulates(cfg, h + [score], a, s) && CacheOk(cfg, h + [score], a, cachedBest)
  {
    s, cachedBest := s0, cached;
    var previous := Lookup(cachedBest, score.beatmap);
    s := s.(totalScore := s.totalScore + score.total);
    var ranked := cfg.PpMap(score.beatmap) && score.modsOk;
    if ranked && score.passed {
      s := s.(maximumCombo := if s.maximumCombo < score.maxCombo then score.maxCombo else s.maximumCombo);
      var difference := score.total - (if previous.Some? then previous.value.total else 0);
      if difference > 0 {
        cachedBest := cachedBest[score.beatmap := score];
        s := s.(rankedScore := s.rankedScore + difference);
        s := AddGrade(s, score.rank, 1);
        if previous.Some? {
          s := AddGrade(s, previous.value.rank, -1);
        }
      }
    }
    assert s == RebuildOne(cfg, s0, score, previous) && cachedBest == CacheOne(cfg, cached, score, previous);
    CacheStep(cfg, h, a, cached, score);
    RebuildStep(cfg, h, a, s0, score, previous);
  }

  /** The loop of the recalculation: counters and dictionary, one play at a time. */
  method RebuildCounters(cfg: Config, a: Account, scores: seq<Play>) returns (s: Stats)
    requires forall p | p in scores :: p.account == a
    ensures Accumulates(cfg, scores, a, s)
  {
    s := ZeroStats;
    var cachedBest: map<int, Play> := map[];
    assert Maps([], a) == {};
    for i := 0 to |scores|
      invariant CacheOk(cfg, scores[..i], a, cachedBest)
      invariant Accumulates(cfg, scores[..i], a, s)
    {
      s, cachedBest := RebuildIteration(cfg, a, scores[..i], s, cachedBest, scores[i]);
      assert scores[..i + 1] == scores[..i] + [scores[i]];
    }
    assert scores[..|scores|] == scores;
  }

  /** Rebuild one account's statistics row from its history; nothing else changes. */
  method RecalculateStatistics(server: Server, a: Account, scores: seq<Play>)
    requires a in server.statistics
    requires forall p | p in scores :: p.account == a
    modifies server`statistics
    ensures server.statistics.Keys == old(server.statistics.Keys)
    ensures forall b | b in server.statistics && b != a :: server.statistics[b] == old(server.statistics[b])
    ensures IsRebuilt(server.config, scores, a, server.statistics[a])
  {
    var s := RebuildCounters(server.config, a, scores);
    var level := CalculateScoreToLevel(s.totalScore);
    server.statistics := server.statistics[a := s.(levelCurrent := level)];
  }
}
