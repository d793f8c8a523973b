/**
 The best-score rebuild itself (tools/recalculate.py, recalc_score_pp and build_best_scores): pp is
 calculated again, with up to ten failures, then a dictionary is filled with strict-greater replacement.
 */
module PpRebuild {
  import opened Common
  import opened Scores
  import opened Ranking
  import opened BestScores
  import opened PpOrder
  import opened FirstBest

  const ATTEMPTS: nat := 10

  /** What a request ends with. */
  datatype Reply = RateLimited | HttpError | Received

  /** What the calculation ends with, when the map was received. */
  datatype Outcome = NoBeatmap | CalculateError | OtherError | Calculated(pp: real)

  /** One pass of the loop: the request for the beatmap, the request for its file, the calculation. */
  datatype Attempt = Attempt(beatmap: Reply, file: Reply, outcome: Outcome)

  /** What the passes amount to.  A rate limit is waited for and costs no attempt; a list that ends early is a
      run that was stopped, or, empty, a score that was not selected. */
  function Answer(passes: seq<Attempt>, left: nat): Option<real>
    decreases |passes|
  {
    if passes == [] || left == 0 then None
    else
      var now, rest := passes[0], passes[1..];
      if now.beatmap.RateLimited? then Answer(rest, left)
      else if now.beatmap.HttpError? then Answer(rest, left - 1)
      else if now.file.RateLimited? then Answer(rest, left)
      else if now.file.HttpError? then Answer(rest, left - 1)
      else
        match now.outcome
        case Calculated(pp) => Some(pp)
        case CalculateError => Answer(rest, left - 1)
        case _ => None
  }

  /** The places where a pass fails and may be followed by another one. */
  function Failures(passes: seq<Attempt>): set<nat> {
    set i: nat | i < |passes| &&
      (passes[i].beatmap == HttpError
       || (passes[i].beatmap == Received && passes[i].file == HttpError)
       || (passes[i].beatmap == Received && passes[i].file == Received && passes[i].outcome == CalculateError))
  }

  /** A pass that calculates, with fewer than `limit` failures and nothing final before it. */
  ghost predicate Decides(passes: seq<Attempt>, k: nat, limit: nat) {
    && k < |passes| && passes[k].beatmap == passes[k].file == Received && passes[k].outcome.Calculated?
    && |Failures(passes[..k])| < limit
    && forall i | 0 <= i < k && passes[i].beatmap == passes[i].file == Received :: passes[i].outcome == CalculateError
  }

  lemma FailuresSplit(passes: seq<Attempt>)
    requires passes != []
    ensures |Failures(passes)| == |Failures(passes[..1])| + |Failures(passes[1..])|
  {
    var head, tail := Failures(passes[..1]), Failures(passes[1..]);
    var moved := set i | i in tail :: i + 1;
    Shifted(tail, moved);
    assert Failures(passes) == head + moved by {
      forall i: nat
        ensures i in Failures(passes) <==> i in head + moved
      {
        if i in Failures(passes) && i > 0 {
          assert i - 1 in tail;
        }
      }
    }
  }

  lemma {:induction false} Shifted(s: set<nat>, t: set<nat>)
    requires t == set i | i in s :: i + 1
    ensures |t| == |s|
  {
    if s != {} {
      var x :| x in s;
      var rest := set i | i in s - {x} :: i + 1;
      forall y | y in t - {x + 1}
        ensures y in rest
      {
        assert y - 1 in s - {x};
      }
      assert rest == t - {x + 1};
      Shifted(s - {x}, t - {x + 1});
    }
  }

  /** The failures of the first pass. */
  function FailsAtOnce(now: Attempt): nat {
    if now.beatmap == HttpError || (now.beatmap == Received && now.file == HttpError)
       || (now.beatmap == now.file == Received && now.outcome == CalculateError) then 1 else 0
  }

  lemma FirstPass(passes: seq<Attempt>)
    requires passes != []
    ensures |Failures(passes[..1])| == FailsAtOnce(passes[0])
  {
    assert Failures(passes[..1]) == if FailsAtOnce(passes[0]) == 1 then {0} else {};
  }

  lemma DecidesLater(passes: seq<Attempt>, k: nat, limit: nat)
    requires passes != [] && k > 0
    ensures Decides(passes, k, limit) <==>
      && FailsAtOnce(passes[0]) <= limit && Decides(passes[1..], k - 1, limit - FailsAtOnce(passes[0]))
      && (passes[0].beatmap == passes[0].file == Received ==> passes[0].outcome == CalculateError)
  {
    if k < |passes| {
      var head, rest := passes[..k], passes[1..];
      FailuresSplit(head);
      FirstPass(passes);
      assert head[..1] == passes[..1] && head[1..] == rest[..k - 1];
      assert forall i | 0 < i < k :: passes[i] == rest[i - 1];
    }
  }

  /** What the passes amount to is what the first pass that calculates says, if fewer than `limit` failures and no
      missing beatmap or other error stand before it. */
  lemma {:induction false} AnswerExact(passes: seq<Attempt>, limit: nat)
    ensures forall k: nat | Decides(passes, k, limit) :: Answer(passes, limit) == Some(passes[k].outcome.pp)
    ensures Answer(passes, limit).Some? ==> exists k: nat :: Decides(passes, k, limit)
    decreases |passes|
  {
    if passes != [] {
      var now, rest, fails := passes[0], passes[1..], FailsAtOnce(passes[0]);
      assert passes[..0] == [] && Failures([]) == {};
      if fails <= limit {
        AnswerExact(rest, limit - fails);
      }
      forall k: nat | k > 0
        ensures Decides(passes, k, limit) <==>
          && fails <= limit && Decides(rest, k - 1, limit - fails)
          && (now.beatmap == now.file == Received ==> now.outcome == CalculateError)
      {
        DecidesLater(passes, k, limit);
      }
      if limit > 0 && now.beatmap == now.file == Received && now.outcome.Calculated? {
        assert Decides(passes, 0, limit);
      } else if Answer(passes, limit).Some? {
        var k: nat :| Decides(rest, k, limit - fails);
        assert Decides(passes, k + 1, limit);
      }
    }
  }

  /** Waiting for a rate limit changes nothing. */
  lemma {:induction false} RateLimitsAreFree(before: seq<Attempt>, wait: Attempt, behind: seq<Attempt>, limit: nat)
    requires wait.beatmap == RateLimited || (wait.beatmap == Received && wait.file == RateLimited)
    ensures Answer(before + [wait] + behind, limit) == Answer(before + behind, limit)
    decreases |before|
  {
    if before == [] {
      assert ([wait] + behind)[1..] == behind;
      assert before + [wait] + behind == [wait] + behind && before + behind == behind;
    } else {
      var rest := before[1..];
      assert (before + [wait] + behind)[1..] == rest + [wait] + behind && (before + behind)[1..] == rest + behind;
      RateLimitsAreFree(rest, wait, behind, limit);
      if limit > 0 {
        RateLimitsAreFree(rest, wait, behind, limit - 1);
      }
    }
  }

  /** The second calculation of a passed score, and the pp it leaves with the score: none outside the gates, else
      what the deciding pass says, or what was stored if there is none. */
  method RecalcScorePp(cfg: Config, score: PpPlay, stored: real, passes: seq<Attempt>) returns (pp: real)
    requires score.passed && stored == StoredPp(cfg, score)
    ensures pp == PpAfterTool(cfg, Answer(passes, ATTEMPTS), score)
    ensures
      var open := score.modsOk && (cfg.allPp || cfg.status(score.beatmap) in {Ranked, Approved})
                  && (score.relaxOrAutopilot ==> score.accuracy >= 0.75);
      && (!open ==> pp == 0.0)
      && (open ==> forall k: nat | Decides(passes, k, 10) :: pp == passes[k].outcome.pp)
      && (open && (forall k: nat :: !Decides(passes, k, 10)) ==> pp == stored)
  {
    AnswerExact(passes, 10);
    pp := stored;
    var attempts, i := ATTEMPTS, 0;
    while attempts > 0 && i < |passes|
      invariant 0 <= i <= |passes| && pp == stored
      invariant Answer(passes[i..], attempts) == Answer(passes, ATTEMPTS)
      decreases |passes| - i
    {
      var now := passes[i];
      assert passes[i..][0] == now && passes[i..][1..] == passes[i + 1..];
      i := i + 1;
      if now.beatmap.Received? {
        var ranked := cfg.PpMap(score.beatmap);
        if !ranked || !score.modsOk {
          return 0.0;
        }
        if score.relaxOrAutopilot && score.accuracy < 0.75 {
          return 0.0;
        }
        if now.file.Received? {
          match now.outcome
          case Calculated(newPp) => return newPp;
          case CalculateError => attempts := attempts - 1;
          case _ => return stored;
        } else if now.file.HttpError? {
          attempts := attempts - 1;
        }
      } else if now.beatmap.HttpError? {
        attempts := attempts - 1;
      }
    }
  }

  /** What the tool's passes over each play answer. */
  function AnswersOf(passes: PpPlay -> seq<Attempt>): Answers {
    p => Answer(passes(p), ATTEMPTS)
  }

  /** The pp of every passed score has been calculated again. */
  ghost predicate Recalculated(cfg: Config, again: Answers, scores: seq<PpPlay>, pps: seq<real>) {
    |pps| == |scores| && forall i | 0 <= i < |scores| && scores[i].passed :: pps[i] == ToolPp(cfg, again, scores[i])
  }

  method RecalculateAll(cfg: Config, scores: seq<PpPlay>, stored: seq<real>, passes: PpPlay -> seq<Attempt>)
    returns (pps: seq<real>)
    requires |stored| == |scores| && forall i | 0 <= i < |scores| :: stored[i] == StoredPp(cfg, scores[i])
    ensures Recalculated(cfg, AnswersOf(passes), scores, pps)
  {
    pps := [];
    for n := 0 to |scores|
      invariant Recalculated(cfg, AnswersOf(passes), scores[..n], pps)
    {
      var pp := stored[n];
      if scores[n].passed {
        pp := RecalcScorePp(cfg, scores[n], pp, passes(scores[n]));
      }
      pps := pps + [pp];
    }
    assert scores[..|scores|] == scores;
  }

  /** The dictionary of the rebuild: per map, the first best play so far. */
  ghost predicate DictionaryOk(cfg: Config, again: Answers, h: seq<PpPlay>, bestPerMap: map<int, BestRow>) {
    && (forall m | m in bestPerMap :: bestPerMap[m] in ToolTable(cfg, again, h) && bestPerMap[m].data.beatmap == m)
    && (forall r | r in ToolTable(cfg, again, h) :: r.data.beatmap in bestPerMap)
  }

  function NextDictionary(cfg: Config, again: Answers, bestPerMap: map<int, BestRow>, p: PpPlay): map<int, BestRow> {
    var r := ToolRow(cfg, again, p);
    if r.pp > 0.0 && (p.beatmap !in bestPerMap || bestPerMap[p.beatmap].pp < r.pp) then bestPerMap[p.beatmap := r]
    else bestPerMap
  }

  lemma RowsOfAccount(cfg: Config, again: Answers, h: seq<PpPlay>, a: Account)
    requires forall p | p in h :: p.account == a
    ensures forall r | r in ToolTable(cfg, again, h) :: r.data.account == a
  {
    forall r | r in ToolTable(cfg, again, h)
      ensures r.data.account == a
    {
      var i := WinningPlay(ToolRule(cfg, again), h, r);
      assert h[i] in h;
    }
  }

  lemma RebuildStep(cfg: Config, again: Answers, h: seq<PpPlay>, a: Account, bestPerMap: map<int, BestRow>, p: PpPlay)
    requires (forall q | q in h :: q.account == a) && p.account == a && DictionaryOk(cfg, again, h, bestPerMap)
    ensures DictionaryOk(cfg, again, h + [p], NextDictionary(cfg, again, bestPerMap, p))
  {
    var rows, m := ToolTable(cfg, again, h), p.beatmap;
    RowsOfAccount(cfg, again, h, a);
    var held := if m in bestPerMap then Some(bestPerMap[m]) else None;
    assert Holds(ToolRule(cfg, again), rows, p, held);
    WinnersStep(ToolRule(cfg, again), h, p, held);
    forall r | r in rows && r.data.beatmap == m
      ensures held == Some(r)
    {
      RowUnique(ToolRule(cfg, again), h, r, bestPerMap[m]);
    }
  }

  /** The loop body: the gates, then strict-greater replacement. */
  method RebuildIteration(cfg: Config, again: Answers, previous: map<int, BestRow>, score: PpPlay, pp: real)
    returns (bestPerMap: map<int, BestRow>)
    requires score.passed ==> pp == ToolPp(cfg, again, score)
    ensures bestPerMap == NextDictionary(cfg, again, previous, score)
  {
    bestPerMap := previous;
    if score.passed && cfg.PpMap(score.beatmap) && score.modsOk {
      if !(score.relaxOrAutopilot && score.accuracy < 0.75) && pp > 0.0 {
        if score.beatmap !in bestPerMap || bestPerMap[score.beatmap].pp < pp {
          bestPerMap := bestPerMap[score.beatmap :=
            Entry(score.id, pp, BestInfo(score.account, score.beatmap, score.accuracy))];
        }
      }
    }
  }

  /** Rebuilding from the scores of one account, in the order they are read. */
  method BuildBestScores(cfg: Config, a: Account, scores: seq<PpPlay>, again: Answers, pps: seq<real>)
    returns (result: set<BestRow>)
    requires (forall p | p in scores :: p.account == a) && Recalculated(cfg, again, scores, pps)
    ensures result == ToolTable(cfg, again, scores)
  {
    var bestPerMap: map<int, BestRow> := map[];
    for n := 0 to |scores|
      invariant DictionaryOk(cfg, again, scores[..n], bestPerMap)
    {
      assert scores[..n + 1] == scores[..n] + [scores[n]] && scores[n] in scores;
      RebuildStep(cfg, again, scores[..n], a, bestPerMap, scores[n]);
      bestPerMap := RebuildIteration(cfg, again, bestPerMap, scores[n], pps[n]);
    }
    assert scores[..|scores|] == scores;
    result := set m | m in bestPerMap :: bestPerMap[m];
    DictionaryValues(cfg, again, scores, a, bestPerMap);
  }

  lemma DictionaryValues(cfg: Config, again: Answers, h: seq<PpPlay>, a: Account, bestPerMap: map<int, BestRow>)
    requires (forall p | p in h :: p.account == a) && DictionaryOk(cfg, again, h, bestPerMap)
    ensures (set m | m in bestPerMap :: bestPerMap[m]) == ToolTable(cfg, again, h)
  {
    RowsOfAccount(cfg, again, h, a);
    forall r | r in ToolTable(cfg, again, h)
      ensures bestPerMap[r.data.beatmap] == r
    {
      RowUnique(ToolRule(cfg, again), h, r, bestPerMap[r.data.beatmap]);
    }
  }
}
