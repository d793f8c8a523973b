/**
 The grade counters, exactly, in every configuration.

 A live submission takes back the grade of the row it looked up; the recalculation takes back the grade
 of the play it credited.  With tied totals these can differ.  A first row with a total of zero is never
 credited, but its grade is taken back; on a ranked map without a leaderboard nothing is ever taken back.
 */
module Grades {
  import opened Common
  import opened Scores
  import opened Ledger
  import opened Board
  import opened Recalculation
  import opened Agreement
  import opened Reordering
  import opened Runs

  function RowGrade(r: Option<Row>): Option<Grade> {
    if r.Some? then GradeOf(r.value.rank) else None
  }

  function Holds(o: Option<Grade>, g: Grade): int {
    if o == Some(g) then 1 else 0
  }

  /** How far a counter is from the number of credited plays with that grade. */
  ghost function Drift(cfg: Config, h: seq<Play>, a: Account, s: Stats, g: Grade): int {
    s.Count(g) - MapSum(GradeCredits(cfg, RankedGate, h, a, g))
  }

  /** p takes the lead on its map. */
  predicate Improves(cfg: Config, h: seq<Play>, p: Play) {
    OnRanked(cfg, p) && p.total > Best(h, p.account, p.beatmap)
  }

  /** p takes the lead on a leaderboard. */
  predicate TakesLead(cfg: Config, h: seq<Play>, p: Play) {
    Improves(cfg, h, p) && cfg.BoardMap(p.beatmap)
  }

  /** Of p and the play credited before, the grade of the one that is not credited afterwards. */
  function Uncredited(cfg: Config, h: seq<Play>, p: Play): Option<Grade> {
    if Improves(cfg, h, p) then CreditedGrade(h, p.account, p.beatmap) else GradeOf(p.rank)
  }

  // ----- One step.

  /** How a submission moves the error of a counter when a row of grade `taken` is looked up. */
  function StepChange(cfg: Config, h: seq<Play>, p: Play, taken: Option<Grade>, g: Grade): int {
    if TakesLead(cfg, h, p) then Holds(CreditedGrade(h, p.account, p.beatmap), g) - Holds(taken, g)
    else if OnRanked(cfg, p) && !cfg.BoardMap(p.beatmap) && p.total > 0 then Holds(Uncredited(cfg, h, p), g)
    else 0
  }

  lemma GradeCreditsOther(cfg: Config, gate: Gate, h: seq<Play>, p: Play, a: Account, g: Grade)
    requires p.account != a
    ensures GradeCredits(cfg, gate, h + [p], a, g) == GradeCredits(cfg, gate, h, a, g)
  {
    MapsGrow(h, p, a);
    forall m | m in Maps(h, a)
      ensures GradeCredit(cfg, gate, h + [p], a, g, m) == GradeCredit(cfg, gate, h, a, g, m)
    {
      CreditFrame(h, p, a, m);
    }
  }

  lemma StepDrift(cfg: Config, accounts: set<Account>, h: seq<Play>, s: State, p: Play,
                  best: Option<Row>, bestMod: Option<Row>, t: State, g: Grade)
    requires BoardInv(cfg, accounts, h, s.rows)
    requires p.account in accounts && p.account in s.stats
    requires StepWith(cfg, s, p, best, bestMod, t)
    ensures Drift(cfg, h + [p], p.account, t.stats[p.account], g) ==
      Drift(cfg, h, p.account, s.stats[p.account], g) + StepChange(cfg, h, p, RowGrade(best), g)
  {
    var a, m := p.account, p.beatmap;
    GradeCreditsStep(cfg, RankedGate, h, a, g, p);
    if OnRanked(cfg, p) {
      PickIsBest(cfg, accounts, h, s.rows, p, best, bestMod);
      CreditMoves(h, a, p, m);
      BestPlayIsFirst(h, a, m);
      RankedStep(cfg, h, s.stats[a], p, best, g);
    } else {
      GateClosed(cfg, h, p, g);
    }
  }

  lemma CountedStep(cfg: Config, s: Stats, p: Play, best: Option<Row>, g: Grade)
    ensures StatsAfter(cfg, s, p, best).Count(g) == s.Count(g) +
      if Difference(p, best) > 0 && OnRanked(cfg, p) then Holds(GradeOf(p.rank), g) - Holds(RowGrade(best), g) else 0
  {
  }

  lemma CreditedStep(cfg: Config, h: seq<Play>, p: Play, g: Grade)
    requires OnRanked(cfg, p)
    requires BestPlay(h + [p], p.account, p.beatmap) ==
      if Improves(cfg, h, p) then Some(p) else BestPlay(h, p.account, p.beatmap)
    ensures GradeCredit(cfg, RankedGate, h + [p], p.account, g, p.beatmap) ==
      GradeCredit(cfg, RankedGate, h, p.account, g, p.beatmap) +
      if Improves(cfg, h, p) then Holds(GradeOf(p.rank), g) - Holds(CreditedGrade(h, p.account, p.beatmap), g) else 0
  {
  }

  /** The counters and the credits of one ranked play. */
  lemma RankedStep(cfg: Config, h: seq<Play>, s: Stats, p: Play, best: Option<Row>, g: Grade)
    requires OnRanked(cfg, p)
    requires
      if cfg.BoardMap(p.beatmap) then Best(h, p.account, p.beatmap) == (if best.Some? then best.value.total else 0)
      else best.None?
    requires BestPlay(h + [p], p.account, p.beatmap) ==
      if Improves(cfg, h, p) then Some(p) else BestPlay(h, p.account, p.beatmap)
    ensures StatsAfter(cfg, s, p, best).Count(g) ==
      s.Count(g) + StepChange(cfg, h, p, RowGrade(best), g)
      + GradeCredit(cfg, RankedGate, h + [p], p.account, g, p.beatmap)
        - GradeCredit(cfg, RankedGate, h, p.account, g, p.beatmap)
  {
    CountedStep(cfg, s, p, best, g);
    CreditedStep(cfg, h, p, g);
  }

  lemma GateClosed(cfg: Config, h: seq<Play>, p: Play, g: Grade)
    requires !OnRanked(cfg, p)
    ensures GradeCredit(cfg, RankedGate, h + [p], p.account, g, p.beatmap) ==
      GradeCredit(cfg, RankedGate, h, p.account, g, p.beatmap)
  {
  }

  /** Right counters stay right exactly when a lead takes back the credited grade, and when no grade is left
      uncredited on a map without a leaderboard. */
  lemma GradeStepExact(cfg: Config, accounts: set<Account>, h: seq<Play>, s: State, p: Play,
                       best: Option<Row>, bestMod: Option<Row>, t: State)
    requires BoardInv(cfg, accounts, h, s.rows)
    requires p.account in accounts && p.account in s.stats
    requires StepWith(cfg, s, p, best, bestMod, t)
    requires forall g :: Drift(cfg, h, p.account, s.stats[p.account], g) == 0
    ensures (forall g :: Drift(cfg, h + [p], p.account, t.stats[p.account], g) == 0) <==>
      && (TakesLead(cfg, h, p) ==> RowGrade(best) == CreditedGrade(h, p.account, p.beatmap))
      && (OnRanked(cfg, p) && !cfg.BoardMap(p.beatmap) && p.total > 0 ==> Uncredited(cfg, h, p).None?)
  {
    forall g {
      StepDrift(cfg, accounts, h, s, p, best, bestMod, t, g);
    }
    var a, m := p.account, p.beatmap;
    if TakesLead(cfg, h, p) {
      ApartOn(CreditedGrade(h, a, m), RowGrade(best));
      assert forall g ::
        StepChange(cfg, h, p, RowGrade(best), g) == Holds(CreditedGrade(h, a, m), g) - Holds(RowGrade(best), g);
    } else if OnRanked(cfg, p) && !cfg.BoardMap(m) && p.total > 0 {
      ApartOn(Uncredited(cfg, h, p), None);
      assert forall g :: StepChange(cfg, h, p, RowGrade(best), g) == Holds(Uncredited(cfg, h, p), g) - Holds(None, g);
    }
  }

  lemma ApartOn(x: Option<Grade>, y: Option<Grade>)
    ensures x == y <==> forall g :: Holds(x, g) == Holds(y, g)
  {
    if x != y {
      var g := if x.Some? then x.value else y.value;
      assert Holds(x, g) != Holds(y, g);
    }
  }

  // ----- What can be looked up.

  /** The first play to reach the best total, positive or not. */
  function Leader(h: seq<Play>, a: Account, m: int): Option<Play> {
    if h == [] then None
    else
      var leader := Leader(Init(h), a, m);
      if Eligible(Last(h), a, m) && (leader.None? || Last(h).total > leader.value.total) then Some(Last(h)) else leader
  }

  function LeaderGrade(h: seq<Play>, a: Account, m: int): Option<Grade> {
    if Leader(h, a, m).Some? then GradeOf(Leader(h, a, m).value.rank) else None
  }

  /** The row of h[j] may be looked up as the best of its map. */
  ghost predicate CanBePicked(h: seq<Play>, a: Account, m: int, j: nat) {
    j < |h| && Eligible(h[j], a, m) && h[j].total == Best(h, a, m) && Earliest(h, j, a, m)
  }

  lemma {:induction false} LeaderIsFirst(h: seq<Play>, a: Account, m: int) returns (j: nat)
    ensures Leader(h, a, m).None? ==> Best(h, a, m) == 0 && forall p | p in h :: !Eligible(p, a, m)
    ensures Leader(h, a, m).Some? ==>
      && j < |h| && h[j] == Leader(h, a, m).value && Eligible(h[j], a, m) && h[j].total == Best(h, a, m)
      && forall k | 0 <= k < j && Eligible(h[k], a, m) :: h[k].total < h[j].total
    ensures Best(h, a, m) > 0 ==> BestPlay(h, a, m) == Leader(h, a, m)
    ensures Best(h, a, m) == 0 ==> BestPlay(h, a, m).None?
  {
    j := 0;
    if h != [] {
      assert h == Init(h) + [Last(h)];
      j := LeaderIsFirst(Init(h), a, m);
      if Leader(h, a, m) != Leader(Init(h), a, m) || j >= |Init(h)| {
        j := |h| - 1;
      }
      BestIsMaximum(Init(h), a, m);
      assert forall k | 0 <= k < |h| - 1 :: h[k] == Init(h)[k] && h[k] in Init(h);
    }
  }

  lemma LeaderCanBePicked(h: seq<Play>, a: Account, m: int) returns (j: nat)
    requires Leader(h, a, m).Some?
    ensures CanBePicked(h, a, m, j) && h[j] == Leader(h, a, m).value
  {
    j := LeaderIsFirst(h, a, m);
  }

  lemma PickIsLegal(cfg: Config, accounts: set<Account>, h: seq<Play>, rows: set<Row>, a: Account, m: int, j: nat)
    requires BoardInv(cfg, accounts, h, rows) && a in accounts && cfg.BoardMap(m)
    requires CanBePicked(h, a, m, j)
    ensures IsFirst(MapRows(rows, a, m), Some(RowOf(h[j])))
  {
    assert SlotOk(cfg, accounts, h, rows, a, m);
    forall r | r in MapRows(rows, a, m)
      ensures r.total <= Best(h, a, m)
    {
      RowsBounded(h, MapRows(rows, a, m), a, m, r);
    }
  }

  // ----- The error of a whole history, when leaders are looked up.

  /** What a submission adds to the error when the leader's row is looked up: a lead taken over a zero total
      loses its grade, and a map without a leaderboard gains one. */
  function NetStep(cfg: Config, h: seq<Play>, p: Play, g: Grade): int {
    if TakesLead(cfg, h, p) && Best(h, p.account, p.beatmap) == 0 then -Holds(LeaderGrade(h, p.account, p.beatmap), g)
    else if OnRanked(cfg, p) && !cfg.BoardMap(p.beatmap) && p.total > 0 then Holds(Uncredited(cfg, h, p), g)
    else 0
  }

  /** Grades left uncredited without a leaderboard, less grades lost over zero totals. */
  function Net(cfg: Config, h: seq<Play>, a: Account, g: Grade): int {
    if h == [] then 0
    else Net(cfg, Init(h), a, g) + (if Last(h).account == a then NetStep(cfg, Init(h), Last(h), g) else 0)
  }

  lemma NetStepIsLeader(cfg: Config, h: seq<Play>, p: Play, g: Grade)
    ensures NetStep(cfg, h, p, g) == StepChange(cfg, h, p, LeaderGrade(h, p.account, p.beatmap), g)
  {
    var j := LeaderIsFirst(h, p.account, p.beatmap);
  }

  /** h[i] takes the lead while the row of h[j] ties for it with another grade than the leader's. */
  ghost predicate MixedTie(cfg: Config, h: seq<Play>, a: Account, i: nat, j: nat)
    requires i < |h|
  {
    && h[i].account == a && TakesLead(cfg, h[..i], h[i])
    && CanBePicked(h[..i], a, h[i].beatmap, j)
    && GradeOf(h[..i][j].rank) != LeaderGrade(h[..i], a, h[i].beatmap)
  }

  ghost predicate NoMixedTie(cfg: Config, h: seq<Play>, a: Account) {
    forall i: nat, j: nat | i < |h| :: !MixedTie(cfg, h, a, i, j)
  }

  lemma MixedTiePrefix(cfg: Config, h: seq<Play>, a: Account, i: nat, j: nat)
    requires h != [] && i < |h| - 1
    ensures MixedTie(cfg, Init(h), a, i, j) <==> MixedTie(cfg, h, a, i, j)
  {
    assert Init(h)[..i] == h[..i];
  }

  lemma NoMixedTieBefore(cfg: Config, h: seq<Play>, a: Account)
    requires h != [] && NoMixedTie(cfg, h, a)
    ensures NoMixedTie(cfg, Init(h), a)
  {
    forall i: nat, j: nat | i < |h| - 1
      ensures !MixedTie(cfg, Init(h), a, i, j)
    {
      MixedTiePrefix(cfg, h, a, i, j);
    }
  }

  lemma NoMixedTieLast(cfg: Config, h: seq<Play>, a: Account)
    requires h != [] && NoMixedTie(cfg, h, a) && Last(h).account == a && TakesLead(cfg, Init(h), Last(h))
    ensures OneGradeTied(Init(h), a, Last(h).beatmap)
  {
    assert h[..|h| - 1] == Init(h);
    forall j: nat | CanBePicked(Init(h), a, Last(h).beatmap, j)
      ensures GradeOf(Init(h)[j].rank) == LeaderGrade(Init(h), a, Last(h).beatmap)
    {
      assert !MixedTie(cfg, h, a, |h| - 1, j);
    }
  }

  /** All rows that may be looked up have the leader's grade. */
  ghost predicate OneGradeTied(h: seq<Play>, a: Account, m: int) {
    forall j: nat | CanBePicked(h, a, m, j) :: GradeOf(h[j].rank) == LeaderGrade(h, a, m)
  }

  /** Then whatever is looked up has it. */
  lemma PickHasLeaderGrade(cfg: Config, accounts: set<Account>, h: seq<Play>, rows: set<Row>, p: Play,
                           best: Option<Row>, bestMod: Option<Row>)
    requires BoardInv(cfg, accounts, h, rows) && p.account in accounts && TakesLead(cfg, h, p)
    requires LegalPicks(cfg, rows, p, best, bestMod)
    requires OneGradeTied(h, p.account, p.beatmap)
    ensures RowGrade(best) == LeaderGrade(h, p.account, p.beatmap)
  {
    var a, m := p.account, p.beatmap;
    PickIsBest(cfg, accounts, h, rows, p, best, bestMod);
    if best.Some? {
      var j :| 0 <= j < |h| && Eligible(h[j], a, m) && RowOf(h[j]) == best.value && Earliest(h, j, a, m);
      assert CanBePicked(h, a, m, j);
    } else {
      NoLeaderWithoutRows(cfg, accounts, h, rows, a, m);
    }
  }

  lemma NoLeaderWithoutRows(cfg: Config, accounts: set<Account>, h: seq<Play>, rows: set<Row>, a: Account, m: int)
    requires BoardInv(cfg, accounts, h, rows) && a in accounts && cfg.BoardMap(m) && MapRows(rows, a, m) == {}
    ensures Leader(h, a, m).None?
  {
    assert SlotOk(cfg, accounts, h, rows, a, m);
    assert forall p | p in h :: !Eligible(p, a, m);
    NoLeader(h, a, m);
  }

  lemma {:induction false} NoLeader(h: seq<Play>, a: Account, m: int)
    requires forall p | p in h :: !Eligible(p, a, m)
    ensures Leader(h, a, m).None?
  {
    if h != [] {
      assert h == Init(h) + [Last(h)];
      NoLeader(Init(h), a, m);
    }
  }

  lemma TieFreeStep(cfg: Config, accounts: set<Account>, h: seq<Play>, s: State, p: Play, t: State, g: Grade)
    requires BoardInv(cfg, accounts, h, s.rows) && s.stats.Keys == accounts && p.account in accounts
    requires Step(cfg, s, p, t)
    requires TakesLead(cfg, h, p) ==> OneGradeTied(h, p.account, p.beatmap)
    ensures p.account in t.stats
    ensures Drift(cfg, h + [p], p.account, t.stats[p.account], g) ==
      Drift(cfg, h, p.account, s.stats[p.account], g) + NetStep(cfg, h, p, g)
  {
    var best, bestMod :| StepWith(cfg, s, p, best, bestMod, t);
    StepDrift(cfg, accounts, h, s, p, best, bestMod, t, g);
    NetStepIsLeader(cfg, h, p, g);
    if TakesLead(cfg, h, p) {
      PickHasLeaderGrade(cfg, accounts, h, s.rows, p, best, bestMod);
    }
  }

  /** Without a mixed tie the error of a counter is the same in every run. */
  lemma {:induction false} NoTieNetDrift(cfg: Config, accounts: set<Account>, h: seq<Play>, s: State, a: Account,
                                         g: Grade)
    requires UniqueIds(h) && Reaches(cfg, accounts, h, s) && a in accounts && NoMixedTie(cfg, h, a)
    ensures a in s.stats && Drift(cfg, h, a, s.stats[a], g) == Net(cfg, h, a, g)
  {
    BoardReachable(cfg, accounts, h, s);
    if h == [] {
      assert Maps(h, a) == {};
    } else {
      var before :| Reaches(cfg, accounts, Init(h), before) && Step(cfg, before, Last(h), s);
      UniqueIdsPrefix(h);
      NoMixedTieBefore(cfg, h, a);
      NoTieNetDrift(cfg, accounts, Init(h), before, a, g);
      LastNetDrift(cfg, accounts, h, before, s, a, g);
    }
  }

  lemma LastNetDrift(cfg: Config, accounts: set<Account>, h: seq<Play>, before: State, s: State, a: Account, g: Grade)
    requires h != [] && UniqueIds(h) && a in accounts && NoMixedTie(cfg, h, a)
    requires Reaches(cfg, accounts, Init(h), before) && Step(cfg, before, Last(h), s)
    requires a in before.stats && Drift(cfg, Init(h), a, before.stats[a], g) == Net(cfg, Init(h), a, g)
    ensures a in s.stats && Drift(cfg, h, a, s.stats[a], g) == Net(cfg, h, a, g)
  {
    var p, front := Last(h), Init(h);
    UniqueIdsPrefix(h);
    BoardReachable(cfg, accounts, front, before);
    if p.account == a {
      if TakesLead(cfg, front, p) {
        NoMixedTieLast(cfg, h, a);
      }
      TieFreeStep(cfg, accounts, front, before, p, s, g);
    } else {
      GradeCreditsOther(cfg, RankedGate, front, p, a, g);
    }
  }

  // ----- The other direction: runs with chosen look-ups.

  /** Go on by looking up the row of h[wanted], or the leader's. */
  lemma Steer(cfg: Config, accounts: set<Account>, h: seq<Play>, s: State, p: Play, wanted: Option<nat>)
    returns (t: State)
    requires UniqueIds(h + [p]) && Reaches(cfg, accounts, h, s) && p.account in accounts
    requires wanted.Some? ==> TakesLead(cfg, h, p) && CanBePicked(h, p.account, p.beatmap, wanted.value)
    ensures Reaches(cfg, accounts, h + [p], t) && p.account in s.stats && p.account in t.stats
    ensures forall g ::
      Drift(cfg, h + [p], p.account, t.stats[p.account], g) == Drift(cfg, h, p.account, s.stats[p.account], g) +
      StepChange(cfg, h, p,
                 if wanted.Some? then GradeOf(h[wanted.value].rank) else LeaderGrade(h, p.account, p.beatmap), g)
  {
    var a, m := p.account, p.beatmap;
    Snoc(h, p);
    UniqueIdsPrefix(h + [p]);
    BoardReachable(cfg, accounts, h, s);
    var best := None;
    if TakesLead(cfg, h, p) {
      best := LeadPick(cfg, accounts, h, s.rows, p, wanted);
    } else if p.passed && (OnRanked(cfg, p) || OnBoard(cfg, p)) {
      best := SomeFirst(MapRows(s.rows, a, m));
    }
    var bestMod;
    bestMod, t := StepTo(cfg, s, p, best);
    assert Step(cfg, s, p, t);
    forall g {
      StepDrift(cfg, accounts, h, s, p, best, bestMod, t, g);
    }
  }

  lemma LeadPick(cfg: Config, accounts: set<Account>, h: seq<Play>, rows: set<Row>, p: Play, wanted: Option<nat>)
    returns (best: Option<Row>)
    requires BoardInv(cfg, accounts, h, rows) && p.account in accounts && TakesLead(cfg, h, p)
    requires wanted.Some? ==> CanBePicked(h, p.account, p.beatmap, wanted.value)
    ensures IsFirst(MapRows(rows, p.account, p.beatmap), best)
    ensures RowGrade(best) ==
      if wanted.Some? then GradeOf(h[wanted.value].rank) else LeaderGrade(h, p.account, p.beatmap)
  {
    var a, m := p.account, p.beatmap;
    if wanted.Some? || Leader(h, a, m).Some? {
      var j: nat;
      if wanted.Some? {
        j := wanted.value;
      } else {
        j := LeaderCanBePicked(h, a, m);
      }
      PickIsLegal(cfg, accounts, h, rows, a, m, j);
      best := Some(RowOf(h[j]));
    } else {
      best := SomeFirst(MapRows(rows, a, m));
      NoRowsWithoutLeader(cfg, accounts, h, rows, a, m);
    }
  }

  lemma NoRowsWithoutLeader(cfg: Config, accounts: set<Account>, h: seq<Play>, rows: set<Row>, a: Account, m: int)
    requires BoardInv(cfg, accounts, h, rows) && a in accounts && cfg.BoardMap(m) && Leader(h, a, m).None?
    ensures MapRows(rows, a, m) == {}
  {
    assert SlotOk(cfg, accounts, h, rows, a, m);
    var j := LeaderIsFirst(h, a, m);
  }

  /** What picking h[j] instead of the leader at h[i] adds to the error. */
  function Detour(h: seq<Play>, a: Account, i: nat, j: nat, g: Grade): int {
    if i < |h| && j < i then Holds(LeaderGrade(h[..i], a, h[i].beatmap), g) - Holds(GradeOf(h[j].rank), g) else 0
  }

  ghost predicate CanDetour(cfg: Config, h: seq<Play>, a: Account, i: nat, j: nat) {
    i < |h| ==> h[i].account == a && TakesLead(cfg, h[..i], h[i]) && CanBePicked(h[..i], a, h[i].beatmap, j)
  }

  /** A run that looks up leaders, except at h[i]. */
  lemma {:induction false} SteeredRun(cfg: Config, accounts: set<Account>, h: seq<Play>, a: Account, i: nat, j: nat)
    returns (s: State)
    requires UniqueIds(h) && a in accounts && CanDetour(cfg, h, a, i, j)
    ensures Reaches(cfg, accounts, h, s) && a in s.stats
    ensures forall g :: Drift(cfg, h, a, s.stats[a], g) == Net(cfg, h, a, g) + Detour(h, a, i, j, g)
  {
    if h == [] {
      s := Fresh(accounts);
      assert Maps(h, a) == {};
    } else {
      var front := Init(h);
      UniqueIdsPrefix(h);
      DetourBefore(cfg, h, a, i, j);
      var prior := SteeredRun(cfg, accounts, front, a, i, j);
      var wanted := if i == |front| && Last(h).account == a then Some(j) else None;
      s := SteeredStep(cfg, accounts, front, prior, Last(h), a, wanted);
      forall g
        ensures Drift(cfg, h, a, s.stats[a], g) == Net(cfg, h, a, g) + Detour(h, a, i, j, g)
      {
        DetourStep(h, a, i, j, g);
      }
    }
  }

  lemma DetourBefore(cfg: Config, h: seq<Play>, a: Account, i: nat, j: nat)
    requires h != [] && CanDetour(cfg, h, a, i, j)
    ensures CanDetour(cfg, Init(h), a, i, j)
    ensures i == |h| - 1 ==>
      Last(h).account == a && TakesLead(cfg, Init(h), Last(h)) && CanBePicked(Init(h), a, Last(h).beatmap, j)
  {
    if i < |h| - 1 {
      assert Init(h)[..i] == h[..i] && Init(h)[i] == h[i];
    } else if i == |h| - 1 {
      assert h[..i] == Init(h);
    }
  }

  lemma SteeredStep(cfg: Config, accounts: set<Account>, h: seq<Play>, s: State, p: Play, a: Account,
                    wanted: Option<nat>)
    returns (t: State)
    requires UniqueIds(h + [p]) && Reaches(cfg, accounts, h, s) && a in accounts && a in s.stats
    requires wanted.Some? ==> p.account == a && TakesLead(cfg, h, p) && CanBePicked(h, a, p.beatmap, wanted.value)
    ensures Reaches(cfg, accounts, h + [p], t) && a in t.stats
    ensures forall g ::
      Drift(cfg, h + [p], a, t.stats[a], g) == Drift(cfg, h, a, s.stats[a], g) +
      (if p.account != a then 0
       else NetStep(cfg, h, p, g)
            + if wanted.None? then 0
              else Holds(LeaderGrade(h, a, p.beatmap), g) - Holds(GradeOf(h[wanted.value].rank), g))
  {
    if p.account == a {
      t := Steer(cfg, accounts, h, s, p, wanted);
      forall g
        ensures NetStep(cfg, h, p, g) == StepChange(cfg, h, p, LeaderGrade(h, p.account, p.beatmap), g)
      {
        NetStepIsLeader(cfg, h, p, g);
      }
    } else {
      Snoc(h, p);
      UniqueIdsPrefix(h + [p]);
      t := GoOn(cfg, accounts, h, s, p);
      BoardReachable(cfg, accounts, h, s);
      forall g
        ensures GradeCredits(cfg, RankedGate, h + [p], a, g) == GradeCredits(cfg, RankedGate, h, a, g)
      {
        GradeCreditsOther(cfg, RankedGate, h, p, a, g);
      }
    }
  }

  lemma DetourStep(h: seq<Play>, a: Account, i: nat, j: nat, g: Grade)
    requires h != [] && (i == |h| - 1 ==> j < i)
    ensures i != |h| - 1 ==> Detour(h, a, i, j, g) == Detour(Init(h), a, i, j, g)
    ensures i == |h| - 1 ==>
      Detour(Init(h), a, i, j, g) == 0 &&
      Detour(h, a, i, j, g) == Holds(LeaderGrade(Init(h), a, Last(h).beatmap), g) - Holds(GradeOf(Init(h)[j].rank), g)
  {
    if i < |h| - 1 {
      assert Init(h)[..i] == h[..i];
    } else if i == |h| - 1 {
      assert h[..i] == Init(h);
    }
  }

  /** In every run the counters are off by exactly `off`, grade by grade, if and only if there is no mixed tie
      and the history's own error is that. */
  lemma DriftExact(cfg: Config, accounts: set<Account>, h: seq<Play>, a: Account, off: Grade -> int)
    requires UniqueIds(h) && a in accounts
    ensures
      (NoMixedTie(cfg, h, a) && forall g :: Net(cfg, h, a, g) == off(g)) <==>
      forall s | Reaches(cfg, accounts, h, s) :: DriftsBy(cfg, h, a, s, off)
  {
    if NoMixedTie(cfg, h, a) && forall g :: Net(cfg, h, a, g) == off(g) {
      forall s | Reaches(cfg, accounts, h, s)
        ensures DriftsBy(cfg, h, a, s, off)
      {
        BoardReachable(cfg, accounts, h, s);
        forall g {
          NoTieNetDrift(cfg, accounts, h, s, a, g);
        }
      }
    }
    if forall s | Reaches(cfg, accounts, h, s) :: DriftsBy(cfg, h, a, s, off) {
      var s := SteeredRun(cfg, accounts, h, a, |h|, 0);
      assert DriftsBy(cfg, h, a, s, off);
      assert forall g :: Detour(h, a, |h|, 0, g) == 0;
      forall i: nat, j: nat | i < |h|
        ensures !MixedTie(cfg, h, a, i, j)
      {
        if CanDetour(cfg, h, a, i, j) {
          SameGradeAt(cfg, accounts, h, a, off, i, j);
        }
      }
    }
  }

  ghost predicate DriftsBy(cfg: Config, h: seq<Play>, a: Account, s: State, off: Grade -> int)
  {
    a in s.stats && forall g :: Drift(cfg, h, a, s.stats[a], g) == off(g)
  }

  lemma SameGradeAt(cfg: Config, accounts: set<Account>, h: seq<Play>, a: Account, off: Grade -> int, i: nat, j: nat)
    requires UniqueIds(h) && a in accounts && i < |h| && CanDetour(cfg, h, a, i, j)
    requires forall s | Reaches(cfg, accounts, h, s) :: DriftsBy(cfg, h, a, s, off)
    requires forall g :: Net(cfg, h, a, g) == off(g)
    ensures GradeOf(h[..i][j].rank) == LeaderGrade(h[..i], a, h[i].beatmap)
  {
    var s := SteeredRun(cfg, accounts, h, a, i, j);
    assert DriftsBy(cfg, h, a, s, off);
    assert h[..i][j] == h[j];
    forall g
      ensures Holds(LeaderGrade(h[..i], a, h[i].beatmap), g) == Holds(GradeOf(h[j].rank), g)
    {
      assert Detour(h, a, i, j, g) == 0;
    }
    ApartOn(LeaderGrade(h[..i], a, h[i].beatmap), GradeOf(h[j].rank));
  }

  ghost predicate CountersRight(cfg: Config, h: seq<Play>, a: Account, s: State) {
    a in s.stats && forall g :: Drift(cfg, h, a, s.stats[a], g) == 0
  }

  /** The grade counters equal the credited grades in every run of h if and only if h has no mixed tie and, for
      every grade, as many were left uncredited without a leaderboard as were lost over zero totals. */
  lemma GradesExact(cfg: Config, accounts: set<Account>, h: seq<Play>, a: Account)
    requires UniqueIds(h) && a in accounts
    ensures (NoMixedTie(cfg, h, a) && forall g :: Net(cfg, h, a, g) == 0) <==>
      forall s | Reaches(cfg, accounts, h, s) :: CountersRight(cfg, h, a, s)
  {
    var off := (g: Grade) => 0;
    DriftExact(cfg, accounts, h, a, off);
    assert forall s | Reaches(cfg, accounts, h, s) :: DriftsBy(cfg, h, a, s, off) <==> CountersRight(cfg, h, a, s);
  }

  // ----- Consequences.

  /** Eligible totals are positive and pairwise distinct on each map. */
  ghost predicate DistinctPositive(h: seq<Play>, a: Account) {
    && (forall p | p in h && Eligible(p, a, p.beatmap) :: p.total > 0)
    && (forall i, j | 0 <= j < i < |h| && Eligible(h[i], a, h[j].beatmap) && Eligible(h[j], a, h[j].beatmap) ::
          h[i].total != h[j].total)
  }

  lemma DistinctTotalsNoTie(cfg: Config, h: seq<Play>, a: Account)
    requires DistinctPositive(h, a)
    ensures NoMixedTie(cfg, h, a)
  {
    forall i: nat, j: nat | i < |h|
      ensures !MixedTie(cfg, h, a, i, j)
    {
      var m, before := h[i].beatmap, h[..i];
      var k := LeaderIsFirst(before, a, m);
      if CanBePicked(before, a, m, j) {
        assert before[j] == h[j] && h[j] in h;
        assert Leader(before, a, m).Some?;
        assert before[k] == h[k] && h[k].total == h[j].total;
      }
    }
  }

  lemma {:induction false} DistinctTotalsNoNet(cfg: Config, h: seq<Play>, a: Account, g: Grade)
    requires forall p | p in h && Eligible(p, a, p.beatmap) :: p.total > 0
    requires forall p | p in h && p.account == a && OnRanked(cfg, p) :: cfg.BoardMap(p.beatmap)
    ensures Net(cfg, h, a, g) == 0
  {
    if h != [] {
      var p, front := Last(h), Init(h);
      assert h == front + [p];
      DistinctTotalsNoNet(cfg, front, a, g);
      var j := LeaderIsFirst(front, a, p.beatmap);
      assert j < |front| ==> front[j] in h;
    }
  }

  /** With positive and distinct totals per map, and a leaderboard on every ranked map played, the counters are
      right in every run. */
  lemma DistinctTotalsRight(cfg: Config, accounts: set<Account>, h: seq<Play>, s: State, a: Account)
    requires UniqueIds(h) && a in accounts && Reaches(cfg, accounts, h, s) && DistinctPositive(h, a)
    requires forall p | p in h && p.account == a && OnRanked(cfg, p) :: cfg.BoardMap(p.beatmap)
    ensures CountersRight(cfg, h, a, s)
  {
    DistinctTotalsNoTie(cfg, h, a);
    forall g
      ensures Net(cfg, h, a, g) == 0
    {
      DistinctTotalsNoNet(cfg, h, a, g);
    }
    GradesExact(cfg, accounts, h, a);
  }

  /** How many graded credits only count online. */
  ghost function OnlineExtra(cfg: Config, h: seq<Play>, a: Account, g: Grade): int {
    MapSum(GradeCredits(cfg, RankedGate, h, a, g)) - MapSum(GradeCredits(cfg, PpGate, h, a, g))
  }

  /** The counters equal the recalculated ones. */
  ghost predicate CountersMatch(a: Account, s: State, rebuilt: Stats) {
    a in s.stats && forall g :: s.stats[a].Count(g) == rebuilt.Count(g)
  }

  lemma MatchIsDrift(cfg: Config, h: seq<Play>, a: Account, s: State, rebuilt: Stats)
    requires IsRebuilt(cfg, h, a, rebuilt)
    ensures CountersMatch(a, s, rebuilt) <==> DriftsBy(cfg, h, a, s, g => -OnlineExtra(cfg, h, a, g))
  {
    if a in s.stats {
      forall g: Grade
        ensures s.stats[a].Count(g) == rebuilt.Count(g) <==>
          Drift(cfg, h, a, s.stats[a], g) == -OnlineExtra(cfg, h, a, g)
      {
        assert rebuilt.Count(g) == MapSum(GradeCredits(cfg, PpGate, h, a, g));
      }
    }
  }

  /** Reading in submission order, all five counters equal the recalculated ones in every run if and only if
      there is no mixed tie and, for every grade, what is left uncredited or counts only online makes up for what
      is lost over zero totals. */
  lemma GradesMeetInOrder(cfg: Config, accounts: set<Account>, h: seq<Play>, a: Account, rebuilt: Stats)
    requires UniqueIds(h) && a in accounts && IsRebuilt(cfg, h, a, rebuilt)
    ensures
      (NoMixedTie(cfg, h, a) && forall g :: Net(cfg, h, a, g) + OnlineExtra(cfg, h, a, g) == 0) <==>
      forall s | Reaches(cfg, accounts, h, s) :: CountersMatch(a, s, rebuilt)
  {
    var off := (g: Grade) => -OnlineExtra(cfg, h, a, g);
    DriftExact(cfg, accounts, h, a, off);
    forall s
      ensures CountersMatch(a, s, rebuilt) <==> DriftsBy(cfg, h, a, s, off)
    {
      MatchIsDrift(cfg, h, a, s, rebuilt);
    }
  }

  /** Every run ends with the counters that are rebuilt from reading g. */
  ghost predicate EveryRunMatches(cfg: Config, accounts: set<Account>, h: seq<Play>, a: Account, g: seq<Play>) {
    forall s, rebuilt | Reaches(cfg, accounts, h, s) && IsRebuilt(cfg, g, a, rebuilt) :: CountersMatch(a, s, rebuilt)
  }

  /** No net error that counting only online does not make up for. */
  ghost predicate Balanced(cfg: Config, h: seq<Play>, a: Account) {
    forall g :: Net(cfg, h, a, g) + OnlineExtra(cfg, h, a, g) == 0
  }

  lemma MatchInOrder(cfg: Config, accounts: set<Account>, h: seq<Play>, a: Account)
    requires UniqueIds(h) && a in accounts
    ensures NoMixedTie(cfg, h, a) && Balanced(cfg, h, a) <==> EveryRunMatches(cfg, accounts, h, a, Own(h, a))
  {
    var rebuilt := RebuiltExists(cfg, h, a);
    GradesMeetInOrder(cfg, accounts, h, a, rebuilt);
    RebuiltFromOwn(cfg, h, a, rebuilt);
    forall r | IsRebuilt(cfg, Own(h, a), a, r)
      ensures r == rebuilt
    {
      RebuiltIsUnique(cfg, Own(h, a), a, r, rebuilt);
    }
  }

  lemma MatchReordered(cfg: Config, accounts: set<Account>, h: seq<Play>, a: Account, g: seq<Play>)
    requires EveryRunMatches(cfg, accounts, h, a, Own(h, a))
    ensures EveryRunMatches(cfg, accounts, h, a, g) <==> SameGradeCounts(cfg, Own(h, a), g, a)
  {
    var mine := Own(h, a);
    var inOrder := RebuiltExists(cfg, mine, a);
    var s := AnyRun(cfg, accounts, h);
    var r := RebuiltExists(cfg, g, a);
    assert CountersMatch(a, s, inOrder);
    if SameGradeCounts(cfg, mine, g, a) {
      forall u, rebuilt | Reaches(cfg, accounts, h, u) && IsRebuilt(cfg, g, a, rebuilt)
        ensures CountersMatch(a, u, rebuilt)
      {
        assert CountersMatch(a, u, inOrder);
        assert forall x: Grade :: rebuilt.Count(x) == inOrder.Count(x);
      }
    }
    if EveryRunMatches(cfg, accounts, h, a, g) {
      assert CountersMatch(a, s, r);
      assert forall x: Grade :: r.Count(x) == inOrder.Count(x);
    }
  }

  /** In whatever order the tool reads the account's plays, all five counters equal the recalculated ones in every
      run, if and only if there is no mixed tie, the net error is made up for, and plays sharing the best total of
      a map share their grade. */
  lemma GradesMeetRecalculation(cfg: Config, accounts: set<Account>, h: seq<Play>, a: Account)
    requires UniqueIds(h) && a in accounts
    ensures
      NoMixedTie(cfg, h, a) && Balanced(cfg, h, a) && TopGradesAgree(cfg, h, a) <==>
      forall g | ReadsOwn(h, a, g) :: EveryRunMatches(cfg, accounts, h, a, g)
  {
    var mine := Own(h, a);
    MatchInOrder(cfg, accounts, h, a);
    GradesOrderFreeExact(cfg, mine, a);
    OwnTops(cfg, h, a);
    assert ReadsOwn(h, a, mine);
    if EveryRunMatches(cfg, accounts, h, a, mine) {
      forall g | ReadsOwn(h, a, g)
        ensures EveryRunMatches(cfg, accounts, h, a, g) <==> SameGradeCounts(cfg, mine, g, a)
      {
        MatchReordered(cfg, accounts, h, a, g);
      }
    }
  }

  /** A map counts online but not in the recalculation, and its credited play has a grade. */
  ghost predicate OnlyOnline(cfg: Config, h: seq<Play>, a: Account, m: int) {
    m in Maps(h, a) && cfg.RankedMap(m) && !cfg.PpMap(m) && CreditedGrade(h, a, m).Some?
  }

  /** Nothing counts only online exactly if no map does so with a graded credit. */
  lemma NoOnlineExtra(cfg: Config, h: seq<Play>, a: Account)
    ensures (forall g :: OnlineExtra(cfg, h, a, g) == 0) <==> forall m :: !OnlyOnline(cfg, h, a, m)
  {
    forall g
      ensures OnlineExtra(cfg, h, a, g) == 0 <==>
        GradeCredits(cfg, PpGate, h, a, g) == GradeCredits(cfg, RankedGate, h, a, g)
    {
      MapSumOrder(GradeCredits(cfg, PpGate, h, a, g), GradeCredits(cfg, RankedGate, h, a, g));
    }
    SameCredits(cfg, h, a);
  }

  lemma SameCredits(cfg: Config, h: seq<Play>, a: Account)
    ensures (forall m :: !OnlyOnline(cfg, h, a, m)) <==>
      forall g :: GradeCredits(cfg, PpGate, h, a, g) == GradeCredits(cfg, RankedGate, h, a, g)
  {
    if m :| OnlyOnline(cfg, h, a, m) {
      var g := CreditedGrade(h, a, m).value;
      assert GradeCredits(cfg, PpGate, h, a, g)[m] != GradeCredits(cfg, RankedGate, h, a, g)[m];
    } else {
      forall g
        ensures GradeCredits(cfg, PpGate, h, a, g) == GradeCredits(cfg, RankedGate, h, a, g)
      {
        forall m | m in Maps(h, a)
          ensures GradeCredit(cfg, PpGate, h, a, g, m) == GradeCredit(cfg, RankedGate, h, a, g, m)
        {
          assert !OnlyOnline(cfg, h, a, m);
        }
      }
    }
  }

  /** Two plays p and q tie for the lead with different grades; r then takes it.  Some run ends with wrong
      counters. */
  lemma TieBreaksGrades(cfg: Config, p: Play, q: Play, r: Play)
    requires UniqueIds([p, q, r]) && OnRanked(cfg, p) && OnRanked(cfg, q) && OnRanked(cfg, r) && cfg.BoardMap(p.beatmap)
    requires p.account == q.account == r.account && p.beatmap == q.beatmap == r.beatmap
    requires p.mods != q.mods && p.total == q.total < r.total && GradeOf(p.rank) != GradeOf(q.rank)
    ensures exists s :: Reaches(cfg, {p.account}, [p, q, r], s) && !CountersRight(cfg, [p, q, r], p.account, s)
  {
    var h, a, m := [p, q, r], p.account, p.beatmap;
    var front := h[..2];
    assert front == [p, q] && Init(front) == [p] && Init([p]) == [];
    assert Leader([p], a, m) == Some(p) && Leader(front, a, m) == Some(p);
    assert Last([p]) == p && Last(front) == q && Best([], a, m) == 0;
    assert Best([p], a, m) == p.total;
    assert Best(front, a, m) == p.total;
    assert front[1] == q && CanBePicked(front, a, m, 1);
    assert MixedTie(cfg, h, a, 2, 1);
    GradesExact(cfg, {a}, h, a);
  }

  /** A graded play of zero points before one with points: every run loses a grade. */
  lemma ZeroPlayLosesGrade(cfg: Config, p: Play, q: Play, s: State)
    requires UniqueIds([p, q]) && OnRanked(cfg, p) && OnRanked(cfg, q) && cfg.BoardMap(p.beatmap)
    requires p.account == q.account && p.beatmap == q.beatmap && p.total == 0 < q.total && GradeOf(p.rank).Some?
    requires Reaches(cfg, {p.account}, [p, q], s)
    ensures p.account in s.stats
    ensures Drift(cfg, [p, q], p.account, s.stats[p.account], GradeOf(p.rank).value) == -1
  {
    var one, h, a, g := [p], [p, q], p.account, GradeOf(p.rank).value;
    assert Init(one) == [] && Last(one) == p && Init(h) == one && Last(h) == q;
    OneZeroPlay(cfg, one, p, g);
    assert TakesLead(cfg, one, q) && NetStep(cfg, one, q, g) == -1;
    assert Net(cfg, h, a, g) == Net(cfg, one, a, g) + NetStep(cfg, one, q, g);
    forall i: nat, j: nat | i < |h|
      ensures !MixedTie(cfg, h, a, i, j)
    {
      assert h[..0] == [] && h[..1] == one;
    }
    NoTieNetDrift(cfg, {a}, h, s, a, g);
  }

  lemma OneZeroPlay(cfg: Config, h: seq<Play>, p: Play, g: Grade)
    requires h == [p] && OnRanked(cfg, p) && cfg.BoardMap(p.beatmap) && p.total == 0
    ensures Best(h, p.account, p.beatmap) == 0 && Leader(h, p.account, p.beatmap) == Some(p)
    ensures Net(cfg, h, p.account, g) == 0
  {
    assert Init(h) == [] && Last(h) == p;
  }
}
