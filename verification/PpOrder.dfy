/**
 The best-score rebuild as the tool runs it (tools/recalculate.py, recalculate_user_mode_performance): one
 account's scores, read without ORDER BY, with pp calculated again.

 The second calculation has no check for changed flashlight settings, and it may succeed where the first one
 failed.  So the tool can give pp to plays that the server gave none.
 */
module PpOrder {
  import opened Common
  import opened Scores
  import opened Ranking
  import opened WeightedPp
  import opened BestScores
  import opened FirstBest
  import opened Covering

  /** What the tool's calculation of a play ends with; None if there is none, or if it fails for good. */
  type Answers = PpPlay -> Option<real>

  /** The gates of the rebuild. */
  predicate ToolAdmits(cfg: Config, p: PpPlay) {
    p.passed && cfg.PpMap(p.beatmap) && p.modsOk && AboveFloor(p)
  }

  /** The pp of a play after the tool; a calculation that fails keeps what the server stored. */
  function PpAfterTool(cfg: Config, answer: Option<real>, p: PpPlay): real {
    if !ToolAdmits(cfg, p) then 0.0
    else if answer.Some? then answer.value
    else StoredPp(cfg, p)
  }

  function ToolPp(cfg: Config, again: Answers, p: PpPlay): real {
    PpAfterTool(cfg, again(p), p)
  }

  function ToolRow(cfg: Config, again: Answers, p: PpPlay): BestRow {
    BestRowOf(cfg, p).(pp := ToolPp(cfg, again, p))
  }

  /** The highest positive pp per account and map, as the tool sees the plays. */
  function ToolRule(cfg: Config, again: Answers): Rule<PpPlay, MapKey, BestRow> {
    Rule((p: PpPlay) => ToolPp(cfg, again, p) > 0.0, (p: PpPlay) => ToolRow(cfg, again, p),
         (r: BestRow) => KeyOf(r), (r: BestRow) => r.pp)
  }

  /** The table the tool writes after reading g. */
  ghost function ToolTable(cfg: Config, again: Answers, g: seq<PpPlay>): set<BestRow> {
    Winners(ToolRule(cfg, again), g)
  }

  /** The same, as the server sees them: the live rows with positive pp. */
  function LiveRule(cfg: Config): Rule<PpPlay, MapKey, BestRow> {
    Rule((p: PpPlay) => StoredPp(cfg, p) > 0.0, (p: PpPlay) => BestRowOf(cfg, p),
         (r: BestRow) => KeyOf(r), (r: BestRow) => r.pp)
  }

  ghost function LiveTable(cfg: Config, h: seq<PpPlay>): set<BestRow> {
    Winners(LiveRule(cfg), h)
  }

  lemma LiveIsPositive(cfg: Config, h: seq<PpPlay>)
    ensures Positive(PersonalBests(cfg, h)) == LiveTable(cfg, h)
  {
    var l, t := LiveRule(cfg), PpRule(cfg);
    forall i: nat | i < |h|
      ensures IsWinner(l, h, i) <==> IsWinner(t, h, i) && StoredPp(cfg, h[i]) > 0.0
    {
      assert forall j | 0 <= j < |h| :: SameKeys(l, h[j], h[i]) == SameKeys(t, h[j], h[i]);
      assert forall j | 0 <= j < |h| :: Worth(l, h[j]) == Worth(t, h[j]) == StoredPp(cfg, h[j]);
    }
  }

  // ----- One account's plays.

  function OwnPp(h: seq<PpPlay>, a: Account): seq<PpPlay> {
    if h == [] then []
    else
      var front, p := OwnPp(h[..|h| - 1], a), h[|h| - 1];
      if p.account == a then front + [p] else front
  }

  lemma {:induction false} OwnPpPlays(h: seq<PpPlay>, a: Account)
    ensures forall p :: p in OwnPp(h, a) <==> p in h && p.account == a
  {
    if h != [] {
      OwnPpPlays(h[..|h| - 1], a);
      assert h == h[..|h| - 1] + [h[|h| - 1]];
    }
  }

  /** Reading one account's plays gives exactly the account's rows of the whole history. */
  lemma {:induction false} OwnBests(cfg: Config, h: seq<PpPlay>, a: Account)
    ensures PersonalBests(cfg, OwnPp(h, a)) == Own(PersonalBests(cfg, h), a)
  {
    if h != [] {
      var front, p := h[..|h| - 1], h[|h| - 1];
      OwnBests(cfg, front, a);
      assert h == front + [p];
      var previous := SomePrevious(PersonalBests(cfg, front), p);
      BestsStep(cfg, front, p, previous);
      if p.account == a {
        BestsStep(cfg, OwnPp(front, a), p, previous);
      }
    }
  }

  // ----- Any reading order.

  /** Every reading order gives the same account pp. */
  lemma SamePpInAnyOrder(cfg: Config, again: Answers, h: seq<PpPlay>, g: seq<PpPlay>)
    requires SameMembers(h, g)
    ensures UserPp(ToolTable(cfg, again, g)) == UserPp(ToolTable(cfg, again, h))
  {
    OrderCovers(cfg, again, h, g);
    OrderCovers(cfg, again, g, h);
    OneToolRow(cfg, again, h);
    OneToolRow(cfg, again, g);
    CoveringRaises(ToolTable(cfg, again, h), ToolTable(cfg, again, g));
    CoveringRaises(ToolTable(cfg, again, g), ToolTable(cfg, again, h));
  }

  lemma OrderCovers(cfg: Config, again: Answers, h: seq<PpPlay>, g: seq<PpPlay>)
    requires SameMembers(h, g)
    ensures Covers(ToolTable(cfg, again, g), ToolTable(cfg, again, h))
  {
    var t := ToolRule(cfg, again);
    forall r | r in Winners(t, h)
      ensures exists q :: q in Winners(t, g) && KeyOf(q) == KeyOf(r) && r.pp <= q.pp
    {
      var i := WinningPlay(t, h, r);
      var j := SameValues(t, h, g, i);
      assert t.row(g[j]) in Winners(t, g);
    }
  }

  lemma OneToolRow(cfg: Config, again: Answers, h: seq<PpPlay>)
    ensures OneRowPerMap(ToolTable(cfg, again, h)) && forall q | q in ToolTable(cfg, again, h) :: q.pp > 0.0
  {
    forall r, q | r in ToolTable(cfg, again, h) && q in ToolTable(cfg, again, h) && KeyOf(r) == KeyOf(q)
      ensures r == q
    {
      RowUnique(ToolRule(cfg, again), h, r, q);
    }
  }

  lemma OneLiveRow(cfg: Config, h: seq<PpPlay>)
    ensures OneRowPerMap(LiveTable(cfg, h))
  {
    forall r, q | r in LiveTable(cfg, h) && q in LiveTable(cfg, h) && KeyOf(r) == KeyOf(q)
      ensures r == q
    {
      RowUnique(LiveRule(cfg), h, r, q);
    }
  }

  lemma OnePpPlayPerRow(cfg: Config, again: Answers, h: seq<PpPlay>)
    requires UniquePlayIds(h)
    ensures OwnRows(ToolRule(cfg, again), h)
  {
    forall p, q | p in h && q in h && ToolRow(cfg, again, p) == ToolRow(cfg, again, q)
      ensures p == q
    {
      SameId(h, p, q);
    }
  }

  lemma SameId(h: seq<PpPlay>, p: PpPlay, q: PpPlay)
    requires UniquePlayIds(h) && p in h && q in h && p.id == q.id
    ensures p == q
  {
    var i :| 0 <= i < |h| && h[i] == p;
    var j :| 0 <= j < |h| && h[j] == q;
  }

  /** Every reading order gives the very same rows if and only if no two plays share a map and its best pp. */
  lemma PpOrderExact(cfg: Config, again: Answers, h: seq<PpPlay>)
    requires UniquePlayIds(h)
    ensures NoSharedBest(ToolRule(cfg, again), h) <==>
      forall g | multiset(g) == multiset(h) :: ToolTable(cfg, again, g) == ToolTable(cfg, again, h)
  {
    OnePpPlayPerRow(cfg, again, h);
    OrderExact(ToolRule(cfg, again), h);
    assert forall g :: ToolTable(cfg, again, g) == Winners(ToolRule(cfg, again), g);
  }

  /** The gates of the tool, in plain terms: as on the server, but for flashlight and the first calculation. */
  predicate ToolEarns(cfg: Config, again: Answers, p: PpPlay) {
    && p.passed && p.modsOk && (cfg.allPp || cfg.status(p.beatmap) in {Ranked, Approved})
    && (p.relaxOrAutopilot ==> p.accuracy >= 0.75)
    && again(p).Some? && again(p).value > 0.0
  }

  /** The table of the tool in full, when every recalculation answers. */
  lemma ToolMeaning(cfg: Config, again: Answers, h: seq<PpPlay>, r: BestRow)
    requires forall p | p in h :: again(p).Some?
    ensures r in ToolTable(cfg, again, h) <==>
      exists i: nat ::
        && i < |h| && ToolEarns(cfg, again, h[i])
        && r == Entry(h[i].id, again(h[i]).value, BestInfo(h[i].account, h[i].beatmap, h[i].accuracy))
        && forall j | 0 <= j < |h| && ToolEarns(cfg, again, h[j]) && SameMap(h[j], h[i]) ::
             again(h[j]).value < again(h[i]).value || (again(h[j]) == again(h[i]) && i <= j)
  {
    forall i: nat | i < |h|
      ensures IsWinner(ToolRule(cfg, again), h, i) <==>
        && ToolEarns(cfg, again, h[i])
        && forall j | 0 <= j < |h| && ToolEarns(cfg, again, h[j]) && SameMap(h[j], h[i]) ::
             again(h[j]).value < again(h[i]).value || (again(h[j]) == again(h[i]) && i <= j)
    {
      assert forall j | 0 <= j < |h| :: h[j] in h;
      assert forall j | 0 <= j < |h| :: SameKeys(ToolRule(cfg, again), h[j], h[i]) <==> SameMap(h[j], h[i]);
    }
  }

  // ----- What the tool gives and the server did not.

  /** Where both calculations answer, they answer the same. */
  ghost predicate Agree(again: Answers, h: seq<PpPlay>) {
    forall p | p in h && again(p).Some? && p.calculated.Some? :: again(p) == p.calculated
  }

  lemma AdmittedSame(cfg: Config, again: Answers, h: seq<PpPlay>, p: PpPlay)
    requires Agree(again, h) && p in h
    ensures Admitted(cfg, p) ==> ToolPp(cfg, again, p) == StoredPp(cfg, p)
    ensures !Admitted(cfg, p) ==> StoredPp(cfg, p) == 0.0
  {
  }

  /** The tool never gives a map less than the server. */
  lemma ToolCovers(cfg: Config, again: Answers, h: seq<PpPlay>)
    requires Agree(again, h)
    ensures Covers(ToolTable(cfg, again, h), LiveTable(cfg, h))
  {
    var l, t := LiveRule(cfg), ToolRule(cfg, again);
    forall r | r in Winners(l, h)
      ensures exists q :: q in Winners(t, h) && KeyOf(q) == KeyOf(r) && r.pp <= q.pp
    {
      var i := WinningPlay(l, h, r);
      AdmittedSame(cfg, again, h, h[i]);
      var j := WinnerExists(t, h, i);
      assert t.row(h[j]) in Winners(t, h);
    }
  }

  /** A play that wins for the tool and was admitted wins on the server, with the same row. */
  lemma AdmittedWins(cfg: Config, again: Answers, h: seq<PpPlay>, i: nat)
    requires Agree(again, h) && i < |h| && IsWinner(ToolRule(cfg, again), h, i) && Admitted(cfg, h[i])
    ensures IsWinner(LiveRule(cfg), h, i) && ToolRow(cfg, again, h[i]) == BestRowOf(cfg, h[i])
  {
    var l, t := LiveRule(cfg), ToolRule(cfg, again);
    AdmittedSame(cfg, again, h, h[i]);
    forall j | 0 <= j < |h| && l.counts(h[j]) && SameKeys(l, h[j], h[i])
      ensures Worth(l, h[j]) < Worth(l, h[i]) || (Worth(l, h[j]) == Worth(l, h[i]) && i <= j)
    {
      AdmittedSame(cfg, again, h, h[j]);
      assert t.counts(h[j]) && SameKeys(t, h[j], h[i]);
    }
  }

  /** Every play that wins a map for the tool, but got no pp from the server, has on the live table a row of its
      map with the same pp, or a thousand rows at least as good. */
  ghost predicate NoneGains(cfg: Config, again: Answers, h: seq<PpPlay>) {
    forall i: nat | i < |h| && IsWinner(ToolRule(cfg, again), h, i) && !Admitted(cfg, h[i]) ::
      AddsNothing(LiveTable(cfg, h), ToolRow(cfg, again, h[i]))
  }

  lemma GainsAreRows(cfg: Config, again: Answers, h: seq<PpPlay>)
    requires Agree(again, h)
    ensures NoneGains(cfg, again, h) <==>
      forall q | q in ToolTable(cfg, again, h) :: AddsNothing(LiveTable(cfg, h), q)
  {
    var t := ToolRule(cfg, again);
    if NoneGains(cfg, again, h) {
      forall q | q in ToolTable(cfg, again, h)
        ensures AddsNothing(LiveTable(cfg, h), q)
      {
        var i := WinningPlay(t, h, q);
        if Admitted(cfg, h[i]) {
          AdmittedWins(cfg, again, h, i);
          assert q in LiveTable(cfg, h);
        }
      }
    } else {
      var i: nat :| i < |h| && IsWinner(t, h, i) && !Admitted(cfg, h[i])
                    && !AddsNothing(LiveTable(cfg, h), ToolRow(cfg, again, h[i]));
      assert ToolRow(cfg, again, h[i]) in ToolTable(cfg, again, h);
    }
  }

  /** g is what the tool reads for account a, in some order. */
  ghost predicate ReadsOwnPp(h: seq<PpPlay>, a: Account, g: seq<PpPlay>) {
    multiset(g) == multiset(OwnPp(h, a))
  }

  /** Whatever order the tool reads an account's plays in, the account pp of its table is at least the live
      one, and equal to it if and only if no play gains. */
  lemma SameAccountPp(cfg: Config, again: Answers, h: seq<PpPlay>, a: Account, g: seq<PpPlay>)
    requires ReadsOwnPp(h, a, g) && Agree(again, h)
    ensures UserPp(Own(PersonalBests(cfg, h), a)) <= UserPp(ToolTable(cfg, again, g))
    ensures UserPp(Own(PersonalBests(cfg, h), a)) == UserPp(ToolTable(cfg, again, g)) <==>
      NoneGains(cfg, again, OwnPp(h, a))
  {
    var mine := OwnPp(h, a);
    OwnPpPlays(h, a);
    OwnBests(cfg, h, a);
    PositiveRowsSuffice(PersonalBests(cfg, mine));
    LiveIsPositive(cfg, mine);
    Reordered(mine, g);
    SamePpInAnyOrder(cfg, again, mine, g);
    LiveAndTool(cfg, again, mine);
  }

  lemma LiveAndTool(cfg: Config, again: Answers, h: seq<PpPlay>)
    requires Agree(again, h)
    ensures UserPp(LiveTable(cfg, h)) <= UserPp(ToolTable(cfg, again, h))
    ensures UserPp(LiveTable(cfg, h)) == UserPp(ToolTable(cfg, again, h)) <==> NoneGains(cfg, again, h)
  {
    ToolCovers(cfg, again, h);
    OneLiveRow(cfg, h);
    OneToolRow(cfg, again, h);
    CoveringRaises(LiveTable(cfg, h), ToolTable(cfg, again, h));
    CoveringExact(LiveTable(cfg, h), ToolTable(cfg, again, h));
    GainsAreRows(cfg, again, h);
  }

  /** A single play that the server gave no pp, for its flashlight settings or because the calculator failed,
      and to which the tool gives some: the account pp rises. */
  lemma OverlookedPlayGains(cfg: Config, again: Answers, p: PpPlay)
    requires ToolAdmits(cfg, p) && !Admitted(cfg, p) && again(p).Some? && again(p).value > 0.0
    requires p.calculated.Some? ==> again(p) == p.calculated
    ensures UserPp(Own(PersonalBests(cfg, [p]), p.account)) < UserPp(ToolTable(cfg, again, [p]))
  {
    var h, a := [p], p.account;
    assert OwnPp(h, a) == h by {
      assert h[..0] == [] && OwnPp([], a) == [];
    }
    SameAccountPp(cfg, again, h, a, h);
    OverlookedWins(cfg, again, h, p);
  }

  lemma OverlookedWins(cfg: Config, again: Answers, h: seq<PpPlay>, p: PpPlay)
    requires h == [p] && !Admitted(cfg, p) && ToolPp(cfg, again, p) > 0.0
    ensures !NoneGains(cfg, again, h)
  {
    assert h[0] == p && IsWinner(ToolRule(cfg, again), h, 0);
    assert LiveTable(cfg, h) == {};
    assert AtLeast(LiveTable(cfg, h), ToolPp(cfg, again, p)) == {};
  }

  /** With the default list of ranked mods, which refuses changed flashlight settings, only a play whose first
      calculation failed can gain. */
  lemma OnlyFailuresGain(cfg: Config, again: Answers, p: PpPlay)
    requires ToolPp(cfg, again, p) > 0.0 && !Admitted(cfg, p) && (p.modsOk ==> p.vanillaFlashlight)
    ensures p.calculated.None?
  {
  }

  // ----- When is the tool's table the live one?

  /** Every best play of a map, as the tool sees them, was admitted by the server. */
  ghost predicate OnlyAdmittedBest(cfg: Config, again: Answers, h: seq<PpPlay>) {
    forall p | IsBest(ToolRule(cfg, again), h, p) :: Admitted(cfg, p)
  }

  lemma AdmittedTables(cfg: Config, again: Answers, h: seq<PpPlay>)
    requires Agree(again, h) && OnlyAdmittedBest(cfg, again, h)
    ensures ToolTable(cfg, again, h) == LiveTable(cfg, h)
  {
    var l, t := LiveRule(cfg), ToolRule(cfg, again);
    forall q | q in Winners(t, h)
      ensures q in Winners(l, h)
    {
      var i := WinningPlay(t, h, q);
      WinnerIsBest(t, h, i);
      AdmittedWins(cfg, again, h, i);
    }
    forall r | r in Winners(l, h)
      ensures r in Winners(t, h)
    {
      var k := WinningPlay(l, h, r);
      AdmittedSame(cfg, again, h, h[k]);
      var i := WinnerExists(t, h, k);
      WinnerIsBest(t, h, i);
      AdmittedWins(cfg, again, h, i);
      WinnerUnique(l, h, i, k);
    }
  }

  lemma EqualTablesAdmit(cfg: Config, again: Answers, h: seq<PpPlay>, i: nat)
    requires UniquePlayIds(h) && Agree(again, h) && ToolTable(cfg, again, h) == LiveTable(cfg, h)
    requires i < |h| && IsWinner(ToolRule(cfg, again), h, i)
    ensures Admitted(cfg, h[i])
  {
    assert ToolRow(cfg, again, h[i]) in ToolTable(cfg, again, h);
    var k := WinningPlay(LiveRule(cfg), h, ToolRow(cfg, again, h[i]));
    SameId(h, h[i], h[k]);
  }

  /** The tool writes exactly the account's live rows with positive pp, whatever order it reads the plays in, if
      and only if no two plays share a map and its best pp, and every such best was admitted. */
  lemma ToolTableExact(cfg: Config, again: Answers, h: seq<PpPlay>, a: Account)
    requires UniquePlayIds(h) && Agree(again, h)
    ensures NoSharedBest(ToolRule(cfg, again), OwnPp(h, a)) && OnlyAdmittedBest(cfg, again, OwnPp(h, a)) <==>
      forall g | ReadsOwnPp(h, a, g) :: ToolTable(cfg, again, g) == Positive(Own(PersonalBests(cfg, h), a))
  {
    var mine := OwnPp(h, a);
    OwnPpPlays(h, a);
    OwnIds(h, a);
    OwnBests(cfg, h, a);
    LiveIsPositive(cfg, mine);
    PpOrderExact(cfg, again, mine);
    assert ReadsOwnPp(h, a, mine);
    if NoSharedBest(ToolRule(cfg, again), mine) && OnlyAdmittedBest(cfg, again, mine) {
      AdmittedTables(cfg, again, mine);
    }
    if forall g | ReadsOwnPp(h, a, g) :: ToolTable(cfg, again, g) == LiveTable(cfg, mine) {
      EqualTablesAdmitBests(cfg, again, mine);
    }
  }

  lemma EqualTablesAdmitBests(cfg: Config, again: Answers, h: seq<PpPlay>)
    requires UniquePlayIds(h) && Agree(again, h) && ToolTable(cfg, again, h) == LiveTable(cfg, h)
    requires NoSharedBest(ToolRule(cfg, again), h)
    ensures OnlyAdmittedBest(cfg, again, h)
  {
    var t := ToolRule(cfg, again);
    forall p | IsBest(t, h, p)
      ensures Admitted(cfg, p)
    {
      var k :| 0 <= k < |h| && h[k] == p;
      var i := WinnerExists(t, h, k);
      WinnerIsBest(t, h, i);
      assert h[i] == p;
      EqualTablesAdmit(cfg, again, h, i);
    }
  }

  lemma {:induction false} OwnIds(h: seq<PpPlay>, a: Account)
    requires UniquePlayIds(h)
    ensures UniquePlayIds(OwnPp(h, a))
  {
    if h != [] {
      var front, p := h[..|h| - 1], h[|h| - 1];
      OwnIds(front, a);
      OwnPpPlays(front, a);
    }
  }
}
