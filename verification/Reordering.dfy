/**
 The recalculation reads its history without ORDER BY.  Which results can depend on the order?
 All sums and maxima cannot.  The grade counters can, exactly when two plays share the best total of a
 map with different grades.
 */
module Reordering {
  import opened Common
  import opened Scores
  import opened Ledger
  import opened Recalculation

  /** The eligible plays of a map, in order. */
  function Slot(h: seq<Play>, a: Account, m: int): seq<Play> {
    if h == [] then []
    else if Eligible(Last(h), a, m) then Slot(Init(h), a, m) + [Last(h)]
    else Slot(Init(h), a, m)
  }

  lemma {:induction false} SlotConcat(x: seq<Play>, y: seq<Play>, a: Account, m: int)
    ensures Slot(x + y, a, m) == Slot(x, a, m) + Slot(y, a, m)
  {
    if y == [] {
      assert x + y == x;
    } else {
      SlotConcat(x, Init(y), a, m);
      assert Init(x + y) == x + Init(y) && Last(x + y) == Last(y);
    }
  }

  /** A map's credit is decided by its eligible plays alone. */
  lemma {:induction false} CreditFromSlot(h: seq<Play>, a: Account, m: int)
    ensures Best(h, a, m) == Best(Slot(h, a, m), a, m)
    ensures BestPlay(h, a, m) == BestPlay(Slot(h, a, m), a, m)
  {
    if h != [] {
      CreditFromSlot(Init(h), a, m);
      if Eligible(Last(h), a, m) {
        Snoc(Slot(Init(h), a, m), Last(h));
      }
    }
  }

  lemma BestSameElements(h: seq<Play>, g: seq<Play>, a: Account, m: int)
    requires forall p :: p in h <==> p in g
    ensures Best(h, a, m) == Best(g, a, m)
  {
    BestIsMaximum(h, a, m);
    BestIsMaximum(g, a, m);
  }

  lemma BestCreditsSameElements(cfg: Config, h: seq<Play>, g: seq<Play>, a: Account)
    requires forall p :: p in h <==> p in g
    ensures Maps(h, a) == Maps(g, a) && BestCredits(cfg, PpGate, h, a) == BestCredits(cfg, PpGate, g, a)
  {
    forall m | m in Maps(h, a)
      ensures BestCredit(cfg, PpGate, h, a, m) == BestCredit(cfg, PpGate, g, a, m)
    {
      BestSameElements(h, g, a, m);
    }
  }

  predicate Counts(cfg: Config, p: Play, a: Account) {
    Eligible(p, a, p.beatmap) && cfg.PpMap(p.beatmap)
  }

  lemma {:induction false} MaxComboIsMaximum(cfg: Config, h: seq<Play>, a: Account)
    ensures 0 <= MaxCombo(cfg, PpGate, h, a)
    ensures forall p | p in h && Counts(cfg, p, a) :: p.maxCombo <= MaxCombo(cfg, PpGate, h, a)
    ensures MaxCombo(cfg, PpGate, h, a) > 0 ==>
      exists p :: p in h && Counts(cfg, p, a) && p.maxCombo == MaxCombo(cfg, PpGate, h, a)
  {
    if h != [] {
      MaxComboIsMaximum(cfg, Init(h), a);
      assert forall p :: p in h <==> p in Init(h) || p == Last(h) by {
        assert h == Init(h) + [Last(h)];
      }
    }
  }

  function Without(h: seq<Play>, i: nat): seq<Play>
    requires i < |h|
  {
    h[..i] + h[i + 1..]
  }

  lemma {:induction false} TotalSumWithout(h: seq<Play>, i: nat, a: Account)
    requires i < |h|
    ensures TotalSum(h, a) == TotalSum(Without(h, i), a) + (if h[i].account == a then h[i].total else 0)
  {
    if i == |h| - 1 {
      assert Without(h, i) == Init(h);
    } else {
      TotalSumWithout(Init(h), i, a);
      assert Init(Without(h, i)) == Without(Init(h), i) && Last(Without(h, i)) == Last(h);
    }
  }

  lemma PlayRemoved(h: seq<Play>, g: seq<Play>, i: nat)
    requires h != [] && multiset(h) == multiset(g) && i < |g| && g[i] == Last(h)
    ensures multiset(Init(h)) == multiset(Without(g, i))
  {
    assert h == Init(h) + [Last(h)];
    assert g == g[..i] + [g[i]] + g[i + 1..];
    assert multiset(Init(h)) == multiset(h) - multiset{g[i]};
  }

  lemma PlayElsewhere(h: seq<Play>, g: seq<Play>) returns (i: nat)
    requires h != [] && multiset(h) == multiset(g)
    ensures i < |g| && g[i] == Last(h)
  {
    assert Last(h) in multiset(g);
    i :| 0 <= i < |g| && g[i] == Last(h);
  }

  lemma {:induction false} TotalSumReordered(h: seq<Play>, g: seq<Play>, a: Account)
    requires multiset(h) == multiset(g)
    ensures TotalSum(h, a) == TotalSum(g, a)
    decreases |h|
  {
    if h == [] {
      assert |multiset(g)| == 0;
    } else {
      var i := PlayElsewhere(h, g);
      PlayRemoved(h, g, i);
      TotalSumWithout(g, i, a);
      TotalSumReordered(Init(h), Without(g, i), a);
    }
  }

  /** Any reordering of the history rebuilds the same scores, level and combo. */
  lemma ScoresOrderFree(cfg: Config, h: seq<Play>, g: seq<Play>, a: Account, s: Stats, t: Stats)
    requires multiset(h) == multiset(g)
    requires IsRebuilt(cfg, h, a, s) && IsRebuilt(cfg, g, a, t)
    ensures s.totalScore == t.totalScore && s.rankedScore == t.rankedScore
    ensures s.levelCurrent == t.levelCurrent && s.maximumCombo == t.maximumCombo
  {
    Reordered(h, g);
    TotalSumReordered(h, g, a);
    BestCreditsSameElements(cfg, h, g, a);
    MaxComboIsMaximum(cfg, h, a);
    MaxComboIsMaximum(cfg, g, a);
  }

  /** Plays sharing the best positive total of a counted map share their grade. */
  ghost predicate TopGradesAgree(cfg: Config, h: seq<Play>, a: Account) {
    forall p, q | p in h && q in h && p.beatmap == q.beatmap && IsTop(cfg, h, a, p) && IsTop(cfg, h, a, q) ::
      GradeOf(p.rank) == GradeOf(q.rank)
  }

  predicate IsTop(cfg: Config, h: seq<Play>, a: Account, p: Play) {
    Counts(cfg, p, a) && p.total > 0 && p.total == Best(h, a, p.beatmap)
  }

  ghost predicate SameGradeCounts(cfg: Config, h: seq<Play>, g: seq<Play>, a: Account) {
    forall x: Grade :: MapSum(GradeCredits(cfg, PpGate, h, a, x)) == MapSum(GradeCredits(cfg, PpGate, g, a, x))
  }

  lemma CreditedIsTop(cfg: Config, h: seq<Play>, a: Account, m: int)
    requires cfg.PpMap(m) && BestPlay(h, a, m).Some?
    ensures var p := BestPlay(h, a, m).value; p in h && p.beatmap == m && IsTop(cfg, h, a, p)
  {
  }

  lemma AgreeingTopsOrderFree(cfg: Config, h: seq<Play>, g: seq<Play>, a: Account)
    requires multiset(h) == multiset(g) && TopGradesAgree(cfg, h, a)
    ensures SameGradeCounts(cfg, h, g, a)
  {
    Reordered(h, g);
    BestCreditsSameElements(cfg, h, g, a);
    forall m | cfg.PpMap(m)
      ensures CreditedGrade(h, a, m) == CreditedGrade(g, a, m)
    {
      BestSameElements(h, g, a, m);
      BestPlayIsFirst(h, a, m);
      BestPlayIsFirst(g, a, m);
      if BestPlay(h, a, m).Some? {
        CreditedIsTop(cfg, h, a, m);
        CreditedIsTop(cfg, g, a, m);
      }
    }
    forall x: Grade
      ensures GradeCredits(cfg, PpGate, h, a, x) == GradeCredits(cfg, PpGate, g, a, x)
    {
    }
  }

  lemma SlotOfOther(h: seq<Play>, i: nat, a: Account, m: int)
    requires i < |h| && !Eligible(h[i], a, m)
    ensures Slot([h[i]] + Without(h, i), a, m) == Slot(h, a, m)
  {
    SlotInFront(h[i], Without(h, i), a, m);
    SlotInside(h[..i], h[i], h[i + 1..], a, m);
    assert h == h[..i] + ([h[i]] + h[i + 1..]);
  }

  lemma SlotInside(x: seq<Play>, p: Play, y: seq<Play>, a: Account, m: int)
    requires !Eligible(p, a, m)
    ensures Slot(x + ([p] + y), a, m) == Slot(x + y, a, m)
  {
    SlotConcat(x, [p] + y, a, m);
    SlotConcat(x, y, a, m);
    SlotInFront(p, y, a, m);
  }

  lemma SlotInFront(p: Play, h: seq<Play>, a: Account, m: int)
    requires !Eligible(p, a, m)
    ensures Slot([p] + h, a, m) == Slot(h, a, m)
  {
    NoSlot(p, a, m);
    SlotConcat([p], h, a, m);
  }

  lemma NoSlot(p: Play, a: Account, m: int)
    requires !Eligible(p, a, m)
    ensures Slot([p], a, m) == []
  {
  }

  /** Move one play to the front: it takes its map's credit if it is a top, other maps do not notice. */
  lemma MoveToFront(cfg: Config, h: seq<Play>, a: Account, i: nat) returns (g: seq<Play>)
    requires i < |h| && IsTop(cfg, h, a, h[i])
    ensures multiset(g) == multiset(h)
    ensures BestPlay(g, a, h[i].beatmap) == Some(h[i])
    ensures forall m | m != h[i].beatmap :: BestPlay(g, a, m) == BestPlay(h, a, m)
  {
    var p := h[i];
    g := [p] + Without(h, i);
    assert h == h[..i] + [p] + h[i + 1..];
    forall m | m != p.beatmap
      ensures BestPlay(g, a, m) == BestPlay(h, a, m)
    {
      SlotOfOther(h, i, a, m);
      CreditFromSlot(g, a, m);
      CreditFromSlot(h, a, m);
    }
    Reordered(h, g);
    FrontTakesCredit(cfg, h, g, a, p);
  }

  lemma FrontTakesCredit(cfg: Config, h: seq<Play>, g: seq<Play>, a: Account, p: Play)
    requires (forall x :: x in h <==> x in g) && IsTop(cfg, h, a, p) && g != [] && g[0] == p
    ensures BestPlay(g, a, p.beatmap) == Some(p)
  {
    BestSameElements(h, g, a, p.beatmap);
    BestPlayIsFirst(g, a, p.beatmap);
  }

  /** The grade counters are independent of the history's order exactly when tops agree on their grade. */
  lemma GradesOrderFreeExact(cfg: Config, h: seq<Play>, a: Account)
    ensures TopGradesAgree(cfg, h, a) <==> forall g | multiset(g) == multiset(h) :: SameGradeCounts(cfg, h, g, a)
  {
    if TopGradesAgree(cfg, h, a) {
      forall g | multiset(g) == multiset(h)
        ensures SameGradeCounts(cfg, h, g, a)
      {
        AgreeingTopsOrderFree(cfg, h, g, a);
      }
    } else {
      var p, q :| p in h && q in h && p.beatmap == q.beatmap && IsTop(cfg, h, a, p) && IsTop(cfg, h, a, q)
                  && GradeOf(p.rank) != GradeOf(q.rank);
      var i :| 0 <= i < |h| && h[i] == p;
      var j :| 0 <= j < |h| && h[j] == q;
      var g := ToldApart(cfg, h, a, i, j);
      assert !SameGradeCounts(cfg, h, g, a);
    }
  }

  /** With tops of different grades one of two reorderings changes a counter. */
  lemma ToldApart(cfg: Config, h: seq<Play>, a: Account, i: nat, j: nat) returns (g: seq<Play>)
    requires i < |h| && j < |h| && IsTop(cfg, h, a, h[i]) && IsTop(cfg, h, a, h[j])
    requires h[i].beatmap == h[j].beatmap && GradeOf(h[i].rank) != GradeOf(h[j].rank)
    ensures multiset(g) == multiset(h) && !SameGradeCounts(cfg, h, g, a)
  {
    var u := MoveToFront(cfg, h, a, i);
    var v := MoveToFront(cfg, h, a, j);
    Reordered(h, u);
    Reordered(h, v);
    var x := if GradeOf(h[i].rank).Some? then GradeOf(h[i].rank).value else GradeOf(h[j].rank).value;
    CreditsDiffer(cfg, h, u, v, a, h[i], h[j], x);
    g := if SameGradeCounts(cfg, h, u, a) then v else u;
  }

  lemma CreditsDiffer(cfg: Config, h: seq<Play>, u: seq<Play>, v: seq<Play>, a: Account, p: Play, q: Play, x: Grade)
    requires (forall o :: o in h <==> o in u) && (forall o :: o in h <==> o in v)
    requires p in h && IsTop(cfg, h, a, p) && p.beatmap == q.beatmap
    requires BestPlay(u, a, p.beatmap) == Some(p) && BestPlay(v, a, p.beatmap) == Some(q)
    requires forall m | m != p.beatmap :: BestPlay(u, a, m) == BestPlay(v, a, m)
    requires (GradeOf(p.rank) == Some(x)) != (GradeOf(q.rank) == Some(x))
    ensures MapSum(GradeCredits(cfg, PpGate, u, a, x)) != MapSum(GradeCredits(cfg, PpGate, v, a, x))
  {
    var m, cu, cv := p.beatmap, GradeCredits(cfg, PpGate, u, a, x), GradeCredits(cfg, PpGate, v, a, x);
    assert m in Maps(h, a);
    assert cu.Keys == cv.Keys;
    forall n | n in cu && n != m
      ensures n in cv && cv[n] == cu[n]
    {
    }
    CreditsUpdate(cu, cv, m);
    assert cu[m] != cv[m];
  }

  // ----- The recalculation of one account only reads that account's plays.

  function Own(h: seq<Play>, a: Account): seq<Play> {
    if h == [] then []
    else if Last(h).account == a then Own(Init(h), a) + [Last(h)]
    else Own(Init(h), a)
  }

  lemma {:induction false} OwnPlays(cfg: Config, h: seq<Play>, a: Account)
    ensures forall p :: p in Own(h, a) <==> p in h && p.account == a
    ensures TotalSum(Own(h, a), a) == TotalSum(h, a)
    ensures MaxCombo(cfg, PpGate, Own(h, a), a) == MaxCombo(cfg, PpGate, h, a)
  {
    if h != [] {
      OwnPlays(cfg, Init(h), a);
      assert h == Init(h) + [Last(h)];
      if Last(h).account == a {
        Snoc(Own(Init(h), a), Last(h));
      }
    }
  }

  lemma {:induction false} OwnSlot(h: seq<Play>, a: Account, m: int)
    ensures Slot(Own(h, a), a, m) == Slot(h, a, m)
  {
    if h != [] {
      OwnSlot(Init(h), a, m);
      if Last(h).account == a {
        Snoc(Own(Init(h), a), Last(h));
      }
    }
  }

  lemma OwnCredit(h: seq<Play>, a: Account, m: int)
    ensures Best(Own(h, a), a, m) == Best(h, a, m) && BestPlay(Own(h, a), a, m) == BestPlay(h, a, m)
  {
    OwnSlot(h, a, m);
    CreditFromSlot(h, a, m);
    CreditFromSlot(Own(h, a), a, m);
  }

  lemma OwnBestCredits(cfg: Config, h: seq<Play>, a: Account)
    requires Maps(Own(h, a), a) == Maps(h, a)
    ensures BestCredits(cfg, PpGate, Own(h, a), a) == BestCredits(cfg, PpGate, h, a)
  {
    forall m {
      OwnCredit(h, a, m);
    }
  }

  lemma OwnGradeCredits(cfg: Config, h: seq<Play>, a: Account, g: Grade)
    requires Maps(Own(h, a), a) == Maps(h, a)
    ensures GradeCredits(cfg, PpGate, Own(h, a), a, g) == GradeCredits(cfg, PpGate, h, a, g)
  {
    forall m {
      OwnCredit(h, a, m);
    }
  }

  lemma OwnCredits(cfg: Config, h: seq<Play>, a: Account)
    ensures BestCredits(cfg, PpGate, Own(h, a), a) == BestCredits(cfg, PpGate, h, a)
    ensures forall g :: GradeCredits(cfg, PpGate, Own(h, a), a, g) == GradeCredits(cfg, PpGate, h, a, g)
  {
    OwnPlays(cfg, h, a);
    assert Maps(Own(h, a), a) == Maps(h, a);
    OwnBestCredits(cfg, h, a);
    forall g
      ensures GradeCredits(cfg, PpGate, Own(h, a), a, g) == GradeCredits(cfg, PpGate, h, a, g)
    {
      OwnGradeCredits(cfg, h, a, g);
    }
  }

  /** Rebuilding from the account's own plays is rebuilding from the whole history. */
  lemma RebuiltFromOwn(cfg: Config, h: seq<Play>, a: Account, s: Stats)
    ensures IsRebuilt(cfg, Own(h, a), a, s) <==> IsRebuilt(cfg, h, a, s)
  {
    OwnPlays(cfg, h, a);
    OwnCredits(cfg, h, a);
  }

  lemma OwnTops(cfg: Config, h: seq<Play>, a: Account)
    ensures TopGradesAgree(cfg, Own(h, a), a) <==> TopGradesAgree(cfg, h, a)
  {
    OwnPlays(cfg, h, a);
    forall p: Play
      ensures p in Own(h, a) && IsTop(cfg, Own(h, a), a, p) <==> p in h && IsTop(cfg, h, a, p)
    {
      OwnCredit(h, a, p.beatmap);
    }
  }

  /** g is what the tool reads for account a, in some order. */
  ghost predicate ReadsOwn(h: seq<Play>, a: Account, g: seq<Play>) {
    multiset(g) == multiset(Own(h, a))
  }

  /** What the scores, the level and the combo are rebuilt from is that of the whole history. */
  lemma ReadTotals(cfg: Config, h: seq<Play>, a: Account, g: seq<Play>)
    requires ReadsOwn(h, a, g)
    ensures TotalSum(g, a) == TotalSum(h, a) && MaxCombo(cfg, PpGate, g, a) == MaxCombo(cfg, PpGate, h, a)
    ensures BestCredits(cfg, PpGate, g, a) == BestCredits(cfg, PpGate, h, a)
  {
    var mine := Own(h, a);
    OwnPlays(cfg, h, a);
    OwnCredits(cfg, h, a);
    Reordered(mine, g);
    TotalSumReordered(mine, g, a);
    BestCreditsSameElements(cfg, mine, g, a);
    MaxComboIsMaximum(cfg, mine, a);
    MaxComboIsMaximum(cfg, g, a);
  }
}
