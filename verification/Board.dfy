/**
 What every reachable leaderboard table looks like.

 The invariant is kept per slot, that is per (account, map).  Its last clause pins down exactly which
 rows hold the slot's best total; the grade counters need it, because the row that is looked up as the
 previous best may be any of them.
 */
module Board {
  import opened Common
  import opened Scores
  import opened Ledger

  /** h[i] is the first eligible play of its mod set to reach its total. */
  ghost predicate Earliest(h: seq<Play>, i: nat, a: Account, m: int)
    requires i < |h|
  {
    forall j | 0 <= j < i && Eligible(h[j], a, m) && h[j].mods == h[i].mods :: h[j].total != h[i].total
  }

  /** Every row of the slot is the row of an eligible play of the history. */
  ghost predicate FromHistory(h: seq<Play>, rows: set<Row>, a: Account, m: int) {
    forall r | r in rows :: exists p :: p in h && Eligible(p, a, m) && RowOf(p) == r
  }

  /** At most one row per mod set. */
  ghost predicate UniqueMods(rows: set<Row>) {
    forall r, q | r in rows && q in rows && r.mods == q.mods :: r == q
  }

  /** The best eligible total is on the board. */
  ghost predicate HoldsBest(h: seq<Play>, rows: set<Row>, a: Account, m: int) {
    (exists p :: p in h && Eligible(p, a, m)) ==> exists r :: r in rows && r.total == Best(h, a, m)
  }

  /** The rows holding the best total are exactly those of the earliest plays to reach it. */
  ghost predicate TopRows(h: seq<Play>, rows: set<Row>, a: Account, m: int) {
    forall i | 0 <= i < |h| && Eligible(h[i], a, m) && h[i].total == Best(h, a, m) ::
      Earliest(h, i, a, m) <==> RowOf(h[i]) in rows
  }

  ghost predicate SlotInv(h: seq<Play>, rows: set<Row>, a: Account, m: int) {
    FromHistory(h, rows, a, m) && UniqueMods(rows) && HoldsBest(h, rows, a, m) && TopRows(h, rows, a, m)
  }

  ghost predicate BoardInv(cfg: Config, accounts: set<Account>, h: seq<Play>, rows: set<Row>) {
    forall a, m :: SlotOk(cfg, accounts, h, rows, a, m)
  }

  ghost predicate SlotOk(cfg: Config, accounts: set<Account>, h: seq<Play>, rows: set<Row>, a: Account, m: int) {
    if a in accounts && cfg.BoardMap(m) then SlotInv(h, MapRows(rows, a, m), a, m)
    else MapRows(rows, a, m) == {}
  }

  /** Some earlier play is the earliest one with the mods and total of h[i]. */
  lemma {:induction false} EarliestExists(h: seq<Play>, i: nat, a: Account, m: int) returns (k: nat)
    requires i < |h| && Eligible(h[i], a, m)
    ensures k <= i && Eligible(h[k], a, m) && h[k].mods == h[i].mods && h[k].total == h[i].total
    ensures Earliest(h, k, a, m)
  {
    if Earliest(h, i, a, m) {
      k := i;
    } else {
      var j :| 0 <= j < i && Eligible(h[j], a, m) && h[j].mods == h[i].mods && h[j].total == h[i].total;
      k := EarliestExists(h, j, a, m);
    }
  }

  /** A row of the slot never beats the best total. */
  lemma RowsBounded(h: seq<Play>, rows: set<Row>, a: Account, m: int, r: Row)
    requires FromHistory(h, rows, a, m) && r in rows
    ensures r.total <= Best(h, a, m) && r.account == a && r.beatmap == m
  {
    BestIsMaximum(h, a, m);
  }

  /** The looked-up previous best carries the best total. */
  lemma FirstIsBest(h: seq<Play>, rows: set<Row>, a: Account, m: int, best: Option<Row>)
    requires SlotInv(h, rows, a, m) && IsFirst(rows, best)
    ensures best.Some? ==> best.value.total == Best(h, a, m)
    ensures best.None? ==> Best(h, a, m) == 0
    ensures best.None? <==> !exists p :: p in h && Eligible(p, a, m)
  {
    BestIsMaximum(h, a, m);
    if best.Some? {
      RowsBounded(h, rows, a, m, best.value);
      assert exists p :: p in h && Eligible(p, a, m) && RowOf(p) == best.value;
    }
  }

  /** A play that does not touch the slot leaves its invariant alone. */
  lemma SlotUntouched(h: seq<Play>, rows: set<Row>, a: Account, m: int, p: Play)
    requires SlotInv(h, rows, a, m) && !Eligible(p, a, m)
    ensures SlotInv(h + [p], rows, a, m)
  {
  }

  lemma EarliestPrefix(h: seq<Play>, p: Play, i: nat, a: Account, m: int)
    requires i < |h|
    ensures Earliest(h + [p], i, a, m) <==> Earliest(h, i, a, m)
  {
    var g := h + [p];
    assert forall j | 0 <= j <= i :: g[j] == h[j];
  }

  /** The look-ups of an eligible play, restricted to its slot. */
  ghost predicate SlotPicks(rows: set<Row>, p: Play, best: Option<Row>, bestMod: Option<Row>) {
    IsFirst(rows, best) && IsFirst(WithMods(rows, p.mods), bestMod)
  }

  /** Both look-ups name rows of the slot; they name the same row exactly when the mods agree. */
  lemma PicksOnSlot(h: seq<Play>, rows: set<Row>, p: Play, best: Option<Row>, bestMod: Option<Row>)
    requires SlotInv(h, rows, p.account, p.beatmap) && UniqueIds(h)
    requires SlotPicks(rows, p, best, bestMod)
    ensures best.None? ==> rows == {} && bestMod.None?
    ensures bestMod.Some? ==> bestMod.value.total <= best.value.total
    ensures bestMod.Some? ==> Overwrite(bestMod.value, p) == RowOf(p)
    ensures bestMod.Some? ==> (best.value.scoreId == bestMod.value.scoreId <==> best == bestMod)
    ensures bestMod.Some? ==> (best == bestMod <==> best.value.mods == p.mods)
  {
  }

  /** The row machine in one clause: p's row enters exactly when it beats the row of its mods, that row
      leaves for it, and the best row leaves when p beats it.  So a deleted best is always replaced. */
  lemma MachineMeaning(h: seq<Play>, rows: set<Row>, p: Play, best: Option<Row>, bestMod: Option<Row>)
    requires SlotInv(h, rows, p.account, p.beatmap) && UniqueIds(h + [p])
    requires SlotPicks(rows, p, best, bestMod)
    ensures
      var after := RowMachine(rows, p, best, bestMod);
      var enters := bestMod.None? || bestMod.value.total < p.total;
      && RowOf(p) !in rows
      && (RowOf(p) in after <==> enters)
      && (forall r | r != RowOf(p) :: r in after <==>
           r in rows && !(enters && bestMod == Some(r)) &&
           !(enters && bestMod.Some? && best == Some(r) && r.total < p.total))
  {
    var g := h + [p];
    assert g[..|h|] == h;
    assert UniqueIds(h) by {
      assert forall i | 0 <= i < |h| :: g[i] == h[i];
    }
    PicksOnSlot(h, rows, p, best, bestMod);
    forall q | q in h
      ensures q.id != p.id
    {
      var i :| 0 <= i < |h| && h[i] == q;
      assert g[i] == q && g[|h|] == p;
    }
  }

  lemma StepFromHistory(h: seq<Play>, rows: set<Row>, p: Play, best: Option<Row>, bestMod: Option<Row>)
    requires SlotInv(h, rows, p.account, p.beatmap) && UniqueIds(h + [p])
    requires SlotPicks(rows, p, best, bestMod) && Eligible(p, p.account, p.beatmap)
    ensures FromHistory(h + [p], RowMachine(rows, p, best, bestMod), p.account, p.beatmap)
  {
    MachineMeaning(h, rows, p, best, bestMod);
    assert forall q | q in h :: q in h + [p];
    assert p in h + [p];
  }

  lemma StepUniqueMods(h: seq<Play>, rows: set<Row>, p: Play, best: Option<Row>, bestMod: Option<Row>)
    requires SlotInv(h, rows, p.account, p.beatmap) && UniqueIds(h + [p])
    requires SlotPicks(rows, p, best, bestMod) && Eligible(p, p.account, p.beatmap)
    ensures UniqueMods(RowMachine(rows, p, best, bestMod))
  {
  }

  lemma StepHoldsBest(h: seq<Play>, rows: set<Row>, p: Play, best: Option<Row>, bestMod: Option<Row>)
    requires SlotInv(h, rows, p.account, p.beatmap) && UniqueIds(h + [p])
    requires SlotPicks(rows, p, best, bestMod) && Eligible(p, p.account, p.beatmap)
    ensures HoldsBest(h + [p], RowMachine(rows, p, best, bestMod), p.account, p.beatmap)
  {
    var a, m := p.account, p.beatmap;
    Snoc(h, p);
    MachineMeaning(h, rows, p, best, bestMod);
    FirstIsBest(h, rows, a, m, best);
    assert best.None? ==> bestMod.None?;
    var after := RowMachine(rows, p, best, bestMod);
    if best.None? || best.value.total < p.total {
      assert RowOf(p) in after;
    } else {
      assert best.value in after;
    }
  }

  lemma StepTopRows(h: seq<Play>, rows: set<Row>, p: Play, best: Option<Row>, bestMod: Option<Row>)
    requires SlotInv(h, rows, p.account, p.beatmap) && UniqueIds(h + [p])
    requires SlotPicks(rows, p, best, bestMod) && Eligible(p, p.account, p.beatmap)
    ensures TopRows(h + [p], RowMachine(rows, p, best, bestMod), p.account, p.beatmap)
  {
    var a, m, g := p.account, p.beatmap, h + [p];
    Snoc(h, p);
    MachineMeaning(h, rows, p, best, bestMod);
    FirstIsBest(h, rows, a, m, best);
    BestIsMaximum(h, a, m);
    var after := RowMachine(rows, p, best, bestMod);
    forall i | 0 <= i < |g| && Eligible(g[i], a, m) && g[i].total == Best(g, a, m)
      ensures Earliest(g, i, a, m) <==> RowOf(g[i]) in after
    {
      if i < |h| {
        assert g[i] == h[i] && h[i] in h;
        EarliestPrefix(h, p, i, a, m);
        assert g[i].id != p.id;
      } else {
        LastIsEarliest(h, rows, p, best, bestMod);
      }
    }
  }

  /** The new play is the earliest at the best total exactly when its row enters. */
  lemma LastIsEarliest(h: seq<Play>, rows: set<Row>, p: Play, best: Option<Row>, bestMod: Option<Row>)
    requires SlotInv(h, rows, p.account, p.beatmap) && SlotPicks(rows, p, best, bestMod)
    requires p.total >= Best(h, p.account, p.beatmap)
    ensures Earliest(h + [p], |h|, p.account, p.beatmap) <==> bestMod.None? || bestMod.value.total < p.total
  {
    var a, m, g := p.account, p.beatmap, h + [p];
    assert forall j | 0 <= j < |h| :: g[j] == h[j];
    BestIsMaximum(h, a, m);
    if bestMod.Some? && bestMod.value.total >= p.total {
      RowsBounded(h, rows, a, m, bestMod.value);
      var q :| q in h && Eligible(q, a, m) && RowOf(q) == bestMod.value;
      var j :| 0 <= j < |h| && h[j] == q;
      assert g[j].mods == p.mods && g[j].total == p.total;
    } else {
      forall j | 0 <= j < |h| && Eligible(h[j], a, m) && h[j].mods == p.mods
        ensures h[j].total != p.total
      {
        assert h[j] in h;
        var k := EarliestExists(h, j, a, m);
        assert h[k].total == Best(h, a, m) ==> RowOf(h[k]) in WithMods(rows, p.mods);
      }
    }
  }

  lemma SlotStep(h: seq<Play>, rows: set<Row>, p: Play, best: Option<Row>, bestMod: Option<Row>)
    requires SlotInv(h, rows, p.account, p.beatmap) && UniqueIds(h + [p])
    requires SlotPicks(rows, p, best, bestMod) && Eligible(p, p.account, p.beatmap)
    ensures SlotInv(h + [p], RowMachine(rows, p, best, bestMod), p.account, p.beatmap)
  {
    StepFromHistory(h, rows, p, best, bestMod);
    StepUniqueMods(h, rows, p, best, bestMod);
    StepHoldsBest(h, rows, p, best, bestMod);
    StepTopRows(h, rows, p, best, bestMod);
  }

  /** The machine on the whole table is the machine on its slot; other slots stand still. */
  lemma MachineIsLocal(rows: set<Row>, p: Play, best: Option<Row>, bestMod: Option<Row>, a: Account, m: int)
    requires SlotPicks(MapRows(rows, p.account, p.beatmap), p, best, bestMod)
    ensures MapRows(RowMachine(rows, p, best, bestMod), a, m) ==
      if a == p.account && m == p.beatmap then RowMachine(MapRows(rows, a, m), p, best, bestMod)
      else MapRows(rows, a, m)
  {
  }

  lemma BoardStep(cfg: Config, accounts: set<Account>, h: seq<Play>, rows: set<Row>, p: Play,
                  best: Option<Row>, bestMod: Option<Row>)
    requires BoardInv(cfg, accounts, h, rows) && UniqueIds(h + [p]) && p.account in accounts
    requires LegalPicks(cfg, rows, p, best, bestMod)
    ensures BoardInv(cfg, accounts, h + [p], RowsAfter(cfg, rows, p, best, bestMod))
  {
    var after := RowsAfter(cfg, rows, p, best, bestMod);
    forall a, m
      ensures SlotOk(cfg, accounts, h + [p], after, a, m)
    {
      assert SlotOk(cfg, accounts, h, rows, a, m);
      if OnBoard(cfg, p) {
        MachineIsLocal(rows, p, best, bestMod, a, m);
      }
      if a in accounts && cfg.BoardMap(m) {
        if Eligible(p, a, m) {
          SlotStep(h, MapRows(rows, a, m), p, best, bestMod);
        } else {
          SlotUntouched(h, MapRows(rows, a, m), a, m, p);
        }
      }
    }
  }

  lemma BoardSkip(cfg: Config, accounts: set<Account>, h: seq<Play>, rows: set<Row>, p: Play)
    requires BoardInv(cfg, accounts, h, rows) && p.account !in accounts
    ensures BoardInv(cfg, accounts, h + [p], rows)
  {
    forall a, m
      ensures SlotOk(cfg, accounts, h + [p], rows, a, m)
    {
      assert SlotOk(cfg, accounts, h, rows, a, m);
      if a in accounts && cfg.BoardMap(m) {
        SlotUntouched(h, MapRows(rows, a, m), a, m, p);
      }
    }
  }

  lemma BoardStart(cfg: Config, accounts: set<Account>)
    ensures BoardInv(cfg, accounts, [], {})
  {
  }

  lemma UniqueIdsPrefix(h: seq<Play>)
    requires h != [] && UniqueIds(h)
    ensures UniqueIds(Init(h)) && h == Init(h) + [Last(h)]
  {
  }

  /** The invariant holds in every reachable state; statistics rows are neither made nor lost. */
  lemma {:induction false} BoardReachable(cfg: Config, accounts: set<Account>, h: seq<Play>, s: State)
    requires UniqueIds(h) && Reaches(cfg, accounts, h, s)
    ensures BoardInv(cfg, accounts, h, s.rows)
    ensures s.stats.Keys == accounts
  {
    if h == [] {
      BoardStart(cfg, accounts);
    } else {
      UniqueIdsPrefix(h);
      var before :| Reaches(cfg, accounts, Init(h), before) && Step(cfg, before, Last(h), s);
      BoardReachable(cfg, accounts, Init(h), before);
      if Last(h).account in before.stats {
        var best, bestMod :| StepWith(cfg, before, Last(h), best, bestMod, s);
        BoardStep(cfg, accounts, Init(h), before.rows, Last(h), best, bestMod);
      } else {
        BoardSkip(cfg, accounts, Init(h), before.rows, Last(h));
      }
    }
  }

  /** In every reachable table a score id names one row, as does a map with its mod set, and every row is
      that of a play the account really made. */
  lemma TableKeys(cfg: Config, accounts: set<Account>, h: seq<Play>, s: State, r: Row, q: Row)
    requires UniqueIds(h) && Reaches(cfg, accounts, h, s) && r in s.rows && q in s.rows
    ensures r.scoreId == q.scoreId ==> r == q
    ensures r.account == q.account && r.beatmap == q.beatmap && r.mods == q.mods ==> r == q
    ensures exists p :: p in h && OnBoard(cfg, p) && RowOf(p) == r
  {
    BoardReachable(cfg, accounts, h, s);
    var p := RowIsPlayed(cfg, accounts, h, s.rows, r);
    var o := RowIsPlayed(cfg, accounts, h, s.rows, q);
    var i :| 0 <= i < |h| && h[i] == p;
    var j :| 0 <= j < |h| && h[j] == o;
    assert p.id == o.id ==> i == j;
    assert r in MapRows(s.rows, r.account, r.beatmap) && q in MapRows(s.rows, q.account, q.beatmap);
    assert SlotOk(cfg, accounts, h, s.rows, r.account, r.beatmap);
  }

  lemma RowIsPlayed(cfg: Config, accounts: set<Account>, h: seq<Play>, rows: set<Row>, r: Row) returns (p: Play)
    requires BoardInv(cfg, accounts, h, rows) && r in rows
    ensures p in h && OnBoard(cfg, p) && RowOf(p) == r
  {
    assert SlotOk(cfg, accounts, h, rows, r.account, r.beatmap);
    assert r in MapRows(rows, r.account, r.beatmap);
    p :| p in h && Eligible(p, r.account, r.beatmap) && RowOf(p) == r;
  }
}
