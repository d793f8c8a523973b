/**
 Which histories can lose a leaderboard row for good?

 A deleted row comes back when a later play of its mods reaches its total again.  Whether case four is
 entered depends on which mod sets have a row, and with tied totals on which row is looked up.  The
 recursions below follow that from the submissions alone: they say what some run can do.
 */
module BoardLosses {
  import opened Common
  import opened Scores
  import opened Ledger
  import opened Board
  import opened BoardRebuild
  import opened BoardOrder
  import opened BoardRuns
  import opened Runs

  /** The mod set of a row. */
  datatype ModSet = ModSet(acronyms: set<string>)

  /** The best eligible total with a mod set. */
  function ModBest(h: seq<Play>, a: Account, m: int, k: ModSet): Option<nat> {
    if h == [] then None
    else
      var best := ModBest(Init(h), a, m, k);
      if Eligible(Last(h), a, m) && Last(h).mods == k.acronyms && (best.None? || Last(h).total > best.value)
      then Some(Last(h).total) else best
  }

  /** The mod set holds the best total of the map. */
  predicate Tied(h: seq<Play>, a: Account, m: int, k: ModSet) {
    ModBest(h, a, m, k) == Some(Best(h, a, m))
  }

  predicate Leads(h: seq<Play>, p: Play, a: Account, m: int) {
    Eligible(p, a, m) && p.total > Best(h, a, m)
  }

  /** p takes the lead from rows of which k's is one. */
  predicate Threatens(h: seq<Play>, p: Play, a: Account, m: int, k: ModSet) {
    Leads(h, p, a, m) && p.mods != k.acronyms && Tied(h, a, m, k)
  }

  /** Some run leaves k with a row. */
  ghost predicate MayHold(h: seq<Play>, a: Account, m: int, k: ModSet)
    decreases |h|
  {
    h != [] &&
    var p, front := Last(h), Init(h);
    if Eligible(p, a, m) && p.mods == k.acronyms then true
    else if Threatens(front, p, a, m, k) then
      MayMiss(front, a, m, ModSet(p.mods)) || exists x :: x != k && Tied(front, a, m, x)
    else MayHold(front, a, m, k)
  }

  /** Some run leaves k without a row. */
  ghost predicate MayMiss(h: seq<Play>, a: Account, m: int, k: ModSet)
    decreases |h|
  {
    h != [] ==>
    var p, front := Last(h), Init(h);
    if Eligible(p, a, m) && p.mods == k.acronyms then false
    else if Threatens(front, p, a, m, k) then MayHold(front, a, m, ModSet(p.mods))
    else MayMiss(front, a, m, k)
  }

  /** Some run leaves k without a row of its best total. */
  ghost predicate MayLose(h: seq<Play>, a: Account, m: int, k: ModSet)
    decreases |h|
  {
    h != [] &&
    var p, front := Last(h), Init(h);
    if Eligible(p, a, m) && p.mods == k.acronyms && ModBest(h, a, m, k) == Some(p.total) then false
    else if Threatens(front, p, a, m, k) then MayHold(front, a, m, ModSet(p.mods))
    else MayLose(front, a, m, k)
  }

  // ----- One slot of a state.

  ghost predicate HasRow(slot: set<Row>, k: ModSet) {
    exists r :: r in slot && r.mods == k.acronyms
  }

  ghost predicate HoldsBestOf(slot: set<Row>, h: seq<Play>, a: Account, m: int, k: ModSet) {
    exists r :: r in slot && r.mods == k.acronyms && ModBest(h, a, m, k) == Some(r.total)
  }

  /** k has been played, but its best total is not on the board. */
  ghost predicate Lost(slot: set<Row>, h: seq<Play>, a: Account, m: int, k: ModSet) {
    ModBest(h, a, m, k).Some? && !HoldsBestOf(slot, h, a, m, k)
  }

  lemma {:induction false} ModBestIsMaximum(h: seq<Play>, a: Account, m: int, k: ModSet)
    ensures forall p | p in h && Eligible(p, a, m) && p.mods == k.acronyms ::
      ModBest(h, a, m, k).Some? && p.total <= ModBest(h, a, m, k).value
    ensures ModBest(h, a, m, k).Some? ==>
      exists p :: p in h && Eligible(p, a, m) && p.mods == k.acronyms && p.total == ModBest(h, a, m, k).value
  {
    if h != [] {
      ModBestIsMaximum(Init(h), a, m, k);
      assert h == Init(h) + [Last(h)];
      assert forall p :: p in h <==> p in Init(h) || p == Last(h);
    }
  }

  lemma ModBestBelowBest(h: seq<Play>, a: Account, m: int, k: ModSet)
    ensures ModBest(h, a, m, k).Some? ==> ModBest(h, a, m, k).value <= Best(h, a, m)
  {
    ModBestIsMaximum(h, a, m, k);
    BestIsMaximum(h, a, m);
  }

  /** A mod set that holds the best total of the map has a row with it, in every run. */
  lemma TiedHasRow(h: seq<Play>, rows: set<Row>, a: Account, m: int, k: ModSet) returns (r: Row)
    requires SlotInv(h, rows, a, m) && Tied(h, a, m, k)
    ensures r in rows && r.mods == k.acronyms && r.total == Best(h, a, m) && r.account == a && r.beatmap == m
  {
    ModBestIsMaximum(h, a, m, k);
    var p :| p in h && Eligible(p, a, m) && p.mods == k.acronyms && p.total == ModBest(h, a, m, k).value;
    var i :| 0 <= i < |h| && h[i] == p;
    var e := EarliestExists(h, i, a, m);
    r := RowOf(h[e]);
  }

  /** A row never exceeds the best of its mods. */
  lemma RowBelowModBest(h: seq<Play>, rows: set<Row>, a: Account, m: int, r: Row)
    requires FromHistory(h, rows, a, m) && r in rows
    ensures r.account == a && r.beatmap == m
    ensures ModBest(h, a, m, ModSet(r.mods)).Some? && r.total <= ModBest(h, a, m, ModSet(r.mods)).value
  {
    ModBestIsMaximum(h, a, m, ModSet(r.mods));
    var p :| p in h && Eligible(p, a, m) && RowOf(p) == r;
  }

  // ----- One step on the slot.

  lemma ModBestStep(h: seq<Play>, p: Play, a: Account, m: int, k: ModSet)
    ensures
      var best := ModBest(h, a, m, k);
      ModBest(h + [p], a, m, k) ==
        if Eligible(p, a, m) && p.mods == k.acronyms && (best.None? || p.total > best.value) then Some(p.total)
        else best
  {
    Snoc(h, p);
  }

  /** The mods of the play have a row afterwards, of its total or more. */
  lemma OwnModsHeld(h: seq<Play>, slot: set<Row>, p: Play, best: Option<Row>, bestMod: Option<Row>) returns (r: Row)
    requires SlotInv(h, slot, p.account, p.beatmap) && UniqueIds(h + [p]) && SlotPicks(slot, p, best, bestMod)
    ensures r in RowMachine(slot, p, best, bestMod) && r.mods == p.mods && p.total <= r.total
  {
    MachineMeaning(h, slot, p, best, bestMod);
    if bestMod.None? || bestMod.value.total < p.total {
      r := RowOf(p);
    } else {
      r := bestMod.value;
    }
  }

  /** Rows of other mods that are not threatened stay, and none is added. */
  lemma OthersStay(h: seq<Play>, slot: set<Row>, p: Play, best: Option<Row>, bestMod: Option<Row>, r: Row)
    requires SlotInv(h, slot, p.account, p.beatmap) && UniqueIds(h + [p]) && SlotPicks(slot, p, best, bestMod)
    requires Eligible(p, p.account, p.beatmap)
    requires r.mods != p.mods && !Threatens(h, p, p.account, p.beatmap, ModSet(r.mods))
    ensures r in RowMachine(slot, p, best, bestMod) <==> r in slot
  {
    var a, m := p.account, p.beatmap;
    MachineMeaning(h, slot, p, best, bestMod);
    FirstIsBest(h, slot, a, m, best);
    if r in slot {
      RowBelowModBest(h, slot, a, m, r);
      ModBestBelowBest(h, a, m, ModSet(r.mods));
    }
  }

  /** A threatened row goes exactly if it is looked up and the play's mods have a row. */
  lemma ThreatenedRow(h: seq<Play>, slot: set<Row>, p: Play, best: Option<Row>, bestMod: Option<Row>, r: Row)
    requires SlotInv(h, slot, p.account, p.beatmap) && UniqueIds(h + [p]) && SlotPicks(slot, p, best, bestMod)
    requires r in slot && r.total == Best(h, p.account, p.beatmap) < p.total && r.mods != p.mods
    ensures r in RowMachine(slot, p, best, bestMod) <==> !(bestMod.Some? && best == Some(r))
    ensures forall q | q in RowMachine(slot, p, best, bestMod) && q.mods == r.mods :: q == r
  {
    var a, m := p.account, p.beatmap;
    MachineMeaning(h, slot, p, best, bestMod);
    if bestMod.Some? {
      RowsBounded(h, slot, a, m, bestMod.value);
    }
  }

  // ----- What a run does is foreseen.

  ghost predicate Foreseen(slot: set<Row>, h: seq<Play>, a: Account, m: int, k: ModSet) {
    && (HasRow(slot, k) ==> MayHold(h, a, m, k))
    && (!HasRow(slot, k) ==> MayMiss(h, a, m, k))
    && (Lost(slot, h, a, m, k) ==> MayLose(h, a, m, k))
  }

  lemma ForeseenElsewhere(h: seq<Play>, slot: set<Row>, p: Play, a: Account, m: int, k: ModSet)
    requires Foreseen(slot, h, a, m, k) && !Eligible(p, a, m)
    ensures Foreseen(slot, h + [p], a, m, k)
  {
    Snoc(h, p);
    ModBestStep(h, p, a, m, k);
  }

  lemma ForeseenOwn(h: seq<Play>, slot: set<Row>, p: Play, best: Option<Row>, bestMod: Option<Row>, k: ModSet)
    requires SlotInv(h, slot, p.account, p.beatmap) && UniqueIds(h + [p]) && SlotPicks(slot, p, best, bestMod)
    requires Eligible(p, p.account, p.beatmap) && k == ModSet(p.mods)
    requires Foreseen(slot, h, p.account, p.beatmap, k)
    ensures Foreseen(RowMachine(slot, p, best, bestMod), h + [p], p.account, p.beatmap, k)
  {
    Snoc(h, p);
    var r := OwnModsHeld(h, slot, p, best, bestMod);
    assert HasRow(RowMachine(slot, p, best, bestMod), k);
    OwnBestHeld(h, slot, p, best, bestMod, k);
  }

  /** A play that is the best of its mods leaves their row with that total. */
  lemma NewBestHeld(h: seq<Play>, slot: set<Row>, p: Play, best: Option<Row>, bestMod: Option<Row>, k: ModSet)
    requires SlotInv(h, slot, p.account, p.beatmap) && UniqueIds(h + [p]) && SlotPicks(slot, p, best, bestMod)
    requires Eligible(p, p.account, p.beatmap) && k == ModSet(p.mods)
    requires ModBest(h + [p], p.account, p.beatmap, k) == Some(p.total)
    ensures HoldsBestOf(RowMachine(slot, p, best, bestMod), h + [p], p.account, p.beatmap, k)
  {
    var r := OwnModsHeld(h, slot, p, best, bestMod);
    StepFromHistory(h, slot, p, best, bestMod);
    RowBelowModBest(h + [p], RowMachine(slot, p, best, bestMod), p.account, p.beatmap, r);
  }

  /** The play's own mods hold their best total if they did, or if the play is that best. */
  lemma OwnBestHeld(h: seq<Play>, slot: set<Row>, p: Play, best: Option<Row>, bestMod: Option<Row>, k: ModSet)
    requires SlotInv(h, slot, p.account, p.beatmap) && UniqueIds(h + [p]) && SlotPicks(slot, p, best, bestMod)
    requires Eligible(p, p.account, p.beatmap) && k == ModSet(p.mods)
    ensures
      ModBest(h + [p], p.account, p.beatmap, k) == Some(p.total) || HoldsBestOf(slot, h, p.account, p.beatmap, k) ==>
      HoldsBestOf(RowMachine(slot, p, best, bestMod), h + [p], p.account, p.beatmap, k)
  {
    var a, m := p.account, p.beatmap;
    ModBestStep(h, p, a, m, k);
    if ModBest(h + [p], a, m, k) == Some(p.total) {
      NewBestHeld(h, slot, p, best, bestMod, k);
    } else if HoldsBestOf(slot, h, a, m, k) {
      var q :| q in slot && q.mods == k.acronyms && ModBest(h, a, m, k) == Some(q.total);
      BestModStays(h, slot, p, best, bestMod, q);
    }
  }

  /** A play below the row of its mods changes nothing about it. */
  lemma BestModStays(h: seq<Play>, slot: set<Row>, p: Play, best: Option<Row>, bestMod: Option<Row>, q: Row)
    requires SlotInv(h, slot, p.account, p.beatmap) && UniqueIds(h + [p]) && SlotPicks(slot, p, best, bestMod)
    requires q in slot && q.mods == p.mods && p.total < q.total
    ensures q in RowMachine(slot, p, best, bestMod)
  {
    MachineMeaning(h, slot, p, best, bestMod);
    assert q in WithMods(slot, p.mods);
  }

  lemma ForeseenOther(h: seq<Play>, slot: set<Row>, p: Play, best: Option<Row>, bestMod: Option<Row>, k: ModSet)
    requires SlotInv(h, slot, p.account, p.beatmap) && UniqueIds(h + [p]) && SlotPicks(slot, p, best, bestMod)
    requires Eligible(p, p.account, p.beatmap) && k.acronyms != p.mods && !Threatens(h, p, p.account, p.beatmap, k)
    requires Foreseen(slot, h, p.account, p.beatmap, k)
    ensures Foreseen(RowMachine(slot, p, best, bestMod), h + [p], p.account, p.beatmap, k)
  {
    var a, m, after := p.account, p.beatmap, RowMachine(slot, p, best, bestMod);
    Snoc(h, p);
    ModBestStep(h, p, a, m, k);
    forall r: Row | r.mods == k.acronyms
      ensures r in after <==> r in slot
    {
      OthersStay(h, slot, p, best, bestMod, r);
    }
  }

  lemma ForeseenThreat(h: seq<Play>, slot: set<Row>, p: Play, best: Option<Row>, bestMod: Option<Row>, k: ModSet)
    requires SlotInv(h, slot, p.account, p.beatmap) && UniqueIds(h + [p]) && SlotPicks(slot, p, best, bestMod)
    requires Threatens(h, p, p.account, p.beatmap, k)
    requires Foreseen(slot, h, p.account, p.beatmap, k) && Foreseen(slot, h, p.account, p.beatmap, ModSet(p.mods))
    ensures Foreseen(RowMachine(slot, p, best, bestMod), h + [p], p.account, p.beatmap, k)
  {
    var a, m, after := p.account, p.beatmap, RowMachine(slot, p, best, bestMod);
    Snoc(h, p);
    ModBestStep(h, p, a, m, k);
    var r := TiedHasRow(h, slot, a, m, k);
    ThreatenedRow(h, slot, p, best, bestMod, r);
    if bestMod.Some? {
      assert bestMod.value in slot && bestMod.value.mods == p.mods;
      assert HasRow(slot, ModSet(p.mods));
      if best != Some(r) {
        OtherTiedPick(h, slot, a, m, best, r);
        assert ModSet(best.value.mods) != k;
      }
    } else {
      assert !HasRow(slot, ModSet(p.mods)) by {
        assert forall q | q in slot && q.mods == p.mods :: q in WithMods(slot, p.mods);
      }
    }
    if r in after {
      assert HasRow(after, k) && HoldsBestOf(after, h + [p], a, m, k);
    }
  }

  lemma OtherTiedPick(h: seq<Play>, slot: set<Row>, a: Account, m: int, best: Option<Row>, r: Row)
    requires SlotInv(h, slot, a, m) && IsFirst(slot, best) && r in slot && best != Some(r)
    ensures best.Some? && best.value.mods != r.mods && Tied(h, a, m, ModSet(best.value.mods))
  {
    FirstIsBest(h, slot, a, m, best);
    BestRowIsTied(h, slot, a, m, best.value);
  }

  lemma BestRowIsTied(h: seq<Play>, slot: set<Row>, a: Account, m: int, r: Row)
    requires FromHistory(h, slot, a, m) && r in slot && r.total == Best(h, a, m)
    ensures Tied(h, a, m, ModSet(r.mods))
  {
    RowBelowModBest(h, slot, a, m, r);
    ModBestBelowBest(h, a, m, ModSet(r.mods));
  }

  /** A submission that does not count for the slot leaves it alone. */
  lemma SlotElsewhere(cfg: Config, s: State, p: Play, t: State, a: Account, m: int)
    requires Step(cfg, s, p, t) && cfg.BoardMap(m) && !Eligible(p, a, m)
    ensures MapRows(t.rows, a, m) == MapRows(s.rows, a, m)
  {
    if p.account in s.stats {
      var best, bestMod :| StepWith(cfg, s, p, best, bestMod, t);
      if OnBoard(cfg, p) {
        MachineIsLocal(s.rows, p, best, bestMod, a, m);
      }
    }
  }

  lemma StepForeseen(cfg: Config, accounts: set<Account>, h: seq<Play>, s: State, p: Play, t: State, k: ModSet)
    requires BoardInv(cfg, accounts, h, s.rows) && s.stats.Keys == accounts && UniqueIds(h + [p])
    requires p.account in accounts
    requires Step(cfg, s, p, t) && OnBoard(cfg, p)
    requires forall x :: Foreseen(MapRows(s.rows, p.account, p.beatmap), h, p.account, p.beatmap, x)
    ensures Foreseen(MapRows(t.rows, p.account, p.beatmap), h + [p], p.account, p.beatmap, k)
  {
    var a, m := p.account, p.beatmap;
    var slot := MapRows(s.rows, a, m);
    assert SlotOk(cfg, accounts, h, s.rows, a, m);
    var best, bestMod :| StepWith(cfg, s, p, best, bestMod, t);
    MachineIsLocal(s.rows, p, best, bestMod, a, m);
    assert Foreseen(slot, h, a, m, k) && Foreseen(slot, h, a, m, ModSet(p.mods));
    if k == ModSet(p.mods) {
      ForeseenOwn(h, slot, p, best, bestMod, k);
    } else if Threatens(h, p, a, m, k) {
      ForeseenThreat(h, slot, p, best, bestMod, k);
    } else {
      ForeseenOther(h, slot, p, best, bestMod, k);
    }
  }

  /** Whatever a run does to a mod set was foreseen from the history. */
  lemma {:induction false} RunsForeseen(cfg: Config, accounts: set<Account>, h: seq<Play>, s: State, a: Account,
                                        m: int, k: ModSet)
    requires UniqueIds(h) && Reaches(cfg, accounts, h, s) && a in accounts && cfg.BoardMap(m)
    ensures Foreseen(MapRows(s.rows, a, m), h, a, m, k)
    decreases |h|
  {
    if h != [] {
      var p, front := Last(h), Init(h);
      UniqueIdsPrefix(h);
      var before :| Reaches(cfg, accounts, front, before) && Step(cfg, before, p, s);
      BoardReachable(cfg, accounts, front, before);
      if Eligible(p, a, m) {
        forall x {
          RunsForeseen(cfg, accounts, front, before, a, m, x);
        }
        StepForeseen(cfg, accounts, front, before, p, s, k);
      } else {
        RunsForeseen(cfg, accounts, front, before, a, m, k);
        SlotElsewhere(cfg, before, p, s, a, m);
        ForeseenElsewhere(front, MapRows(before.rows, a, m), p, a, m, k);
      }
    }
  }

  // ----- What is foreseen, some run does.

  /** Go on with a chosen row as the best of the map. */
  lemma GoOnWith(cfg: Config, accounts: set<Account>, h: seq<Play>, s: State, p: Play, r: Row)
    returns (bestMod: Option<Row>, t: State)
    requires Reaches(cfg, accounts, h, s) && p.account in s.stats && OnBoard(cfg, p)
    requires IsFirst(MapRows(s.rows, p.account, p.beatmap), Some(r))
    ensures Reaches(cfg, accounts, h + [p], t) && SlotPicks(MapRows(s.rows, p.account, p.beatmap), p, Some(r), bestMod)
    ensures MapRows(t.rows, p.account, p.beatmap) ==
      RowMachine(MapRows(s.rows, p.account, p.beatmap), p, Some(r), bestMod)
  {
    Snoc(h, p);
    bestMod, t := StepTo(cfg, s, p, Some(r));
    assert Step(cfg, s, p, t);
    MachineIsLocal(s.rows, p, Some(r), bestMod, p.account, p.beatmap);
  }

  lemma TiedIsFirst(h: seq<Play>, slot: set<Row>, a: Account, m: int, r: Row)
    requires SlotInv(h, slot, a, m) && r in slot && r.total == Best(h, a, m)
    ensures IsFirst(slot, Some(r))
  {
    forall x | x in slot
      ensures x.total <= r.total
    {
      RowsBounded(h, slot, a, m, x);
    }
  }

  /** Take the lead from k's row, looking it up: it goes exactly if the play's mods have a row. */
  lemma TakeFrom(cfg: Config, accounts: set<Account>, h: seq<Play>, s: State, p: Play, x: ModSet, k: ModSet)
    returns (t: State)
    requires UniqueIds(h + [p]) && Reaches(cfg, accounts, h, s) && p.account in accounts && OnBoard(cfg, p)
    requires Threatens(h, p, p.account, p.beatmap, k) && Tied(h, p.account, p.beatmap, x)
    ensures Reaches(cfg, accounts, h + [p], t)
    ensures HasRow(MapRows(t.rows, p.account, p.beatmap), k) <==>
      !(x == k && HasRow(MapRows(s.rows, p.account, p.beatmap), ModSet(p.mods)))
  {
    var a, m := p.account, p.beatmap;
    var slot := MapRows(s.rows, a, m);
    UniqueIdsPrefix(h + [p]);
    Snoc(h, p);
    BoardReachable(cfg, accounts, h, s);
    assert SlotOk(cfg, accounts, h, s.rows, a, m);
    var q := TiedHasRow(h, slot, a, m, x);
    var r := TiedHasRow(h, slot, a, m, k);
    TiedIsFirst(h, slot, a, m, q);
    var bestMod;
    bestMod, t := GoOnWith(cfg, accounts, h, s, p, q);
    ThreatenedRow(h, slot, p, Some(q), bestMod, r);
    assert q == r <==> x == k;
    assert bestMod.Some? <==> HasRow(slot, ModSet(p.mods)) by {
      assert forall y | y in slot && y.mods == p.mods :: y in WithMods(slot, p.mods);
    }
  }

  lemma StillHeld(cfg: Config, accounts: set<Account>, h: seq<Play>, s: State, p: Play, t: State, a: Account, m: int,
                  k: ModSet)
    requires UniqueIds(h + [p]) && Reaches(cfg, accounts, h, s) && a in accounts && cfg.BoardMap(m)
    requires Step(cfg, s, p, t)
    requires !(Eligible(p, a, m) && p.mods == k.acronyms) && !Threatens(h, p, a, m, k)
    ensures forall r: Row | r.mods == k.acronyms :: r in MapRows(t.rows, a, m) <==> r in MapRows(s.rows, a, m)
    ensures ModBest(h + [p], a, m, k) == ModBest(h, a, m, k)
  {
    ModBestStep(h, p, a, m, k);
    UniqueIdsPrefix(h + [p]);
    Snoc(h, p);
    BoardReachable(cfg, accounts, h, s);
    if Eligible(p, a, m) {
      assert SlotOk(cfg, accounts, h, s.rows, a, m);
      var best, bestMod :| StepWith(cfg, s, p, best, bestMod, t);
      MachineIsLocal(s.rows, p, best, bestMod, a, m);
      forall r: Row | r.mods == k.acronyms {
        OthersStay(h, MapRows(s.rows, a, m), p, best, bestMod, r);
      }
    } else {
      SlotElsewhere(cfg, s, p, t, a, m);
    }
  }

  lemma PlayedIsHeld(cfg: Config, accounts: set<Account>, h: seq<Play>, s: State, p: Play, t: State)
    requires UniqueIds(h + [p]) && Reaches(cfg, accounts, h, s) && p.account in accounts && OnBoard(cfg, p)
    requires Step(cfg, s, p, t)
    ensures HasRow(MapRows(t.rows, p.account, p.beatmap), ModSet(p.mods))
  {
    UniqueIdsPrefix(h + [p]);
    Snoc(h, p);
    BoardReachable(cfg, accounts, h, s);
    assert SlotOk(cfg, accounts, h, s.rows, p.account, p.beatmap);
    var best, bestMod :| StepWith(cfg, s, p, best, bestMod, t);
    MachineIsLocal(s.rows, p, best, bestMod, p.account, p.beatmap);
    var r := OwnModsHeld(h, MapRows(s.rows, p.account, p.beatmap), p, best, bestMod);
  }

  lemma {:induction false} HoldingRun(cfg: Config, accounts: set<Account>, h: seq<Play>, a: Account, m: int, k: ModSet)
    returns (s: State)
    requires UniqueIds(h) && a in accounts && cfg.BoardMap(m) && MayHold(h, a, m, k)
    ensures Reaches(cfg, accounts, h, s) && HasRow(MapRows(s.rows, a, m), k)
    decreases |h|
  {
    var p, front := Last(h), Init(h);
    UniqueIdsPrefix(h);
    if Eligible(p, a, m) && p.mods == k.acronyms {
      var before := AnyRun(cfg, accounts, front);
      s := GoOn(cfg, accounts, front, before, p);
      PlayedIsHeld(cfg, accounts, front, before, p, s);
    } else if Threatens(front, p, a, m, k) {
      if MayMiss(front, a, m, ModSet(p.mods)) {
        var before := MissingRun(cfg, accounts, front, a, m, ModSet(p.mods));
        s := TakeFrom(cfg, accounts, front, before, p, k, k);
      } else {
        var x :| x != k && Tied(front, a, m, x);
        var before := AnyRun(cfg, accounts, front);
        s := TakeFrom(cfg, accounts, front, before, p, x, k);
      }
    } else {
      var before := HoldingRun(cfg, accounts, front, a, m, k);
      s := GoOn(cfg, accounts, front, before, p);
      StillHeld(cfg, accounts, front, before, p, s, a, m, k);
    }
  }

  lemma {:induction false} MissingRun(cfg: Config, accounts: set<Account>, h: seq<Play>, a: Account, m: int, k: ModSet)
    returns (s: State)
    requires UniqueIds(h) && a in accounts && cfg.BoardMap(m) && MayMiss(h, a, m, k)
    ensures Reaches(cfg, accounts, h, s) && !HasRow(MapRows(s.rows, a, m), k)
    decreases |h|
  {
    if h == [] {
      s := Fresh(accounts);
    } else {
      var p, front := Last(h), Init(h);
      UniqueIdsPrefix(h);
      if Threatens(front, p, a, m, k) {
        var before := HoldingRun(cfg, accounts, front, a, m, ModSet(p.mods));
        s := TakeFrom(cfg, accounts, front, before, p, k, k);
      } else {
        var before := MissingRun(cfg, accounts, front, a, m, k);
        s := GoOn(cfg, accounts, front, before, p);
        StillHeld(cfg, accounts, front, before, p, s, a, m, k);
      }
    }
  }

  lemma {:induction false} LosingRun(cfg: Config, accounts: set<Account>, h: seq<Play>, a: Account, m: int, k: ModSet)
    returns (s: State)
    requires UniqueIds(h) && a in accounts && cfg.BoardMap(m) && MayLose(h, a, m, k)
    ensures Reaches(cfg, accounts, h, s) && Lost(MapRows(s.rows, a, m), h, a, m, k)
    decreases |h|
  {
    var p, front := Last(h), Init(h);
    UniqueIdsPrefix(h);
    ModBestStep(front, p, a, m, k);
    if Threatens(front, p, a, m, k) {
      var before := HoldingRun(cfg, accounts, front, a, m, ModSet(p.mods));
      s := TakeFrom(cfg, accounts, front, before, p, k, k);
    } else {
      var before := LosingRun(cfg, accounts, front, a, m, k);
      s := GoOn(cfg, accounts, front, before, p);
      if Eligible(p, a, m) && p.mods == k.acronyms {
        LowPlayRestoresNothing(cfg, accounts, front, before, p, s, k);
      } else {
        StillHeld(cfg, accounts, front, before, p, s, a, m, k);
      }
    }
  }

  /** A play below the best of its mods does not bring the lost row back. */
  lemma LowPlayRestoresNothing(cfg: Config, accounts: set<Account>, h: seq<Play>, s: State, p: Play, t: State,
                               k: ModSet)
    requires UniqueIds(h + [p]) && Reaches(cfg, accounts, h, s) && p.account in accounts && OnBoard(cfg, p)
    requires Step(cfg, s, p, t)
    requires p.mods == k.acronyms && Lost(MapRows(s.rows, p.account, p.beatmap), h, p.account, p.beatmap, k)
    requires p.total < ModBest(h, p.account, p.beatmap, k).value
    ensures Lost(MapRows(t.rows, p.account, p.beatmap), h + [p], p.account, p.beatmap, k)
  {
    var a, m := p.account, p.beatmap;
    var slot := MapRows(s.rows, a, m);
    ModBestStep(h, p, a, m, k);
    UniqueIdsPrefix(h + [p]);
    Snoc(h, p);
    BoardReachable(cfg, accounts, h, s);
    assert SlotOk(cfg, accounts, h, s.rows, a, m);
    var best, bestMod :| StepWith(cfg, s, p, best, bestMod, t);
    MachineIsLocal(s.rows, p, best, bestMod, a, m);
    MachineMeaning(h, slot, p, best, bestMod);
  }

  // ----- The tables at the end of a run.

  lemma RebuiltIsModBest(cfg: Config, h: seq<Play>, r: Row)
    requires r in RebuiltRows(cfg, h)
    ensures cfg.BoardMap(r.beatmap) && ModBest(h, r.account, r.beatmap, ModSet(r.mods)) == Some(r.total)
  {
    ModBestIsMaximum(h, r.account, r.beatmap, ModSet(r.mods));
    var i := RebuiltPlay(cfg, h, r);
    assert h[i] in h;
  }

  lemma ModBestIsRebuilt(cfg: Config, h: seq<Play>, a: Account, m: int, k: ModSet) returns (r: Row)
    requires cfg.BoardMap(m) && ModBest(h, a, m, k).Some?
    ensures r in AccountRows(RebuiltRows(cfg, h), a) && r.beatmap == m && r.mods == k.acronyms
    ensures ModBest(h, a, m, k) == Some(r.total)
  {
    ModBestIsMaximum(h, a, m, k);
    var p :| p in h && Eligible(p, a, m) && p.mods == k.acronyms && p.total == ModBest(h, a, m, k).value;
    var j :| 0 <= j < |h| && h[j] == p;
    var i := RebuiltHasKey(cfg, h, j);
    r := RowOf(h[i]);
    RebuiltIsModBest(cfg, h, r);
  }

  ghost predicate NothingLost(cfg: Config, rows: set<Row>, h: seq<Play>, a: Account) {
    forall m, k | cfg.BoardMap(m) :: !Lost(MapRows(rows, a, m), h, a, m, k)
  }

  lemma AlikeLosesNothing(cfg: Config, rows: set<Row>, h: seq<Play>, a: Account, m: int, k: ModSet)
    requires Alike(AccountRows(rows, a), AccountRows(RebuiltRows(cfg, h), a)) && cfg.BoardMap(m)
    ensures !Lost(MapRows(rows, a, m), h, a, m, k)
  {
    if ModBest(h, a, m, k).Some? {
      var r := ModBestIsRebuilt(cfg, h, a, m, k);
      assert HasLike(AccountRows(rows, a), r);
      var q :| q in AccountRows(rows, a) && SameRowKey(q, r) && q.total == r.total;
      assert q in MapRows(rows, a, m);
    }
  }

  lemma LiveRowIsRebuilt(cfg: Config, accounts: set<Account>, h: seq<Play>, rows: set<Row>, a: Account, r: Row)
    requires BoardInv(cfg, accounts, h, rows) && NothingLost(cfg, rows, h, a) && r in AccountRows(rows, a)
    ensures HasLike(AccountRows(RebuiltRows(cfg, h), a), r)
  {
    var m, k := r.beatmap, ModSet(r.mods);
    var slot := MapRows(rows, a, m);
    assert SlotOk(cfg, accounts, h, rows, a, m) && r in slot;
    RowBelowModBest(h, slot, a, m, r);
    assert !Lost(slot, h, a, m, k);
    var q :| q in slot && q.mods == k.acronyms && ModBest(h, a, m, k) == Some(q.total);
    var o := ModBestIsRebuilt(cfg, h, a, m, k);
    assert q == r && SameRowKey(o, r);
  }

  lemma RebuiltRowIsLive(cfg: Config, h: seq<Play>, rows: set<Row>, a: Account, r: Row)
    requires NothingLost(cfg, rows, h, a) && r in AccountRows(RebuiltRows(cfg, h), a)
    ensures HasLike(AccountRows(rows, a), r)
  {
    var m, k := r.beatmap, ModSet(r.mods);
    RebuiltIsModBest(cfg, h, r);
    assert !Lost(MapRows(rows, a, m), h, a, m, k);
    var q :| q in MapRows(rows, a, m) && q.mods == k.acronyms && ModBest(h, a, m, k) == Some(q.total);
    assert q in AccountRows(rows, a) && SameRowKey(q, r);
  }

  /** A state's table is alike to every rebuild exactly if no mod set has lost its best total. */
  lemma AlikeIsNothingLost(cfg: Config, accounts: set<Account>, h: seq<Play>, s: State, a: Account)
    requires BoardInv(cfg, accounts, h, s.rows)
    ensures TablesAlike(cfg, s.rows, h, a) <==> NothingLost(cfg, s.rows, h, a)
  {
    OwnRebuilt(cfg, h, a);
    AlikeInAnyOrder(cfg, s.rows, h, a);
    if NothingLost(cfg, s.rows, h, a) {
      forall r | r in AccountRows(s.rows, a) {
        LiveRowIsRebuilt(cfg, accounts, h, s.rows, a, r);
      }
      forall r | r in AccountRows(RebuiltRows(cfg, h), a) {
        RebuiltRowIsLive(cfg, h, s.rows, a, r);
      }
    }
    if TablesAlike(cfg, s.rows, h, a) {
      forall m, k | cfg.BoardMap(m) {
        AlikeLosesNothing(cfg, s.rows, h, a, m, k);
      }
    }
  }

  /** No mod set of any map may lose its best row. */
  ghost predicate Safe(cfg: Config, h: seq<Play>, a: Account) {
    forall m, k | cfg.BoardMap(m) :: !MayLose(h, a, m, k)
  }

  lemma RunKeepsAll(cfg: Config, accounts: set<Account>, h: seq<Play>, s: State, a: Account)
    requires UniqueIds(h) && a in accounts && Reaches(cfg, accounts, h, s)
    requires Safe(cfg, h, a)
    ensures TablesAlike(cfg, s.rows, h, a)
  {
    BoardReachable(cfg, accounts, h, s);
    forall m, k | cfg.BoardMap(m)
      ensures !Lost(MapRows(s.rows, a, m), h, a, m, k)
    {
      RunsForeseen(cfg, accounts, h, s, a, m, k);
    }
    AlikeIsNothingLost(cfg, accounts, h, s, a);
  }

  lemma LossyRun(cfg: Config, accounts: set<Account>, h: seq<Play>, a: Account, m: int, k: ModSet) returns (s: State)
    requires UniqueIds(h) && a in accounts && cfg.BoardMap(m) && MayLose(h, a, m, k)
    ensures Reaches(cfg, accounts, h, s) && !TablesAlike(cfg, s.rows, h, a)
  {
    s := LosingRun(cfg, accounts, h, a, m, k);
    BoardReachable(cfg, accounts, h, s);
    AlikeIsNothingLost(cfg, accounts, h, s, a);
    assert Lost(MapRows(s.rows, a, m), h, a, m, k);
  }

  /** Every run of a history ends with the keys and totals that the tool rebuilds, in whatever order it reads,
      if and only if no mod set of any map may lose its best row. */
  lemma EveryRunAlikeExact(cfg: Config, accounts: set<Account>, h: seq<Play>, a: Account)
    requires UniqueIds(h) && a in accounts
    ensures Safe(cfg, h, a) <==> forall s | Reaches(cfg, accounts, h, s) :: TablesAlike(cfg, s.rows, h, a)
  {
    if Safe(cfg, h, a) {
      forall s | Reaches(cfg, accounts, h, s) {
        RunKeepsAll(cfg, accounts, h, s, a);
      }
    } else {
      var m, k :| cfg.BoardMap(m) && MayLose(h, a, m, k);
      var s := LossyRun(cfg, accounts, h, a, m, k);
      assert Reaches(cfg, accounts, h, s) && !TablesAlike(cfg, s.rows, h, a);
    }
  }
}
