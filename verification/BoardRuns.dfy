/**
 The live leaderboard table against the rebuilt one, over whole runs.

 The tables part company exactly when case four of the row machine deletes the row of another mod set.
 */
module BoardRuns {
  import opened Common
  import opened Scores
  import opened Ledger
  import opened Board
  import opened BoardRebuild
  import opened BoardOrder
  import opened Reordering

  /** One submission of a run: what the look-ups returned, and the state it led to. */
  datatype Turn = Turn(best: Option<Row>, bestMod: Option<Row>, state: State)

  function StateAfter(accounts: set<Account>, t: seq<Turn>): State {
    if t == [] then Fresh(accounts) else t[|t| - 1].state
  }

  function Before(t: seq<Turn>): seq<Turn>
    requires t != []
  {
    t[..|t| - 1]
  }

  ghost predicate IsTurn(cfg: Config, s: State, p: Play, t: Turn) {
    if p.account in s.stats then StepWith(cfg, s, p, t.best, t.bestMod, t.state)
    else t == Turn(None, None, s)
  }

  /** t is a run of the server on the submissions h. */
  ghost predicate IsRun(cfg: Config, accounts: set<Account>, h: seq<Play>, t: seq<Turn>) {
    && |t| == |h|
    && (h != [] ==>
          && IsRun(cfg, accounts, Init(h), Before(t))
          && IsTurn(cfg, StateAfter(accounts, Before(t)), Last(h), t[|t| - 1]))
  }

  lemma {:induction false} RunReaches(cfg: Config, accounts: set<Account>, h: seq<Play>, t: seq<Turn>)
    requires IsRun(cfg, accounts, h, t)
    ensures Reaches(cfg, accounts, h, StateAfter(accounts, t))
  {
    if h != [] {
      var before := StateAfter(accounts, Before(t));
      RunReaches(cfg, accounts, Init(h), Before(t));
      assert Step(cfg, before, Last(h), StateAfter(accounts, t));
    }
  }

  /** Every reachable state has a run that leads there. */
  lemma {:induction false} ReachedByRun(cfg: Config, accounts: set<Account>, h: seq<Play>, s: State)
    returns (t: seq<Turn>)
    requires Reaches(cfg, accounts, h, s)
    ensures IsRun(cfg, accounts, h, t) && StateAfter(accounts, t) == s
  {
    if h == [] {
      t := [];
    } else {
      var before :| Reaches(cfg, accounts, Init(h), before) && Step(cfg, before, Last(h), s);
      var front := ReachedByRun(cfg, accounts, Init(h), before);
      var turn := Turn(None, None, s);
      if Last(h).account in before.stats {
        var best, bestMod :| StepWith(cfg, before, Last(h), best, bestMod, s);
        turn := Turn(best, bestMod, s);
      }
      t := front + [turn];
      assert Before(t) == front;
    }
  }

  // ----- One step.

  lemma MachineOfAccount(rows: set<Row>, p: Play, best: Option<Row>, bestMod: Option<Row>)
    requires SlotPicks(MapRows(rows, p.account, p.beatmap), p, best, bestMod)
    ensures AccountRows(RowMachine(rows, p, best, bestMod), p.account) ==
      RowMachine(AccountRows(rows, p.account), p, best, bestMod)
  {
  }

  /** What the machine does to a table that equals the rebuilt one. */
  lemma EqualStep(cfg: Config, accounts: set<Account>, h: seq<Play>, rows: set<Row>, g: seq<Play>, p: Play,
                  best: Option<Row>, bestMod: Option<Row>)
    requires BoardInv(cfg, accounts, h, rows) && UniqueIds(h + [p]) && p.account in accounts
    requires LegalPicks(cfg, rows, p, best, bestMod)
    requires AccountRows(rows, p.account) == RebuiltRows(cfg, g)
    ensures
      var after := AccountRows(RowsAfter(cfg, rows, p, best, bestMod), p.account);
      after == RebuiltRows(cfg, g + [p]) - (if DeletesOther(cfg, p, best, bestMod) then {best.value} else {})
    ensures DeletesOther(cfg, p, best, bestMod) ==>
      best.value in RebuiltRows(cfg, g + [p]) && best.value.mods != p.mods && best.value.account == p.account
  {
    var own := AccountRows(rows, p.account);
    if OnBoard(cfg, p) {
      assert SlotOk(cfg, accounts, h, rows, p.account, p.beatmap);
      var slot := MapRows(rows, p.account, p.beatmap);
      assert SlotPicks(slot, p, best, bestMod);
      MachineOfAccount(rows, p, best, bestMod);
      SlotIncumbent(rows, p, bestMod);
      RebuiltStep(cfg, g, p, bestMod);
      UniqueIdsPrefix(h + [p]);
      Snoc(h, p);
      PicksOnSlot(h, slot, p, best, bestMod);
      MachineMeaning(h, slot, p, best, bestMod);
    } else {
      var held := SomeIncumbent(own, p);
      RebuiltStep(cfg, g, p, held);
    }
  }

  lemma SlotIncumbent(rows: set<Row>, p: Play, bestMod: Option<Row>)
    requires IsFirst(WithMods(MapRows(rows, p.account, p.beatmap), p.mods), bestMod)
    ensures Incumbent(AccountRows(rows, p.account), p, bestMod)
  {
    assert forall r | r in rows && RowMatches(r, p) :: r in WithMods(MapRows(rows, p.account, p.beatmap), p.mods);
  }

  // ----- Whole runs.

  /** The turn deletes the row of another mod set. */
  ghost predicate Loses(cfg: Config, p: Play, t: Turn) {
    DeletesOther(cfg, p, t.best, t.bestMod)
  }

  ghost predicate NeverLoses(cfg: Config, h: seq<Play>, t: seq<Turn>, a: Account)
    requires |t| == |h|
  {
    forall k | 0 <= k < |h| && h[k].account == a :: !Loses(cfg, h[k], t[k])
  }

  /** The account's live rows are those rebuilt in submission order. */
  ghost predicate TablesEqual(cfg: Config, accounts: set<Account>, h: seq<Play>, t: seq<Turn>, a: Account) {
    AccountRows(StateAfter(accounts, t).rows, a) == RebuiltRows(cfg, Own(h, a))
  }

  /** The account's live rows have the keys and totals rebuilt in any reading order. */
  ghost predicate TablesAlike(cfg: Config, rows: set<Row>, h: seq<Play>, a: Account) {
    forall g | ReadsOwn(h, a, g) :: Alike(AccountRows(rows, a), RebuiltRows(cfg, g))
  }

  lemma LikeOfLike(y: set<Row>, z: set<Row>, r: Row)
    requires HasLike(y, r) && forall q | q in y :: HasLike(z, q)
    ensures HasLike(z, r)
  {
    var q :| q in y && SameRowKey(q, r) && q.total == r.total;
    assert HasLike(z, q);
  }

  lemma AlikeTransitive(x: set<Row>, y: set<Row>, z: set<Row>)
    requires Alike(x, y) && Alike(y, z)
    ensures Alike(x, z)
  {
    forall r | r in x
      ensures HasLike(z, r)
    {
      LikeOfLike(y, z, r);
    }
    forall r | r in z
      ensures HasLike(x, r)
    {
      LikeOfLike(y, x, r);
    }
  }

  /** Alike in one order is alike in every order. */
  lemma AlikeInAnyOrder(cfg: Config, rows: set<Row>, h: seq<Play>, a: Account)
    ensures TablesAlike(cfg, rows, h, a) <==> Alike(AccountRows(rows, a), RebuiltRows(cfg, Own(h, a)))
  {
    assert ReadsOwn(h, a, Own(h, a));
    if Alike(AccountRows(rows, a), RebuiltRows(cfg, Own(h, a))) {
      forall g | ReadsOwn(h, a, g)
        ensures Alike(AccountRows(rows, a), RebuiltRows(cfg, g))
      {
        Reordered(Own(h, a), g);
        RebuiltAlike(cfg, Own(h, a), g);
        AlikeTransitive(AccountRows(rows, a), RebuiltRows(cfg, Own(h, a)), RebuiltRows(cfg, g));
      }
    }
  }

  lemma EqualIsAlike(x: set<Row>, y: set<Row>)
    requires x == y
    ensures Alike(x, y)
  {
    forall r | r in x
      ensures HasLike(x, r)
    {
      assert r in x && SameRowKey(r, r);
    }
  }

  /** As long as nothing is lost the tables are equal. */
  lemma {:induction false} EqualWithoutLoss(cfg: Config, accounts: set<Account>, h: seq<Play>, t: seq<Turn>, a: Account)
    requires UniqueIds(h) && IsRun(cfg, accounts, h, t) && a in accounts && NeverLoses(cfg, h, t, a)
    ensures TablesEqual(cfg, accounts, h, t, a)
  {
    if h != [] {
      UniqueIdsPrefix(h);
      EqualWithoutLoss(cfg, accounts, Init(h), Before(t), a);
      EqualTurn(cfg, accounts, h, t, a);
    }
  }

  lemma EqualTurn(cfg: Config, accounts: set<Account>, h: seq<Play>, t: seq<Turn>, a: Account)
    requires h != [] && UniqueIds(h) && IsRun(cfg, accounts, h, t) && a in accounts
    requires TablesEqual(cfg, accounts, Init(h), Before(t), a)
    requires Last(h).account == a ==> !Loses(cfg, Last(h), t[|t| - 1])
    ensures TablesEqual(cfg, accounts, h, t, a)
  {
    var front, before, p, turn := Init(h), StateAfter(accounts, Before(t)), Last(h), t[|t| - 1];
    UniqueIdsPrefix(h);
    RunReaches(cfg, accounts, front, Before(t));
    BoardReachable(cfg, accounts, front, before);
    if p.account == a {
      EqualStep(cfg, accounts, front, before.rows, Own(front, a), p, turn.best, turn.bestMod);
    } else {
      OtherAccountStep(cfg, before, p, turn, a);
    }
  }

  lemma OtherAccountStep(cfg: Config, before: State, p: Play, turn: Turn, a: Account)
    requires IsTurn(cfg, before, p, turn) && p.account != a
    ensures AccountRows(turn.state.rows, a) == AccountRows(before.rows, a)
  {
  }

  /** A loss shows at once: the deleted key is missing. */
  lemma LossShows(cfg: Config, accounts: set<Account>, h: seq<Play>, t: seq<Turn>, a: Account)
    requires h != [] && UniqueIds(h) && IsRun(cfg, accounts, h, t) && a in accounts && Last(h).account == a
    requires TablesEqual(cfg, accounts, Init(h), Before(t), a) && Loses(cfg, Last(h), t[|t| - 1])
    ensures !Alike(AccountRows(StateAfter(accounts, t).rows, a), RebuiltRows(cfg, Own(h, a)))
  {
    var front, before, p, turn := Init(h), StateAfter(accounts, Before(t)), Last(h), t[|t| - 1];
    UniqueIdsPrefix(h);
    RunReaches(cfg, accounts, front, Before(t));
    BoardReachable(cfg, accounts, front, before);
    EqualStep(cfg, accounts, front, before.rows, Own(front, a), p, turn.best, turn.bestMod);
    OnlyRowOfKey(cfg, Own(front, a) + [p], turn.best.value);
  }

  /** Without its row, a key has none. */
  lemma OnlyRowOfKey(cfg: Config, g: seq<Play>, r: Row)
    requires r in RebuiltRows(cfg, g)
    ensures !HasLike(RebuiltRows(cfg, g) - {r}, r)
  {
    forall q | q in RebuiltRows(cfg, g) && SameRowKey(q, r)
      ensures q == r
    {
      RebuiltKeyUnique(cfg, g, q, r);
    }
  }

  lemma {:induction false} RunPrefix(cfg: Config, accounts: set<Account>, h: seq<Play>, t: seq<Turn>, n: nat)
    requires IsRun(cfg, accounts, h, t) && UniqueIds(h) && n <= |h|
    ensures IsRun(cfg, accounts, h[..n], t[..n]) && UniqueIds(h[..n])
  {
    if n < |h| {
      UniqueIdsPrefix(h);
      RunPrefix(cfg, accounts, Init(h), Before(t), n);
      assert Init(h)[..n] == h[..n] && Before(t)[..n] == t[..n];
    } else {
      assert h[..n] == h && t[..n] == t;
    }
  }

  /** Before the first loss. */
  lemma {:induction false} FirstLoss(cfg: Config, h: seq<Play>, t: seq<Turn>, a: Account) returns (k: nat)
    requires |t| == |h| && !NeverLoses(cfg, h, t, a)
    ensures k < |h| && h[k].account == a && Loses(cfg, h[k], t[k]) && NeverLoses(cfg, h[..k], t[..k], a)
  {
    var n := |h| - 1;
    if NeverLoses(cfg, h[..n], t[..n], a) {
      k := n;
    } else {
      k := FirstLoss(cfg, h[..n], t[..n], a);
      assert h[..n][..k] == h[..k] && t[..n][..k] == t[..k];
    }
  }

  lemma LossAt(cfg: Config, accounts: set<Account>, h: seq<Play>, t: seq<Turn>, a: Account, k: nat)
    requires UniqueIds(h) && IsRun(cfg, accounts, h, t) && a in accounts
    requires k < |h| && h[k].account == a && Loses(cfg, h[k], t[k]) && NeverLoses(cfg, h[..k], t[..k], a)
    ensures !TablesAlike(cfg, StateAfter(accounts, t[..k + 1]).rows, h[..k + 1], a)
    ensures !TablesEqual(cfg, accounts, h[..k + 1], t[..k + 1], a)
  {
    var g, u := h[..k + 1], t[..k + 1];
    RunPrefix(cfg, accounts, h, t, k + 1);
    RunPrefix(cfg, accounts, h, t, k);
    assert Init(g) == h[..k] && Before(u) == t[..k] && Last(g) == h[k] && u[|u| - 1] == t[k];
    EqualWithoutLoss(cfg, accounts, h[..k], t[..k], a);
    LossShows(cfg, accounts, g, u, a);
    AlikeInAnyOrder(cfg, StateAfter(accounts, u).rows, g, a);
    if AccountRows(StateAfter(accounts, u).rows, a) == RebuiltRows(cfg, Own(g, a)) {
      EqualIsAlike(AccountRows(StateAfter(accounts, u).rows, a), RebuiltRows(cfg, Own(g, a)));
    }
  }

  ghost predicate EqualThroughout(cfg: Config, accounts: set<Account>, h: seq<Play>, t: seq<Turn>, a: Account)
    requires |t| == |h|
  {
    forall n | 0 <= n <= |h| :: TablesEqual(cfg, accounts, h[..n], t[..n], a)
  }

  ghost predicate AlikeThroughout(cfg: Config, accounts: set<Account>, h: seq<Play>, t: seq<Turn>, a: Account)
    requires |t| == |h|
  {
    forall n | 0 <= n <= |h| :: TablesAlike(cfg, StateAfter(accounts, t[..n]).rows, h[..n], a)
  }

  lemma EqualAt(cfg: Config, accounts: set<Account>, h: seq<Play>, t: seq<Turn>, a: Account, n: nat)
    requires UniqueIds(h) && IsRun(cfg, accounts, h, t) && a in accounts && NeverLoses(cfg, h, t, a) && n <= |h|
    ensures TablesEqual(cfg, accounts, h[..n], t[..n], a)
    ensures TablesAlike(cfg, StateAfter(accounts, t[..n]).rows, h[..n], a)
  {
    RunPrefix(cfg, accounts, h, t, n);
    EqualWithoutLoss(cfg, accounts, h[..n], t[..n], a);
    EqualIsAlike(AccountRows(StateAfter(accounts, t[..n]).rows, a), RebuiltRows(cfg, Own(h[..n], a)));
    AlikeInAnyOrder(cfg, StateAfter(accounts, t[..n]).rows, h[..n], a);
  }

  /** Through a whole run an account's live rows stay the rebuilt ones, row by row in submission order and in
      keys and totals in every reading order, if and only if case four never deletes one of its rows. */
  lemma RunMatchesExact(cfg: Config, accounts: set<Account>, h: seq<Play>, t: seq<Turn>, a: Account)
    requires UniqueIds(h) && IsRun(cfg, accounts, h, t) && a in accounts
    ensures EqualThroughout(cfg, accounts, h, t, a) <==> NeverLoses(cfg, h, t, a)
    ensures AlikeThroughout(cfg, accounts, h, t, a) <==> NeverLoses(cfg, h, t, a)
  {
    if NeverLoses(cfg, h, t, a) {
      forall n: nat | n <= |h| {
        EqualAt(cfg, accounts, h, t, a, n);
      }
    } else {
      var k := FirstLoss(cfg, h, t, a);
      LossAt(cfg, accounts, h, t, a, k);
    }
  }
}
