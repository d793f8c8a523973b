/**
 The pp pipeline as it runs (app/database/score.py, _process_score_pp and the end of _process_statistics):
 one submission updates the best-score table, the account pp and the pp gain stored with the score.
 */
module PpServer {
  import opened Common
  import opened Scores
  import opened Ranking
  import opened WeightedPp
  import opened PpGain
  import opened BestScores

  /** The has_pp gate of the statistics update. */
  predicate UpdatesPp(cfg: Config, p: PpPlay) {
    p.passed && cfg.PpMap(p.beatmap) && p.modsOk
  }

  lemma EmptyTable(table: set<BestRow>)
    requires table == {}
    ensures UserPp(table) == 0.0
  {
  }

  /** In plain terms: flashlight settings and the accuracy floor play no part here. */
  lemma UpdatesMeaning(cfg: Config, p: PpPlay)
    ensures UpdatesPp(cfg, p) <==> p.passed && p.modsOk && (cfg.allPp || cfg.status(p.beatmap) in {Ranked, Approved})
  {
  }

  function RowSet(r: Option<BestRow>): set<BestRow> {
    if r.Some? then {r.value} else {}
  }

  /** What one submission does to each account's part of the table. */
  lemma OwnAfter(cfg: Config, before: set<BestRow>, p: PpPlay, previous: Option<BestRow>)
    requires IsPrevious(before, p, previous) && forall r | r in before :: r.id != p.id
    ensures
      var a, x, after := p.account, BestRowOf(cfg, p), BestsAfter(cfg, before, p, previous);
      && (x in after ==> UpdatesPp(cfg, p) && Joins(Own(before, a), RowSet(previous), x))
      && (x in after ==> Own(after, a) == Own(before, a) - RowSet(previous) + {x})
      && (x !in after ==> after == before)
  {
  }

  lemma OthersAfter(cfg: Config, before: set<BestRow>, p: PpPlay, previous: Option<BestRow>, b: Account)
    requires IsPrevious(before, p, previous) && b != p.account
    ensures Own(BestsAfter(cfg, before, p, previous), b) == Own(before, b)
  {
  }

  /** What it does to the account pp behind the table. */
  lemma AccountGain(cfg: Config, before: set<BestRow>, p: PpPlay, previous: Option<BestRow>, after: set<BestRow>)
    requires IsPrevious(before, p, previous)
    requires forall r | r in before :: r.id != p.id
    requires after == BestsAfter(cfg, before, p, previous)
    ensures UserPp(Own(before, p.account)) <= UserPp(Own(after, p.account))
    ensures BestRowOf(cfg, p) in after ==>
      UserPp(Own(after, p.account)) - UserPp(Own(before, p.account)) <=
      WeightedAt(StoredPp(cfg, p), Position(Own(after, p.account), BestRowOf(cfg, p)) - 1)
    ensures BestRowOf(cfg, p) in after ==> UpdatesPp(cfg, p)
    ensures BestRowOf(cfg, p) !in after ==> after == before
  {
    var table, x := Own(before, p.account), BestRowOf(cfg, p);
    OwnAfter(cfg, before, p, previous);
    if x in after {
      NewBestGain(table, RowSet(previous), x);
    }
  }

  lemma IdsFromHistory(cfg: Config, h: seq<PpPlay>, p: PpPlay)
    requires forall q | q in h :: q.id != p.id
    ensures forall r | r in PersonalBests(cfg, h) :: r.id != p.id
    ensures UniquePlayIds(h) ==> UniquePlayIds(h + [p])
  {
  }

  /** The table holds the personal bests of the history, and every account's pp is that of its rows. */
  ghost predicate TablesOk(cfg: Config, h: seq<PpPlay>, bests: set<BestRow>, accountPp: map<Account, real>) {
    && UniquePlayIds(h)
    && bests == PersonalBests(cfg, h)
    && forall a | a in accountPp :: accountPp[a] == UserPp(Own(bests, a))
  }

  lemma TablesStep(cfg: Config, h: seq<PpPlay>, bests: set<BestRow>, accountPp: map<Account, real>, p: PpPlay,
                   previous: Option<BestRow>, after: set<BestRow>, updated: map<Account, real>)
    requires TablesOk(cfg, h, bests, accountPp) && (forall q | q in h :: q.id != p.id)
    requires IsPrevious(bests, p, previous) && after == BestsAfter(cfg, bests, p, previous)
    requires updated == PpAfter(cfg, p, accountPp, after)
    ensures TablesOk(cfg, h + [p], after, updated)
  {
    IdsFromHistory(cfg, h, p);
    BestsStep(cfg, h, p, previous);
    forall a | a in updated
      ensures updated[a] == UserPp(Own(after, a))
    {
      AccountStep(cfg, bests, accountPp, p, previous, a);
    }
  }

  lemma AccountStep(cfg: Config, bests: set<BestRow>, accountPp: map<Account, real>, p: PpPlay,
                    previous: Option<BestRow>, a: Account)
    requires forall b | b in accountPp :: accountPp[b] == UserPp(Own(bests, b))
    requires IsPrevious(bests, p, previous) && forall r | r in bests :: r.id != p.id
    requires a in PpAfter(cfg, p, accountPp, BestsAfter(cfg, bests, p, previous))
    ensures
      var after := BestsAfter(cfg, bests, p, previous);
      PpAfter(cfg, p, accountPp, after)[a] == UserPp(Own(after, a))
  {
    if a == p.account {
      OwnAfter(cfg, bests, p, previous);
    } else {
      OthersAfter(cfg, bests, p, previous, a);
    }
  }

  ghost predicate TopSoFar(table: set<BestRow>, s: seq<BestRow>, rest: set<BestRow>) {
    && rest == table - Elements(s)
    && (forall i, j | 0 <= i < j < |s| :: s[i] != s[j] && s[i].pp >= s[j].pp)
    && (forall e | e in s :: e in table)
    && (forall e, x | e in rest && x in s :: e.pp <= x.pp)
  }

  lemma TopGrows(table: set<BestRow>, s: seq<BestRow>, rest: set<BestRow>, b: BestRow)
    requires TopSoFar(table, s, rest) && b in rest && forall x | x in rest :: x.pp <= b.pp
    ensures TopSoFar(table, s + [b], rest - {b})
  {
    assert forall e :: e in s + [b] <==> e in s || e == b;
  }

  class PpTables {
    const config: Config
    var bests: set<BestRow>
    var accountPp: map<Account, real>
    var storedPp: map<int, real>    // score.pp, for the scores that were given one
    var gain: map<int, real>        // score.account_pp_delta

    /** The plays processed so far. */
    ghost var history: seq<PpPlay>

    ghost predicate Valid()
      reads this
    {
      TablesOk(config, history, bests, accountPp) && Recorded(config, history, accountPp.Keys, storedPp, gain)
    }

    constructor (config: Config, accounts: set<Account>)
      ensures Valid() && history == [] && accountPp.Keys == accounts && this.config == config
    {
      this.config := config;
      bests, storedPp, gain, history := {}, map[], map[], [];
      accountPp := map a | a in accounts :: 0.0;
      new;
      forall a {
        EmptyTable(Own(bests, a));
      }
    }

    /** The pp part of a submission: a score that has its pp is left alone; otherwise admission, then
        strict-greater replacement of the map's row. */
    method ProcessScorePp(p: PpPlay) returns (ghost previous: Option<BestRow>)
      modifies `bests, `storedPp
      ensures IsPrevious(old(bests), p, previous)
      ensures bests == if HasPp(old(storedPp), p) then old(bests) else BestsAfter(config, old(bests), p, previous)
      ensures storedPp == if HasPp(old(storedPp), p) then old(storedPp) else StoredAfter(config, p, old(storedPp))
    {
      var candidates := OnMap(bests, p.account, p.beatmap);
      var previousBest: Option<BestRow> := None;
      if candidates != {} {
        var r := AnyMember(candidates);
        previousBest := Some(r);
      }
      previous := previousBest;
      if p.id in storedPp && storedPp[p.id] != 0.0 {
        return;
      }
      if p.vanillaFlashlight && p.passed && config.PpMap(p.beatmap) && p.modsOk && AboveFloor(p) && p.calculated.Some? {
        var pp := p.calculated.value;
        storedPp := storedPp[p.id := pp];
        if previousBest.None? || pp > previousBest.value.pp {
          bests := bests - (if previousBest.Some? then {previousBest.value} else {});
          bests := bests + {BestRowOf(config, p)};
        }
      }
    }

    /** The rows of a table by pp descending, at most 1000. */
    method GetUserBestPp(table: set<BestRow>) returns (s: seq<BestRow>)
      ensures IsTop(table, s, LIMIT) && |s| == if |table| < 1000 then |table| else 1000
    {
      s := [];
      var rest := table;
      while rest != {} && |s| < LIMIT
        invariant |rest| + |s| == |table| && |s| <= LIMIT && TopSoFar(table, s, rest)
        decreases |rest|
      {
        MaximumExists(rest);
        var b :| b in rest && forall x | x in rest :: x.pp <= b.pp;
        TopGrows(table, s, rest, b);
        s := s + [b];
        rest := rest - {b};
      }
    }

    method AccountTotal(a: Account) returns (total: real)
      ensures total == UserPp(Own(bests, a))
    {
      var bps := GetUserBestPp(Own(bests, a));
      var accuracy;
      total, accuracy := CalculateUserPp(Own(bests, a), bps);
    }

    /** The pp part of the statistics update: the account pp follows the table, and the gain is stored. */
    method UpdateAccountPp(p: PpPlay)
      requires p.account in accountPp
      modifies `accountPp, `gain
      ensures accountPp == PpAfter(config, p, old(accountPp), bests)
      ensures gain == GainAfter(config, p, old(accountPp), bests, old(gain))
    {
      if UpdatesPp(config, p) {
        var ppBefore := accountPp[p.account];
        var total := AccountTotal(p.account);
        accountPp := accountPp[p.account := total];
        var newDelta := Larger(0.0, total - ppBefore);
        gain := gain[p.id := Larger(if p.id in gain then gain[p.id] else 0.0, newDelta)];
      }
    }

    /** Both parts, in the order of the server. */
    method Submit(p: PpPlay) returns (ok: bool, ghost previous: Option<BestRow>)
      modifies `bests, `storedPp, `accountPp, `gain
      ensures IsPrevious(old(bests), p, previous)
      ensures bests == if HasPp(old(storedPp), p) then old(bests) else BestsAfter(config, old(bests), p, previous)
      ensures storedPp == if HasPp(old(storedPp), p) then old(storedPp) else StoredAfter(config, p, old(storedPp))
      ensures ok <==> p.account in old(accountPp)
      ensures accountPp == PpAfter(config, p, old(accountPp), bests)
      ensures gain == GainAfter(config, p, old(accountPp), bests, old(gain))
    {
      previous := ProcessScorePp(p);
      ok := p.account in accountPp;
      if ok {
        UpdateAccountPp(p);
      }
    }

    /** One submission, processed for the first time, or again after the calculator failed.  The account pp
        never falls; the stored gain is exactly what the play added, at most its own weighted pp; the clamps at
        0 never act. */
    method ProcessPlay(p: PpPlay) returns (ok: bool)
      requires Valid() && (forall q | q in history && q.id == p.id :: Retries(config, q, p))
      modifies this
      ensures Valid() && history == Others(old(history), p.id) + [p]
      ensures ok <==> p.account in old(accountPp)
      ensures FirstRun(config, p, old(bests), old(accountPp), old(gain), bests, accountPp, gain)
    {
      UnrecordedId(config, history, accountPp.Keys, storedPp, gain, p.id);
      ghost var previous;
      ok, previous := Submit(p);
      FirstRunStep(config, history, old(bests), old(accountPp), old(storedPp), old(gain), p, previous, bests, accountPp,
                   gain);
      history := Others(history, p.id) + [p];
    }

    /** Processing a play again at any later time changes nothing: neither the table nor the account pp,
        and the gain captured the first time stays. */
    method Reprocess(p: PpPlay) returns (ok: bool)
      requires Valid() && p in history
      modifies `bests, `storedPp, `accountPp, `gain
      ensures Valid() && (ok <==> p.account in accountPp)
      ensures bests == old(bests) && accountPp == old(accountPp) && storedPp == old(storedPp) && gain == old(gain)
    {
      ghost var previous;
      ok, previous := Submit(p);
      RerunKeepsRows(config, history, old(bests), p, previous);
      RerunKeepsPp(config, history, bests, old(accountPp), p);
      RerunKeepsRecords(config, history, bests, old(accountPp), old(gain), old(storedPp), p);
    }
  }

  /** The score already has a pp value. */
  predicate HasPp(storedPp: map<int, real>, p: PpPlay) {
    p.id in storedPp && storedPp[p.id] != 0.0
  }

  function StoredAfter(cfg: Config, p: PpPlay, storedPp: map<int, real>): map<int, real> {
    if Admitted(cfg, p) then storedPp[p.id := StoredPp(cfg, p)] else storedPp
  }

  function Ids(h: seq<PpPlay>): set<int> {
    set q | q in h :: q.id
  }

  /** p is the score q, whose pp could not be calculated before. */
  predicate Retries(cfg: Config, q: PpPlay, p: PpPlay) {
    !Admitted(cfg, q) && p == q.(calculated := p.calculated)
  }

  /** Every play has its pp, if it was admitted, and its gain, if its account was updated; nothing else does. */
  ghost predicate Recorded(cfg: Config, h: seq<PpPlay>, accounts: set<Account>, storedPp: map<int, real>,
                           gain: map<int, real>) {
    storedPp.Keys <= Ids(h) && gain.Keys <= Ids(h) && EachRecorded(cfg, h, accounts, storedPp, gain)
  }

  ghost predicate EachRecorded(cfg: Config, h: seq<PpPlay>, accounts: set<Account>, storedPp: map<int, real>,
                               gain: map<int, real>) {
    && (forall q | q in h && Admitted(cfg, q) :: q.id in storedPp && storedPp[q.id] == StoredPp(cfg, q))
    && (forall q | q in h && UpdatesPp(cfg, q) && q.account in accounts :: q.id in gain && gain[q.id] >= 0.0)
    && (forall q | q in h && !Admitted(cfg, q) :: q.id !in storedPp && (q.id in gain ==> gain[q.id] == 0.0))
  }

  /** The plays with another id. */
  function Others(h: seq<PpPlay>, id: int): seq<PpPlay> {
    if h == [] then []
    else
      var front, x := Others(h[..|h| - 1], id), h[|h| - 1];
      if x.id == id then front else front + [x]
  }

  lemma {:induction false} OtherPlays(h: seq<PpPlay>, id: int)
    ensures forall q :: q in Others(h, id) <==> q in h && q.id != id
    ensures Ids(h) <= Ids(Others(h, id)) + {id}
    ensures (forall q | q in h :: q.id != id) ==> Others(h, id) == h
  {
    if h != [] {
      var front, x := h[..|h| - 1], h[|h| - 1];
      OtherPlays(front, id);
      assert h == front + [x];
      IdsGrow(front, x);
      if x.id != id {
        IdsGrow(Others(front, id), x);
      }
    }
  }

  lemma {:induction false} OthersUnique(h: seq<PpPlay>, id: int)
    requires UniquePlayIds(h)
    ensures UniquePlayIds(Others(h, id))
  {
    if h != [] {
      var front, x := h[..|h| - 1], h[|h| - 1];
      OthersUnique(front, id);
      OtherPlays(front, id);
      forall q | q in Others(front, id)
        ensures q.id != x.id
      {
        var i :| 0 <= i < |front| && front[i] == q;
        assert h[i] == q;
      }
    }
  }

  /** Plays that were not admitted can be forgotten. */
  lemma {:induction false} OthersBests(cfg: Config, h: seq<PpPlay>, id: int)
    requires forall q | q in h && q.id == id :: !Admitted(cfg, q)
    ensures PersonalBests(cfg, Others(h, id)) == PersonalBests(cfg, h)
  {
    if h != [] {
      var front, x := h[..|h| - 1], h[|h| - 1];
      assert h == front + [x];
      OthersBests(cfg, front, id);
      var previous := SomePrevious(PersonalBests(cfg, front), x);
      BestsStep(cfg, front, x, previous);
      if x.id != id {
        BestsStep(cfg, Others(front, id), x, previous);
      }
    }
  }

  lemma UnrecordedId(cfg: Config, h: seq<PpPlay>, accounts: set<Account>, storedPp: map<int, real>,
                     gain: map<int, real>, id: int)
    requires Recorded(cfg, h, accounts, storedPp, gain)
    requires forall q | q in h && q.id == id :: !Admitted(cfg, q)
    ensures id !in storedPp && (id in gain ==> gain[id] == 0.0)
  {
    if id in Ids(h) {
      var q :| q in h && q.id == id;
    }
  }

  /** Before a play is processed for the first time or again after a failure: without it the tables are what
      they are. */
  lemma Forget(cfg: Config, h: seq<PpPlay>, bests: set<BestRow>, pp: map<Account, real>, storedPp: map<int, real>,
               gain: map<int, real>, p: PpPlay)
    requires TablesOk(cfg, h, bests, pp) && Recorded(cfg, h, pp.Keys, storedPp, gain)
    requires forall q | q in h && q.id == p.id :: Retries(cfg, q, p)
    ensures
      var g := Others(h, p.id);
      && TablesOk(cfg, g, bests, pp) && EachRecorded(cfg, g, pp.Keys, storedPp, gain)
      && storedPp.Keys <= Ids(g) && gain.Keys <= Ids(g) + {p.id}
      && (forall q | q in g :: q.id != p.id)
    ensures p.id !in storedPp && (p.id in gain ==> gain[p.id] == 0.0)
    ensures forall r | r in bests :: r.id != p.id
  {
    OtherPlays(h, p.id);
    OthersUnique(h, p.id);
    OthersBests(cfg, h, p.id);
    UnrecordedId(cfg, h, pp.Keys, storedPp, gain, p.id);
    WithoutExtra(storedPp.Keys, Ids(Others(h, p.id)), p.id);
    IdsFromHistory(cfg, Others(h, p.id), p);
  }

  lemma IdsGrow(h: seq<PpPlay>, p: PpPlay)
    ensures Ids(h + [p]) == Ids(h) + {p.id}
  {
  }

  lemma RecordEach(cfg: Config, h: seq<PpPlay>, bests: set<BestRow>, pp: map<Account, real>, gain: map<int, real>,
                   storedPp: map<int, real>, p: PpPlay, after: set<BestRow>, updated: map<Account, real>,
                   recorded: map<int, real>)
    requires EachRecorded(cfg, h, pp.Keys, storedPp, gain) && (forall q | q in h :: q.id != p.id)
    requires p.id !in storedPp && (p.id in gain ==> gain[p.id] == 0.0) && (forall r | r in bests :: r.id != p.id)
    requires after == bests || Admitted(cfg, p)
    requires FirstRun(cfg, p, bests, pp, gain, after, updated, recorded)
    ensures EachRecorded(cfg, h + [p], updated.Keys, StoredAfter(cfg, p, storedPp), recorded)
  {
    assert forall q :: q in h + [p] <==> q in h || q == p;
  }

  lemma RecordKeys(cfg: Config, h: seq<PpPlay>, gain: map<int, real>, storedPp: map<int, real>, p: PpPlay,
                   recorded: map<int, real>)
    requires storedPp.Keys <= Ids(h) && gain.Keys <= Ids(h) + {p.id} && recorded.Keys <= gain.Keys + {p.id}
    ensures StoredAfter(cfg, p, storedPp).Keys <= Ids(h + [p]) && recorded.Keys <= Ids(h + [p])
  {
    IdsGrow(h, p);
    assert StoredAfter(cfg, p, storedPp).Keys <= storedPp.Keys + {p.id};
  }

  lemma FirstRunStep(cfg: Config, h: seq<PpPlay>, bests: set<BestRow>, pp: map<Account, real>, storedPp: map<int, real>,
                     gain: map<int, real>, p: PpPlay, previous: Option<BestRow>, after: set<BestRow>,
                     updated: map<Account, real>, recorded: map<int, real>)
    requires TablesOk(cfg, h, bests, pp) && Recorded(cfg, h, pp.Keys, storedPp, gain)
    requires forall q | q in h && q.id == p.id :: Retries(cfg, q, p)
    requires IsPrevious(bests, p, previous) && after == BestsAfter(cfg, bests, p, previous)
    requires updated == PpAfter(cfg, p, pp, after) && recorded == GainAfter(cfg, p, pp, after, gain)
    ensures TablesOk(cfg, Others(h, p.id) + [p], after, updated)
    ensures Recorded(cfg, Others(h, p.id) + [p], updated.Keys, StoredAfter(cfg, p, storedPp), recorded)
    ensures FirstRun(cfg, p, bests, pp, gain, after, updated, recorded)
  {
    var others := Others(h, p.id);
    Forget(cfg, h, bests, pp, storedPp, gain, p);
    TablesStep(cfg, others, bests, pp, p, previous, after, updated);
    FirstRunHolds(cfg, bests, pp, gain, p, previous, after, updated, recorded);
    RecordEach(cfg, others, bests, pp, gain, storedPp, p, after, updated, recorded);
    RecordKeys(cfg, others, gain, storedPp, p, recorded);
  }

  lemma RerunKeepsRows(cfg: Config, h: seq<PpPlay>, bests: set<BestRow>, p: PpPlay, previous: Option<BestRow>)
    requires bests == PersonalBests(cfg, h) && p in h && IsPrevious(bests, p, previous)
    ensures BestsAfter(cfg, bests, p, previous) == bests
  {
    if Admitted(cfg, p) {
      var k :| 0 <= k < |h| && h[k] == p;
      var i := PersonalBestExists(cfg, h, k);
      var row := BestRowOf(cfg, h[i]);
      assert row in OnMap(bests, p.account, p.beatmap);
      PersonalBestUnique(cfg, h, row, previous.value);
    }
  }

  lemma SameEntry<K, V>(m: map<K, V>, k: K)
    requires k in m
    ensures m[k := m[k]] == m
  {
  }

  lemma RerunKeepsPp(cfg: Config, h: seq<PpPlay>, bests: set<BestRow>, pp: map<Account, real>, p: PpPlay)
    requires TablesOk(cfg, h, bests, pp)
    ensures PpAfter(cfg, p, pp, bests) == pp
  {
    if p.account in pp && UpdatesPp(cfg, p) {
      SameEntry(pp, p.account);
    }
  }

  lemma RerunKeepsRecords(cfg: Config, h: seq<PpPlay>, bests: set<BestRow>, pp: map<Account, real>,
                          gain: map<int, real>, storedPp: map<int, real>, p: PpPlay)
    requires TablesOk(cfg, h, bests, pp) && EachRecorded(cfg, h, pp.Keys, storedPp, gain) && p in h
    ensures GainAfter(cfg, p, pp, bests, gain) == gain
    ensures StoredAfter(cfg, p, storedPp) == storedPp
  {
    if p.account in pp && UpdatesPp(cfg, p) {
      SameEntry(gain, p.id);
    }
    if Admitted(cfg, p) {
      SameEntry(storedPp, p.id);
    }
  }

  ghost function PpAfter(cfg: Config, p: PpPlay, accountPp: map<Account, real>, after: set<BestRow>)
    : map<Account, real>
  {
    if p.account in accountPp && UpdatesPp(cfg, p) then accountPp[p.account := UserPp(Own(after, p.account))]
    else accountPp
  }

  ghost function GainAfter(cfg: Config, p: PpPlay, accountPp: map<Account, real>, after: set<BestRow>,
                           gain: map<int, real>): map<int, real> {
    if p.account in accountPp && UpdatesPp(cfg, p) then
      var rise := UserPp(Own(after, p.account)) - accountPp[p.account];
      gain[p.id := Larger(if p.id in gain then gain[p.id] else 0.0, Larger(0.0, rise))]
    else gain
  }

  /** What a first run promises: no account loses pp, only the player's account can gain any, the gain is
      stored unclamped, and it is bounded by the play's pp at the weight of its place. */
  ghost predicate FirstRun(cfg: Config, p: PpPlay, bests: set<BestRow>, pp: map<Account, real>, gain: map<int, real>,
                           after: set<BestRow>, updated: map<Account, real>, recorded: map<int, real>) {
    var a, x := p.account, BestRowOf(cfg, p);
    && updated.Keys == pp.Keys
    && (forall b | b in pp && b != a :: updated[b] == pp[b])
    && (x !in after ==> after == bests && updated == pp)
    && (if a in pp then
          && 0.0 <= updated[a] - pp[a]
          && (x in after ==> updated[a] - pp[a] <= WeightedAt(x.pp, Position(Own(after, a), x) - 1))
          && recorded == (if UpdatesPp(cfg, p) then gain[p.id := updated[a] - pp[a]] else gain)
        else
          recorded == gain)
  }

  lemma FirstRunHolds(cfg: Config, bests: set<BestRow>, pp: map<Account, real>, gain: map<int, real>,
                      p: PpPlay, previous: Option<BestRow>, after: set<BestRow>, updated: map<Account, real>,
                      recorded: map<int, real>)
    requires p.account in pp ==> pp[p.account] == UserPp(Own(bests, p.account))
    requires p.id in gain ==> gain[p.id] == 0.0
    requires forall r | r in bests :: r.id != p.id
    requires IsPrevious(bests, p, previous) && after == BestsAfter(cfg, bests, p, previous)
    requires updated == PpAfter(cfg, p, pp, after) && recorded == GainAfter(cfg, p, pp, after, gain)
    ensures FirstRun(cfg, p, bests, pp, gain, after, updated, recorded)
  {
    AccountGain(cfg, bests, p, previous, after);
    var a, x := p.account, BestRowOf(cfg, p);
    if x !in after && a in pp {
      assert updated[a] == pp[a];
      assert updated == pp;
    }
  }

  function Larger(x: real, y: real): real {
    if x > y then x else y
  }
}
