/**
 The leaderboard rebuild as the tool runs it (tools/recalculate.py, recalculate_user_mode_leaderboard): one
 account's scores, read without ORDER BY.

 `h` is a history of all submissions, `Own(h, a)` what the tool can read for an account, and `g` any order
 the query returns it in.
 */
module BoardOrder {
  import opened Common
  import opened Scores
  import opened Ledger
  import opened Board
  import opened BoardRebuild
  import opened Reordering
  import opened FirstBest

  // ----- One account's plays.

  function AccountRows(rows: set<Row>, a: Account): set<Row> {
    set r | r in rows && r.account == a
  }

  lemma SomeIncumbent(rows: set<Row>, p: Play) returns (held: Option<Row>)
    ensures Incumbent(rows, p, held)
  {
    held := None;
    if r :| r in rows && RowMatches(r, p) {
      held := Some(r);
    }
  }

  /** Reading one account's plays gives exactly the account's rows of the whole history. */
  lemma {:induction false} OwnRebuilt(cfg: Config, h: seq<Play>, a: Account)
    ensures RebuiltRows(cfg, Own(h, a)) == AccountRows(RebuiltRows(cfg, h), a)
  {
    if h != [] {
      var p, front := Last(h), Init(h);
      OwnRebuilt(cfg, front, a);
      assert h == front + [p];
      var held := SomeIncumbent(RebuiltRows(cfg, front), p);
      RebuiltStep(cfg, front, p, held);
      if p.account == a {
        RebuiltStep(cfg, Own(front, a), p, held);
      }
    }
  }

  // ----- Any reading order.

  /** The same keys with the same totals. */
  ghost predicate Alike(x: set<Row>, y: set<Row>) {
    && (forall r | r in x :: HasLike(y, r))
    && (forall r | r in y :: HasLike(x, r))
  }

  ghost predicate HasLike(rows: set<Row>, r: Row) {
    exists q :: q in rows && SameRowKey(q, r) && q.total == r.total
  }

  lemma RebuiltLike(cfg: Config, h: seq<Play>, g: seq<Play>, r: Row)
    requires SameMembers(h, g) && r in RebuiltRows(cfg, h)
    ensures HasLike(RebuiltRows(cfg, g), r)
  {
    var i := WinningPlay(BoardRule(cfg), h, r);
    var j := SameValues(BoardRule(cfg), h, g, i);
    assert RowOf(g[j]) in RebuiltRows(cfg, g) && SameRowKey(RowOf(g[j]), r);
  }

  /** Every order rebuilds the same keys with the same totals. */
  lemma RebuiltAlike(cfg: Config, h: seq<Play>, g: seq<Play>)
    requires SameMembers(h, g)
    ensures Alike(RebuiltRows(cfg, h), RebuiltRows(cfg, g))
  {
    forall r | r in RebuiltRows(cfg, h) {
      RebuiltLike(cfg, h, g, r);
    }
    forall r | r in RebuiltRows(cfg, g) {
      RebuiltLike(cfg, g, h, r);
    }
  }

  /** Every order rebuilds the very same rows if and only if no two plays share a key and its best total. */
  lemma RebuiltOrderExact(cfg: Config, h: seq<Play>)
    requires UniqueIds(h)
    ensures NoSharedBest(BoardRule(cfg), h) <==>
      forall g | multiset(g) == multiset(h) :: RebuiltRows(cfg, g) == RebuiltRows(cfg, h)
  {
    OnePlayPerRow(cfg, h);
    OrderExact(BoardRule(cfg), h);
    assert forall g :: RebuiltRows(cfg, g) == Winners(BoardRule(cfg), g);
  }

  lemma OnePlayPerRow(cfg: Config, h: seq<Play>)
    requires UniqueIds(h)
    ensures OwnRows(BoardRule(cfg), h)
  {
    forall p, q | p in h && q in h && RowOf(p) == RowOf(q)
      ensures p == q
    {
      var i :| 0 <= i < |h| && h[i] == p;
      var j :| 0 <= j < |h| && h[j] == q;
      assert h[i].id == h[j].id;
    }
  }

  // ----- The live table against what the tool reads.

  lemma ReadPlays(cfg: Config, h: seq<Play>, a: Account, g: seq<Play>)
    requires ReadsOwn(h, a, g)
    ensures forall p :: p in g <==> p in h && p.account == a
    ensures Alike(RebuiltRows(cfg, g), AccountRows(RebuiltRows(cfg, h), a))
  {
    OwnPlays(cfg, h, a);
    Reordered(g, Own(h, a));
    RebuiltAlike(cfg, g, Own(h, a));
    OwnRebuilt(cfg, h, a);
  }

  /** Every live row is dominated by the row rebuilt for its key. */
  lemma LiveRowsDominated(cfg: Config, accounts: set<Account>, h: seq<Play>, s: State, r: Row, g: seq<Play>)
    requires UniqueIds(h) && Reaches(cfg, accounts, h, s) && r in s.rows && ReadsOwn(h, r.account, g)
    ensures exists q :: q in RebuiltRows(cfg, g) && SameRowKey(q, r) && r.total <= q.total
  {
    BoardReachable(cfg, accounts, h, s);
    var p := RowIsPlayed(cfg, accounts, h, s.rows, r);
    ReadPlays(cfg, h, r.account, g);
    var k :| 0 <= k < |g| && g[k] == p;
    var i := RebuiltHasKey(cfg, g, k);
    assert RowOf(g[i]) in RebuiltRows(cfg, g);
  }

  /** The highest live row and the highest rebuilt row of a map carry the same total, the best of the map. */
  lemma TopsAgree(cfg: Config, accounts: set<Account>, h: seq<Play>, s: State, a: Account, m: int, g: seq<Play>,
                  live: Option<Row>, rebuilt: Option<Row>)
    requires UniqueIds(h) && Reaches(cfg, accounts, h, s) && a in accounts && cfg.BoardMap(m) && ReadsOwn(h, a, g)
    requires IsFirst(MapRows(s.rows, a, m), live) && IsFirst(MapRows(RebuiltRows(cfg, g), a, m), rebuilt)
    ensures live.Some? <==> rebuilt.Some?
    ensures live.Some? ==> live.value.total == rebuilt.value.total == Best(h, a, m)
  {
    BoardReachable(cfg, accounts, h, s);
    assert SlotOk(cfg, accounts, h, s.rows, a, m);
    FirstIsBest(h, MapRows(s.rows, a, m), a, m, live);
    RebuiltTop(cfg, g, a, m, rebuilt);
    ReadPlays(cfg, h, a, g);
    ReadBest(h, a, m, g);
  }

  lemma ReadBest(h: seq<Play>, a: Account, m: int, g: seq<Play>)
    requires forall p :: p in g <==> p in h && p.account == a
    ensures Best(g, a, m) == Best(h, a, m)
  {
    BestIsMaximum(h, a, m);
    BestIsMaximum(g, a, m);
  }
}
