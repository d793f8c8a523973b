/**
 The beatmap leaderboard as it is returned (app/database/score.py, get_leaderboard), and the position of a
 score by counting users (get_score_position_by_id).
 */
module Leaderboard {
  import opened Common
  import opened Ledger
  import opened Scores
  import opened Paging
  import opened SafePaging

  // ----- The response.

  /** The collected rows, best first. */
  ghost predicate ListsBoard(scores: map<UserId, Row>, list: seq<Row>) {
    && (forall i, j | 0 <= i < j < |list| :: list[i] != list[j] && list[i].total >= list[j].total)
    && (forall r :: r in list <==> r in scores.Values)
  }

  /** Every total fits a signed 64-bit number, and is below the largest one. */
  ghost predicate InRange(rows: set<Row>) {
    forall r | r in rows :: r.total < 0x7FFF_FFFF_FFFF_FFFF
  }

  ghost predicate ShowsTop(rows: set<Row>, board: seq<Row>) {
    board != [] && forall r | r in rows :: r.total <= board[0].total
  }

  /** What the board promises: it is right for distinct totals in range, for safe rows, and wherever no page skipped
      anybody; and with totals in range, tied or not, it starts with a row of maximal total. */
  ghost predicate IsBoardOf(rows: set<Row>, limit: int, run: seq<Pass>, board: seq<Row>) {
    && IsRun(rows, limit, run) && ListsBoard(End(run).scores, board)
    && ((InRange(rows) && DistinctTotals(rows)) || Safe(rows, limit) || Regular(rows) || NeverSkips(rows, run) ==>
          IsBoard(rows, End(run).scores, limit) && IsRightList(rows, limit, board))
    && (InRange(rows) && limit > 0 && rows != {} ==> ShowsTop(rows, board))
  }

  /** The board, the viewer's own best row (shown below the board if it is not on it), and the number of
      users with a row. */
  method GetLeaderboard(rows: set<Row>, limit: int, ownRows: set<Row>)
    returns (result: seq<Row>, own: Option<Row>, count: nat, ghost run: seq<Pass>, ghost board: seq<Row>)
    ensures count == |set r | r in rows :: r.account.user|
    ensures IsBoardOf(rows, limit, run, board) && IsFirst(ownRows, own)
    ensures result == if own.Some? && own.value !in board then board + [own.value] else board
  {
    count := CountUsers(rows);
    own := OwnBest(ownRows);
    result, run := ListCollected(rows, limit);
    board := result;
    if own.Some? && own.value !in result {
      result := result + [own.value];
    }
  }

  method CountUsers(rows: set<Row>) returns (count: nat)
    ensures count == |set r | r in rows :: r.account.user|
  {
    assert Users(rows) == set r | r in rows :: r.account.user;
    count := |Users(rows)|;
  }

  method OwnBest(ownRows: set<Row>) returns (own: Option<Row>)
    ensures IsFirst(ownRows, own)
  {
    own := None;
    if ownRows != {} {
      FirstExists(ownRows);
      var b :| b in ownRows && forall x | x in ownRows :: x.total <= b.total;
      own := Some(b);
    }
  }

  method ListCollected(rows: set<Row>, limit: int) returns (board: seq<Row>, ghost run: seq<Pass>)
    ensures IsBoardOf(rows, limit, run, board)
  {
    var collected;
    collected, run := CollectScores(rows, limit);
    board := QueryPage(collected.Values, |collected.Values|);
    AllOnThePage(collected.Values, board);
    RightWhenSafe(rows, limit, run, board);
    TopIsListed(rows, limit, run, board);
  }

  /** The best rows of the first users, best first, as many as asked for or as there are users. */
  ghost predicate IsRightList(rows: set<Row>, limit: int, board: seq<Row>) {
    && (forall r | r in board ::
          r in rows && forall q | q in rows && q.account.user == r.account.user :: q.total <= r.total)
    && (forall i, j | 0 <= i < j < |board| ::
          board[i].account.user != board[j].account.user && board[i].total >= board[j].total)
    && (forall r, q | r in rows && q in board && (forall b | b in board :: b.account.user != r.account.user) ::
          r.total <= q.total)
    && var users := |set r | r in rows :: r.account.user|;
       |board| == if users < limit then users else if limit < 0 then 0 else limit
  }

  lemma {:induction false} OneRowPerUser(scores: map<UserId, Row>)
    requires forall u | u in scores :: User(scores[u]) == u
    ensures |scores.Values| == |scores|
  {
    if scores != map[] {
      var u :| u in scores;
      var rest := scores - {u};
      OneRowPerUser(rest);
      assert scores.Values == rest.Values + {scores[u]};
      assert scores[u] !in rest.Values;
      assert |rest| == |scores| - 1 by {
        assert rest.Keys == scores.Keys - {u};
      }
    }
  }

  lemma ListIsRight(rows: set<Row>, limit: int, scores: map<UserId, Row>, board: seq<Row>)
    requires IsBoard(rows, scores, limit) && ListsBoard(scores, board)
    ensures IsRightList(rows, limit, board)
  {
    OneRowPerUser(scores);
    DistinctCount(board);
    assert Elements(board) == scores.Values;
    assert Users(rows) == set r | r in rows :: r.account.user;
    forall r | r in board
      ensures IsUserBest(rows, r) && User(r) in scores && scores[User(r)] == r
    {
      var u :| u in scores && scores[u] == r;
    }
    forall i, j | 0 <= i < j < |board|
      ensures User(board[i]) != User(board[j])
    {
      assert board[i] in board && board[j] in board;
    }
    assert forall u | u in scores :: scores[u] in board && User(scores[u]) == u;
    forall r, q | r in rows && q in board && forall b | b in board :: User(b) != User(r)
      ensures r.total <= q.total
    {
      assert User(r) !in scores;
    }
  }

  lemma RightWhenSafe(rows: set<Row>, limit: int, run: seq<Pass>, board: seq<Row>)
    requires IsRun(rows, limit, run) && ListsBoard(End(run).scores, board)
    ensures (InRange(rows) && DistinctTotals(rows)) || Safe(rows, limit) || Regular(rows) || NeverSkips(rows, run) ==>
      IsBoard(rows, End(run).scores, limit) && IsRightList(rows, limit, board)
  {
    RightExact(rows, limit);
    BoardExact(rows, limit, run);
    if Regular(rows) {
      RegularNeverSkips(rows, limit, run);
    }
    if IsBoard(rows, End(run).scores, limit) {
      ListIsRight(rows, limit, End(run).scores, board);
    }
  }

  lemma TopIsListed(rows: set<Row>, limit: int, run: seq<Pass>, board: seq<Row>)
    requires IsRun(rows, limit, run) && ListsBoard(End(run).scores, board)
    ensures InRange(rows) && limit > 0 && rows != {} ==> ShowsTop(rows, board)
  {
    if InRange(rows) && limit > 0 && rows != {} {
      assert |run| > 1;
      TopCollected(rows, limit, run);
      TopListed(rows, End(run).scores, board);
    }
  }

  lemma TopListed(rows: set<Row>, scores: map<UserId, Row>, board: seq<Row>)
    requires ListsBoard(scores, board)
    requires exists u :: u in scores && forall r | r in rows :: r.total <= scores[u].total
    ensures ShowsTop(rows, board)
  {
    var u :| u in scores && forall r | r in rows :: r.total <= scores[u].total;
    assert scores[u] in board;
    var j :| 0 <= j < |board| && board[j] == scores[u];
  }

  lemma AllOnThePage(rows: set<Row>, page: seq<Row>)
    requires IsPage(rows, page, |rows|)
    ensures forall r :: r in page <==> r in rows
  {
    DistinctCount(page);
    var rest := rows - Elements(page);
    assert rows == Elements(page) + rest;
    assert |rest| == 0;
  }

  // ----- Positions.

  /** The users of the first k entries of a list. */
  function UsersOf(list: seq<Row>, k: nat): set<UserId>
    requires k <= |list|
  {
    if k == 0 then {} else UsersOf(list, k - 1) + {User(list[k - 1])}
  }

  /** The whole deduplicated leaderboard: every user once, with an own best row, best first. */
  ghost predicate IsFullList(rows: set<Row>, list: seq<Row>) {
    && (forall i | 0 <= i < |list| :: IsUserBest(rows, list[i]))
    && (forall i, j | 0 <= i < j < |list| :: User(list[i]) != User(list[j]) && list[i].total >= list[j].total)
    && UsersOf(list, |list|) == Users(rows)
  }

  function UsersAbove(rows: set<Row>, total: int): set<UserId> {
    set r | r in rows && r.total > total :: User(r)
  }

  /** The position of a score; 0 without a row or without a filter to apply. */
  function ScorePosition(rows: Option<set<Row>>, mine: Option<Row>): nat {
    if rows.None? || mine.None? then 0 else |UsersAbove(rows.value, mine.value.total)| + 1
  }

  lemma {:induction false} UsersOfMembers(list: seq<Row>, k: nat)
    requires k <= |list|
    ensures forall u :: u in UsersOf(list, k) <==> exists i :: 0 <= i < k && User(list[i]) == u
  {
    if k > 0 {
      UsersOfMembers(list, k - 1);
      forall u
        ensures u in UsersOf(list, k) <==> exists i :: 0 <= i < k && User(list[i]) == u
      {
        if u == User(list[k - 1]) {
          assert User(list[k - 1]) == u && u in UsersOf(list, k);
        }
      }
    }
  }

  lemma {:induction false} UsersOfCount(list: seq<Row>, k: nat)
    requires k <= |list|
    requires forall i, j | 0 <= i < j < |list| :: User(list[i]) != User(list[j])
    ensures |UsersOf(list, k)| == k
  {
    if k > 0 {
      UsersOfCount(list, k - 1);
      UsersOfMembers(list, k - 1);
    }
  }

  /** The number of leading entries strictly above a total. */
  function LeadersAbove(list: seq<Row>, total: int): nat {
    if list == [] || list[0].total <= total then 0 else 1 + LeadersAbove(list[1..], total)
  }

  lemma {:induction false} LeadersAboveMeans(list: seq<Row>, total: int)
    requires forall i, j | 0 <= i < j < |list| :: list[i].total >= list[j].total
    ensures LeadersAbove(list, total) <= |list|
    ensures forall i | 0 <= i < |list| :: list[i].total > total <==> i < LeadersAbove(list, total)
  {
    if list != [] && list[0].total > total {
      LeadersAboveMeans(list[1..], total);
      forall i | 0 <= i < |list|
        ensures list[i].total > total <==> i < LeadersAbove(list, total)
      {
        assert i > 0 ==> list[i] == list[1..][i - 1];
      }
    }
  }

  lemma CountAbove(rows: set<Row>, list: seq<Row>, total: int)
    requires IsFullList(rows, list)
    ensures |UsersAbove(rows, total)| == LeadersAbove(list, total)
  {
    var k := LeadersAbove(list, total);
    LeadersAboveMeans(list, total);
    UsersOfCount(list, k);
    UsersOfMembers(list, k);
    UsersOfMembers(list, |list|);
    forall r | r in rows && r.total > total
      ensures User(r) in UsersOf(list, k)
    {
      assert User(r) in Users(rows);
      var i :| 0 <= i < |list| && User(list[i]) == User(r);
      assert IsUserBest(rows, list[i]);
    }
    forall i | 0 <= i < k
      ensures User(list[i]) in UsersAbove(rows, total)
    {
      assert IsUserBest(rows, list[i]);
    }
    assert UsersAbove(rows, total) == UsersOf(list, k);
  }

  /** A user's best row is never placed below its index in the full list nor past the number of users, and
      exactly at its index unless the entry before it has the same total. */
  lemma PositionMatchesList(rows: set<Row>, list: seq<Row>, i: nat)
    requires IsFullList(rows, list) && i < |list|
    ensures 1 <= ScorePosition(Some(rows), Some(list[i])) <= i + 1 <= |Users(rows)|
    ensures ScorePosition(Some(rows), Some(list[i])) == i + 1 <==> (i == 0 || list[i - 1].total > list[i].total)
  {
    CountAbove(rows, list, list[i].total);
    LeadersAboveMeans(list, list[i].total);
    UsersOfCount(list, |list|);
  }

  /** A board with room for everybody, listed, is the full list. */
  lemma FullBoardIsFullList(rows: set<Row>, scores: map<UserId, Row>, n: int, list: seq<Row>)
    requires IsBoard(rows, scores, n) && n >= |Users(rows)| && ListsBoard(scores, list)
    ensures IsFullList(rows, list)
  {
    forall i | 0 <= i < |list|
      ensures IsUserBest(rows, list[i]) && User(list[i]) in scores && scores[User(list[i])] == list[i]
    {
      assert list[i] in list;
      var u :| u in scores && scores[u] == list[i];
    }
    UsersOfMembers(list, |list|);
    FullBoardHasAll(rows, scores, n);
    forall u | u in Users(rows)
      ensures u in UsersOf(list, |list|)
    {
      assert scores[u] in list;
      var i :| 0 <= i < |list| && list[i] == scores[u];
    }
    forall i | 0 <= i < |list|
      ensures User(list[i]) in Users(rows)
    {
    }
    assert UsersOf(list, |list|) == Users(rows);
  }

  lemma FullBoardHasAll(rows: set<Row>, scores: map<UserId, Row>, n: int)
    requires IsBoard(rows, scores, n) && n >= |Users(rows)|
    ensures scores.Keys == Users(rows)
  {
    forall u | u in scores
      ensures u in Users(rows)
    {
      assert User(scores[u]) in Users(rows);
    }
    assert scores.Keys <= Users(rows);
    var rest := Users(rows) - scores.Keys;
    assert Users(rows) == scores.Keys + rest;
    assert |scores.Keys| == |Users(rows)|;
    assert |rest| == 0;
  }
}
