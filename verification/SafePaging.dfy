/**
 For which rows and limits is the paging loop right, whatever order tied rows come in?

 As long as nothing is skipped, the users collected are those with a row at or above the bound.  So the
 rows decide where the next page is cut, and among the rows tied at the cut which users may be dropped.
 */
module SafePaging {
  import opened Common
  import opened Ledger
  import opened Scores
  import opened Paging

  /** The users with a row at or above the bound. */
  function Met(rows: set<Row>, bound: int): set<UserId> {
    set r | r in rows && r.total >= bound :: User(r)
  }

  function AtTotal(rows: set<Row>, t: int): set<Row> {
    set r | r in rows && r.total == t
  }

  function Over(rows: set<Row>, t: int): set<Row> {
    set r | r in rows && r.total > t
  }

  /** The n-th best row has total t. */
  ghost predicate IsCut(rows: set<Row>, n: nat, t: int) {
    |Over(rows, t)| < n <= |Over(rows, t)| + |AtTotal(rows, t)|
  }

  lemma OverAndAt(rows: set<Row>, t: int, u: int)
    requires t < u
    ensures |Over(rows, u)| + |AtTotal(rows, u)| <= |Over(rows, t)|
  {
    assert |Over(rows, u) + AtTotal(rows, u)| == |Over(rows, u)| + |AtTotal(rows, u)|;
    SubsetCount(Over(rows, u) + AtTotal(rows, u), Over(rows, t));
  }

  lemma CutUnique(rows: set<Row>, n: nat, t: int, u: int)
    requires IsCut(rows, n, t) && IsCut(rows, n, u)
    ensures t == u
  {
    if t < u {
      OverAndAt(rows, t, u);
    } else if u < t {
      OverAndAt(rows, u, t);
    }
  }

  /** All rows, best first. */
  lemma {:induction false} SortedAll(rows: set<Row>) returns (page: seq<Row>)
    ensures IsPage(rows, page, |rows|) && Elements(page) == rows
  {
    if rows == {} {
      page := [];
    } else {
      FirstExists(rows);
      var b :| b in rows && forall x | x in rows :: x.total <= b.total;
      var rest := SortedAll(rows - {b});
      BestInFront(rows, b, rest);
      page := [b] + rest;
    }
  }

  lemma BestInFront(rows: set<Row>, b: Row, rest: seq<Row>)
    requires b in rows && (forall x | x in rows :: x.total <= b.total)
    requires Descending(rest) && Elements(rest) == rows - {b}
    ensures IsPage(rows, [b] + rest, |rows|) && Elements([b] + rest) == rows
  {
    var page := [b] + rest;
    forall r | r in rest
      ensures r != b && r.total <= b.total
    {
      assert r in Elements(rest);
    }
    HeadDescending(b, rest);
    JoinedElements([b], rest);
    assert Elements([b]) == {b};
    WholeTable(rows, page);
  }

  lemma WholeTable(rows: set<Row>, page: seq<Row>)
    requires Descending(page) && Elements(page) == rows
    ensures IsPage(rows, page, |rows|)
  {
    DistinctCount(page);
    assert forall r | r in rows :: r in page;
    assert forall r | r in page :: r in Elements(page);
  }

  ghost predicate Descending(page: seq<Row>) {
    forall i, j | 0 <= i < j < |page| :: page[i] != page[j] && page[i].total >= page[j].total
  }

  lemma HeadDescending(b: Row, rest: seq<Row>)
    requires Descending(rest) && forall r | r in rest :: r != b && r.total <= b.total
    ensures Descending([b] + rest)
  {
    var page := [b] + rest;
    forall i, j | 0 <= i < j < |page|
      ensures page[i] != page[j] && page[i].total >= page[j].total
    {
      assert page[j] == rest[j - 1] && rest[j - 1] in rest;
    }
  }

  lemma JoinedElements(x: seq<Row>, y: seq<Row>)
    ensures Elements(x + y) == Elements(x) + Elements(y)
  {
    assert forall r :: r in x + y <==> r in x || r in y;
  }

  lemma {:induction false} CutExists(rows: set<Row>, n: nat) returns (t: int)
    requires 0 < n <= |rows|
    ensures IsCut(rows, n, t)
    decreases |rows|
  {
    FirstExists(rows);
    var b :| b in rows && forall x | x in rows :: x.total <= b.total;
    var top := AtTotal(rows, b.total);
    assert Over(rows, b.total) == {} && b in top;
    if n <= |top| {
      t := b.total;
    } else {
      var rest := rows - top;
      assert rows == rest + top;
      t := CutExists(rest, n - |top|);
      CutLower(rows, top, rest, b, t);
    }
  }

  lemma CutLower(rows: set<Row>, top: set<Row>, rest: set<Row>, b: Row, t: int)
    requires b in rows && (forall x | x in rows :: x.total <= b.total)
    requires top == AtTotal(rows, b.total) && rest == rows - top && AtTotal(rest, t) != {}
    ensures |Over(rows, t)| == |Over(rest, t)| + |top| && AtTotal(rows, t) == AtTotal(rest, t)
  {
    var r :| r in AtTotal(rest, t);
    assert t < b.total;
    assert Over(rows, t) == Over(rest, t) + top;
  }

  /** The total at which a page of n rows is cut. */
  ghost function CutTotal(rows: set<Row>, n: nat): (t: int)
    requires 0 < n <= |rows|
    ensures IsCut(rows, n, t)
  {
    CutIsThere(rows, n);
    var t :| IsCut(rows, n, t);
    t
  }

  lemma CutIsThere(rows: set<Row>, n: nat)
    requires 0 < n <= |rows|
    ensures exists t :: IsCut(rows, n, t)
  {
    var t := CutExists(rows, n);
  }

  /** Below the cut fewer rows are left. */
  lemma CutShrinks(rows: set<Row>, bound: int, n: nat, t: int)
    requires IsCut(Below(rows, bound), n, t)
    ensures t < bound && |Below(rows, t)| < |Below(rows, bound)|
  {
    assert AtTotal(Below(rows, bound), t) != {};
    var r :| r in AtTotal(Below(rows, bound), t);
    SubsetCount(Below(rows, t) + {r}, Below(rows, bound));
  }

  // ----- The condition.

  /** The users collected when of the rows tied at the cut those of `chosen` are on the page. */
  function Kept(rows: set<Row>, t: int, chosen: set<Row>): set<UserId> {
    Met(rows, t + 1) + Users(chosen)
  }

  /** Rows tied at the cut that may be the ones on the page. */
  ghost predicate CanChoose(rows: set<Row>, below: set<Row>, n: nat, t: int, chosen: set<Row>) {
    chosen <= AtTotal(rows, t) && |Over(below, t)| + |chosen| == n
  }

  /** Whichever rows tied at the cut are on the page: the loop then has its users, or it has met all users
      tied there. */
  ghost predicate TieSafe(rows: set<Row>, bound: int, n: nat, t: int, limit: nat) {
    forall chosen | CanChoose(rows, Below(rows, bound), n, t, chosen) ::
      |Kept(rows, t, chosen)| >= limit || Users(AtTotal(rows, t)) <= Kept(rows, t, chosen)
  }

  /** From a bound on, no page drops a user for good. */
  ghost predicate SafeFrom(rows: set<Row>, bound: int, limit: nat)
    decreases |Below(rows, bound)|
  {
    var below, n := Below(rows, bound), limit - |Met(rows, bound)|;
    if n <= 0 || |below| <= n then true
    else
      var t := CutTotal(below, n);
      CutShrinks(rows, bound, n, t);
      TieSafe(rows, bound, n, t, limit) && SafeFrom(rows, t, limit)
  }

  /** No row is out of range, and no page drops a user for good. */
  ghost predicate Safe(rows: set<Row>, limit: int) {
    limit <= 0 || ((forall r | r in rows :: r.total < MAX_SIZE) && SafeFrom(rows, MAX_SIZE, limit))
  }

  // ----- A round of a run that has skipped nothing.

  /** The users met are collected, and the missing ones are asked for unless no row is left. */
  ghost predicate Tracks(rows: set<Row>, p: Pass, limit: nat) {
    && p.scores.Keys == Met(rows, p.bound) && p.need > 0
    && (|p.scores| + p.need == limit || Below(rows, p.bound) == {})
  }

  lemma NewUserOnPage(rows: set<Row>, p: Pass, q: Pass, u: UserId)
    requires RoundFacts(rows, p, q) && u in q.scores && u !in p.scores
    ensures u in Users(Elements(q.page))
  {
    assert q.scores[u] in Elements(q.page);
  }

  lemma PageUserCollected(rows: set<Row>, p: Pass, q: Pass, r: Row)
    requires RoundFacts(rows, p, q) && r in q.page
    ensures User(r) in q.scores
  {
    var j :| 0 <= j < |q.page| && q.page[j] == r;
  }

  lemma PageUsers(rows: set<Row>, p: Pass, q: Pass)
    requires RoundFacts(rows, p, q)
    ensures q.scores.Keys == p.scores.Keys + Users(Elements(q.page))
  {
    forall u | u in q.scores && u !in p.scores
      ensures u in Users(Elements(q.page))
    {
      NewUserOnPage(rows, p, q, u);
    }
    forall r | r in q.page
      ensures User(r) in q.scores
    {
      PageUserCollected(rows, p, q, r);
    }
    assert forall u | u in Users(Elements(q.page)) :: u in q.scores.Keys;
  }

  /** A full page is cut at its last total: it holds all rows above, and some of those tied there. */
  lemma FullPage(below: set<Row>, page: seq<Row>, n: nat, t: int)
    requires IsPage(below, page, n) && 0 < n <= |below| && t == page[|page| - 1].total
    ensures IsCut(below, n, t)
    ensures
      var chosen := Elements(page) * AtTotal(below, t);
      Elements(page) == Over(below, t) + chosen && |Over(below, t)| + |chosen| == n
  {
    var last, all, chosen := page[n - 1], Elements(page), Elements(page) * AtTotal(below, t);
    DistinctCount(page);
    assert last in page;
    forall r | r in page
      ensures r in below && t <= r.total
    {
      LastIsLeast(page, r);
    }
    forall r | r in Over(below, t)
      ensures r in page
    {
      assert r in page || r.total <= last.total;
    }
    assert all == Over(below, t) + chosen;
    assert last in chosen && |chosen| > 0;
    SubsetCount(chosen, AtTotal(below, t));
  }

  lemma MetBelow(rows: set<Row>, bound: int, t: int)
    requires t < bound
    ensures Met(rows, t + 1) == Met(rows, bound) + Users(Over(Below(rows, bound), t))
    ensures Met(rows, t) == Met(rows, t + 1) + Users(AtTotal(rows, t))
    ensures AtTotal(Below(rows, bound), t) == AtTotal(rows, t)
  {
    forall u
      ensures u in Met(rows, t + 1) <==> u in Met(rows, bound) + Users(Over(Below(rows, bound), t))
    {
      if u in Met(rows, t + 1) {
        var r :| r in rows && r.total >= t + 1 && User(r) == u;
        assert r.total < bound ==> r in Over(Below(rows, bound), t);
      }
    }
    forall u
      ensures u in Met(rows, t) <==> u in Met(rows, t + 1) + Users(AtTotal(rows, t))
    {
      if u in Met(rows, t) {
        var r :| r in rows && r.total >= t && User(r) == u;
        assert r.total == t ==> r in AtTotal(rows, t);
      }
    }
  }

  lemma UsersJoin(x: set<Row>, y: set<Row>)
    ensures Users(x + y) == Users(x) + Users(y)
  {
  }

  /** What a full page collects: the users above the cut and those of the chosen rows. */
  lemma FullRound(rows: set<Row>, p: Pass, q: Pass, t: int, chosen: set<Row>)
    requires RoundFacts(rows, p, q) && p.scores.Keys == Met(rows, p.bound) && t < p.bound
    requires Elements(q.page) == Over(Below(rows, p.bound), t) + chosen
    ensures q.scores.Keys == Kept(rows, t, chosen)
  {
    PageUsers(rows, p, q);
    MetBelow(rows, p.bound, t);
    UsersJoin(Over(Below(rows, p.bound), t), chosen);
  }

  lemma CollectedAreMet(rows: set<Row>, scores: map<UserId, Row>, bound: int)
    requires Collected(rows, scores, bound)
    ensures scores.Keys <= Met(rows, bound)
  {
    forall u | u in scores.Keys
      ensures u in Met(rows, bound)
    {
      assert scores[u] in rows;
    }
  }

  /** A page that takes all rows below the bound meets everybody. */
  lemma RowMet(rows: set<Row>, p: Pass, q: Pass, r: Row)
    requires RoundFacts(rows, p, q) && p.scores.Keys == Met(rows, p.bound)
    requires Elements(q.page) == Below(rows, p.bound) && r in rows
    ensures q.bound <= r.total && User(r) in q.scores.Keys
  {
    if r.total < p.bound {
      assert r in Elements(q.page);
      PageBetween(rows, p, q, r);
      PageUserCollected(rows, p, q, r);
    } else {
      assert User(r) in Met(rows, p.bound);
      BoundOnlyFalls(rows, p, q);
    }
  }

  lemma BoundOnlyFalls(rows: set<Row>, p: Pass, q: Pass)
    requires RoundFacts(rows, p, q)
    ensures q.bound <= p.bound && p.scores.Keys <= q.scores.Keys
  {
    BoundFalls(rows, p.bound, q.page, p.need, q.bound);
  }

  lemma WholePage(rows: set<Row>, p: Pass, q: Pass)
    requires RoundFacts(rows, p, q) && |Below(rows, p.bound)| <= p.need
    ensures Elements(q.page) == Below(rows, p.bound)
  {
    DistinctCount(q.page);
    PageElements(rows, p.bound, q.page);
  }

  lemma LastRound(rows: set<Row>, p: Pass, q: Pass, limit: nat)
    requires RoundFacts(rows, p, q) && Collected(rows, p.scores, p.bound) && p.scores.Keys == Met(rows, p.bound)
    requires q.need > 0
    requires |Below(rows, p.bound)| <= p.need
    ensures Tracks(rows, q, limit) && SafeFrom(rows, q.bound, limit)
  {
    WholePage(rows, p, q);
    PassCollects(rows, p, q);
    CollectedAreMet(rows, q.scores, q.bound);
    forall r | r in rows
      ensures q.bound <= r.total && User(r) in q.scores.Keys
    {
      RowMet(rows, p, q, r);
    }
    assert Below(rows, q.bound) == {};
    assert Met(rows, q.bound) <= q.scores.Keys;
  }

  /** A page cut among tied rows: which of them it holds, and whom it collects. */
  lemma CutFacts(rows: set<Row>, p: Pass, q: Pass, limit: nat, t: int) returns (chosen: set<Row>)
    requires RoundFacts(rows, p, q) && p.scores.Keys == Met(rows, p.bound) && |p.scores| + p.need == limit
    requires p.need < |Below(rows, p.bound)| && IsCut(Below(rows, p.bound), p.need, t)
    ensures q.bound == t < p.bound && CanChoose(rows, Below(rows, p.bound), p.need, t, chosen)
    ensures q.scores.Keys == Kept(rows, t, chosen) && |q.scores| + q.need == limit
  {
    chosen := FullPageOf(rows, p, q);
    CutUnique(Below(rows, p.bound), p.need, t, q.bound);
    CutShrinks(rows, p.bound, p.need, t);
    MetBelow(rows, p.bound, t);
    FullRound(rows, p, q, t, chosen);
    FullCount(rows, p, q);
  }

  lemma FullPageOf(rows: set<Row>, p: Pass, q: Pass) returns (chosen: set<Row>)
    requires RoundFacts(rows, p, q) && p.need <= |Below(rows, p.bound)|
    ensures IsCut(Below(rows, p.bound), p.need, q.bound)
    ensures chosen <= AtTotal(Below(rows, p.bound), q.bound)
    ensures |Over(Below(rows, p.bound), q.bound)| + |chosen| == p.need
    ensures Elements(q.page) == Over(Below(rows, p.bound), q.bound) + chosen
  {
    FullPage(Below(rows, p.bound), q.page, p.need, q.bound);
    chosen := Elements(q.page) * AtTotal(Below(rows, p.bound), q.bound);
  }

  lemma FullCount(rows: set<Row>, p: Pass, q: Pass)
    requires RoundFacts(rows, p, q) && p.need <= |Below(rows, p.bound)|
    ensures |q.scores| + q.need == |p.scores| + p.need
  {
  }

  /** If users are still missing, everybody tied at the cut has been met. */
  lemma KeptTracks(rows: set<Row>, bound: int, n: nat, t: int, chosen: set<Row>, q: Pass, limit: nat)
    requires t < bound && TieSafe(rows, bound, n, t, limit) && CanChoose(rows, Below(rows, bound), n, t, chosen)
    requires q.bound == t && q.scores.Keys == Kept(rows, t, chosen) && |q.scores| + q.need == limit && q.need > 0
    ensures Tracks(rows, q, limit)
  {
    KeysCount(q.scores);
    MetBelow(rows, bound, t);
    assert Users(chosen) <= Users(AtTotal(rows, t));
  }

  /** From a safe bound the next round loses nobody and leaves a safe bound. */
  lemma SafeRound(rows: set<Row>, p: Pass, q: Pass, limit: nat)
    requires PassStep(rows, p, q) && Collected(rows, p.scores, p.bound) && q.need > 0
    requires Tracks(rows, p, limit) && SafeFrom(rows, p.bound, limit)
    ensures Tracks(rows, q, limit) && SafeFrom(rows, q.bound, limit)
  {
    PassMeans(rows, p, q);
    if |Below(rows, p.bound)| <= p.need {
      LastRound(rows, p, q, limit);
    } else {
      KeysCount(p.scores);
      var t := SafeCut(rows, p.bound, limit, p.need);
      var chosen := CutFacts(rows, p, q, limit, t);
      KeptTracks(rows, p.bound, p.need, t, chosen, q, limit);
    }
  }

  lemma KeysCount(scores: map<UserId, Row>)
    ensures |scores.Keys| == |scores|
  {
  }

  lemma SafeCut(rows: set<Row>, bound: int, limit: nat, n: nat) returns (t: int)
    requires SafeFrom(rows, bound, limit) && n == limit - |Met(rows, bound)| && 0 < n < |Below(rows, bound)|
    ensures IsCut(Below(rows, bound), n, t) && TieSafe(rows, bound, n, t, limit) && SafeFrom(rows, t, limit)
  {
    t := CutTotal(Below(rows, bound), n);
    CutShrinks(rows, bound, n, t);
  }

  lemma TracksSkipsNothing(rows: set<Row>, p: Pass, limit: nat)
    requires Tracks(rows, p, limit)
    ensures NothingSkipped(rows, p.scores, p.bound)
  {
    forall r | r in rows && r.total >= p.bound
      ensures User(r) in p.scores
    {
      assert User(r) in Met(rows, p.bound);
    }
  }

  lemma FirstPass(rows: set<Row>, limit: nat)
    requires limit > 0 && forall r | r in rows :: r.total < MAX_SIZE
    ensures Tracks(rows, Pass(map[], MAX_SIZE, limit, []), limit)
  {
    assert Met(rows, MAX_SIZE) == {};
  }

  lemma {:induction false} SafeRun(rows: set<Row>, limit: nat, run: seq<Pass>)
    requires run != [] && IsRunSoFar(rows, limit, run) && limit > 0 && Safe(rows, limit)
    ensures NeverSkips(rows, run)
    ensures End(run).need > 0 ==> Tracks(rows, End(run), limit) && SafeFrom(rows, End(run).bound, limit)
  {
    if |run| == 1 {
      FirstPass(rows, limit);
    } else {
      var front := Front(run);
      SafeRun(rows, limit, front);
      NeedOfStep(rows, limit, run);
      NeverSkipsBefore(rows, run);
      TracksSkipsNothing(rows, End(front), limit);
      RunCollects(rows, limit, front);
      if End(run).need > 0 {
        SafeRound(rows, End(front), End(run), limit);
      }
    }
  }

  // ----- Where the condition fails, a run loses somebody.

  lemma {:induction false} SomeSubset(s: set<Row>, n: nat) returns (t: set<Row>)
    requires n <= |s|
    ensures t <= s && |t| == n
  {
    if n == 0 {
      t := {};
    } else {
      var r :| r in s;
      var rest := SomeSubset(s - {r}, n - 1);
      t := rest + {r};
    }
  }

  /** A page that is cut at t and holds the chosen rows tied there. */
  lemma PageWith(below: set<Row>, n: nat, t: int, chosen: set<Row>) returns (page: seq<Row>)
    requires chosen <= AtTotal(below, t) && |Over(below, t)| + |chosen| == n && n <= |below|
    ensures IsPage(below, page, n) && Elements(page) == Over(below, t) + chosen
  {
    var x := SortedAll(Over(below, t));
    var y := SortedAll(chosen);
    page := x + y;
    TwoParts(below, n, t, chosen, x, y);
  }

  lemma DescendingParts(x: seq<Row>, y: seq<Row>, t: int)
    requires Descending(x) && Descending(y)
    requires (forall r | r in x :: r.total > t) && (forall r | r in y :: r.total <= t)
    ensures Descending(x + y)
  {
    var page := x + y;
    forall i, j | 0 <= i < j < |page|
      ensures page[i] != page[j] && page[i].total >= page[j].total
    {
      if i < |x| <= j {
        assert page[i] in x && page[j] in y;
      }
    }
  }

  lemma TwoParts(below: set<Row>, n: nat, t: int, chosen: set<Row>, x: seq<Row>, y: seq<Row>)
    requires chosen <= AtTotal(below, t) && |Over(below, t)| + |chosen| == n && n <= |below|
    requires IsPage(Over(below, t), x, |Over(below, t)|) && Elements(x) == Over(below, t)
    requires IsPage(chosen, y, |chosen|) && Elements(y) == chosen
    ensures IsPage(below, x + y, n) && Elements(x + y) == Over(below, t) + chosen
  {
    var page := x + y;
    DescendingParts(x, y, t);
    JoinedElements(x, y);
    forall r | r in below && r !in page
      ensures r.total <= t
    {
      assert r !in Elements(x);
    }
    forall r | r in page
      ensures r in below && t <= r.total
    {
      assert r in Elements(page);
    }
  }

  /** Some page of a query. */
  lemma SomePage(rows: set<Row>, n: nat) returns (page: seq<Row>)
    ensures IsPage(rows, page, n)
  {
    if |rows| <= n {
      page := SortedAll(rows);
    } else if n == 0 {
      page := [];
    } else {
      var t := CutTotal(rows, n);
      var chosen := SomeSubset(AtTotal(rows, t), n - |Over(rows, t)|);
      page := PageWith(rows, n, t, chosen);
    }
  }

  lemma {:induction false} CollectCount(scores: map<UserId, Row>, page: seq<Row>, i: nat)
    requires i <= |page|
    ensures |scores| <= |Collect(scores, page, i)| + i
    ensures |Collect(scores, page, i)| <= |scores| + i
  {
    if i > 0 {
      CollectCount(scores, page, i - 1);
    }
  }

  /** The state after taking a page. */
  function Next(p: Pass, page: seq<Row>): Pass {
    var scores := Collect(p.scores, page, |page|);
    Pass(scores, Lowest(p.bound, page, |page|), |p.scores| + |page| - |scores|, page)
  }

  lemma NextIsStep(rows: set<Row>, p: Pass, page: seq<Row>)
    requires p.need > 0 && IsPage(Below(rows, p.bound), page, p.need)
    ensures PassStep(rows, p, Next(p, page))
  {
    CollectCount(p.scores, page, |page|);
  }

  /** full is a whole run that starts like run, and goes on if users are missing. */
  ghost predicate Finishes(rows: set<Row>, limit: int, run: seq<Pass>, full: seq<Pass>) {
    && run != [] && IsRun(rows, limit, full) && |run| <= |full| && full[..|run|] == run
    && (End(run).need > 0 ==> |run| < |full|)
  }

  lemma FinishesLater(rows: set<Row>, limit: int, run: seq<Pass>, q: Pass, full: seq<Pass>)
    requires run != [] && Finishes(rows, limit, run + [q], full)
    ensures Finishes(rows, limit, run, full) && full[|run|] == q
  {
    assert full[..|run| + 1] == run + [q];
    assert full[..|run|] == (run + [q])[..|run|] == run;
    assert full[|run|] == (run + [q])[|run|];
  }

  /** Every run so far can be finished. */
  lemma {:induction false} Finish(rows: set<Row>, limit: int, run: seq<Pass>) returns (full: seq<Pass>)
    requires run != [] && IsRunSoFar(rows, limit, run)
    ensures Finishes(rows, limit, run, full)
    decreases |Below(rows, End(run).bound)|, if End(run).need > 0 then 1 else 0
  {
    var p := End(run);
    if p.need <= 0 {
      full := run;
    } else {
      RunCollects(rows, limit, run);
      var page := SomePage(Below(rows, p.bound), p.need);
      var q := Next(p, page);
      NextIsStep(rows, p, page);
      RoundShrinks(rows, p, q);
      RunGrows(rows, limit, run, q);
      full := Finish(rows, limit, run + [q]);
      FinishesLater(rows, limit, run, q, full);
    }
  }

  /** A round cut at t with the chosen rows tied there. */
  lemma ChosenRound(rows: set<Row>, p: Pass, limit: nat, t: int, chosen: set<Row>) returns (q: Pass)
    requires Collected(rows, p.scores, p.bound) && Tracks(rows, p, limit) && |p.scores| + p.need == limit
    requires p.need < |Below(rows, p.bound)| && IsCut(Below(rows, p.bound), p.need, t)
    requires CanChoose(rows, Below(rows, p.bound), p.need, t, chosen)
    ensures PassStep(rows, p, q) && q.bound == t < p.bound && q.scores.Keys == Kept(rows, t, chosen)
    ensures |q.scores| + q.need == limit
  {
    var below := Below(rows, p.bound);
    CutShrinks(rows, p.bound, p.need, t);
    MetBelow(rows, p.bound, t);
    var page := CutPage(below, p.need, t, chosen);
    q := Next(p, page);
    NextFacts(rows, p, page);
    FullRound(rows, p, q, t, chosen);
  }

  lemma NextFacts(rows: set<Row>, p: Pass, page: seq<Row>)
    requires Collected(rows, p.scores, p.bound) && p.need > 0 && IsPage(Below(rows, p.bound), page, p.need)
    requires page != []
    ensures PassStep(rows, p, Next(p, page)) && RoundFacts(rows, p, Next(p, page))
    ensures Next(p, page).bound == page[|page| - 1].total
  {
    NextIsStep(rows, p, page);
    PassMeans(rows, p, Next(p, page));
    NextBound(rows, p, page, p.need);
  }

  lemma NextBound(rows: set<Row>, p: Pass, page: seq<Row>, limit: nat)
    requires IsPage(Below(rows, p.bound), page, limit) && page != []
    ensures Next(p, page).bound == page[|page| - 1].total
  {
    PageIsSorted(rows, p.bound, page, limit);
    LowestIsLast(p.bound, page, |page|);
  }

  lemma CutPage(below: set<Row>, n: nat, t: int, chosen: set<Row>) returns (page: seq<Row>)
    requires 0 < n <= |below| && IsCut(below, n, t)
    requires chosen <= AtTotal(below, t) && |Over(below, t)| + |chosen| == n
    ensures IsPage(below, page, n) && Elements(page) == Over(below, t) + chosen
    ensures page != [] && page[|page| - 1].total == t
  {
    page := PageWith(below, n, t, chosen);
    FullPage(below, page, n, page[|page| - 1].total);
    CutUnique(below, n, t, page[|page| - 1].total);
  }

  lemma DropsUser(rows: set<Row>, q: Pass, t: int)
    requires q.bound == t && !(Users(AtTotal(rows, t)) <= q.scores.Keys)
    ensures !NothingSkipped(rows, q.scores, q.bound)
  {
    var u :| u in Users(AtTotal(rows, t)) && u !in q.scores.Keys;
    var r :| r in AtTotal(rows, t) && User(r) == u;
    assert r in rows && r.total >= q.bound;
  }

  lemma SkipInside(rows: set<Row>, limit: int, run: seq<Pass>, q: Pass, full: seq<Pass>)
    requires run != [] && Finishes(rows, limit, run + [q], full) && q.need > 0
    requires !NothingSkipped(rows, q.scores, q.bound)
    ensures !NeverSkips(rows, full)
  {
    FinishesLater(rows, limit, run, q, full);
    assert End(run + [q]) == q;
    assert !NothingSkipped(rows, full[|run|].scores, full[|run|].bound);
  }

  lemma MissingAtUnsafe(rows: set<Row>, p: Pass, limit: nat) returns (t: int)
    requires Tracks(rows, p, limit) && !SafeFrom(rows, p.bound, limit)
    ensures |p.scores| + p.need == limit && p.need < |Below(rows, p.bound)| && IsCut(Below(rows, p.bound), p.need, t)
    ensures t < p.bound && |Below(rows, t)| < |Below(rows, p.bound)|
    ensures !TieSafe(rows, p.bound, p.need, t, limit) || !SafeFrom(rows, t, limit)
  {
    KeysCount(p.scores);
    t := CutTotal(Below(rows, p.bound), p.need);
    CutShrinks(rows, p.bound, p.need, t);
  }

  /** Where the unsafe cut comes later, users are still missing. */
  lemma StillMissing(rows: set<Row>, bound: int, n: nat, t: int, chosen: set<Row>, q: Pass, limit: nat)
    requires !SafeFrom(rows, t, limit) && t < bound && CanChoose(rows, Below(rows, bound), n, t, chosen)
    requires q.scores.Keys == Kept(rows, t, chosen) && |q.scores| + q.need == limit
    ensures q.need > 0
  {
    MetBelow(rows, bound, t);
    KeysCount(q.scores);
    assert Users(chosen) <= Users(AtTotal(rows, t));
    SubsetCount(Kept(rows, t, chosen), Met(rows, t));
  }

  lemma {:induction false} UnsafeRun(rows: set<Row>, limit: nat, run: seq<Pass>) returns (full: seq<Pass>)
    requires run != [] && IsRunSoFar(rows, limit, run)
    requires Tracks(rows, End(run), limit) && !SafeFrom(rows, End(run).bound, limit)
    ensures IsRun(rows, limit, full) && !NeverSkips(rows, full)
    decreases |Below(rows, End(run).bound)|
  {
    var p := End(run);
    RunCollects(rows, limit, run);
    var t := MissingAtUnsafe(rows, p, limit);
    if TieSafe(rows, p.bound, p.need, t, limit) {
      MetBelow(rows, p.bound, t);
      var chosen := SomeSubset(AtTotal(rows, t), p.need - |Over(Below(rows, p.bound), t)|);
      var q := ChosenRound(rows, p, limit, t, chosen);
      StillMissing(rows, p.bound, p.need, t, chosen, q, limit);
      KeptTracks(rows, p.bound, p.need, t, chosen, q, limit);
      RunGrows(rows, limit, run, q);
      assert End(run + [q]) == q;
      full := UnsafeRun(rows, limit, run + [q]);
    } else {
      var chosen :| CanChoose(rows, Below(rows, p.bound), p.need, t, chosen) &&
                    |Kept(rows, t, chosen)| < limit && !(Users(AtTotal(rows, t)) <= Kept(rows, t, chosen));
      var q := ChosenRound(rows, p, limit, t, chosen);
      KeysCount(q.scores);
      DropsUser(rows, q, t);
      RunGrows(rows, limit, run, q);
      full := Finish(rows, limit, run + [q]);
      SkipInside(rows, limit, run, q, full);
    }
  }

  lemma UnsafeFails(rows: set<Row>, limit: int) returns (run: seq<Pass>)
    requires !Safe(rows, limit)
    ensures IsRun(rows, limit, run) && !NeverSkips(rows, run)
  {
    var start := [Pass(map[], MAX_SIZE, limit, [])];
    if forall r | r in rows :: r.total < MAX_SIZE {
      FirstPass(rows, limit);
      run := UnsafeRun(rows, limit, start);
    } else {
      run := Finish(rows, limit, start);
      var r :| r in rows && r.total >= MAX_SIZE;
      assert run[..1][0] == run[0];
      assert !NothingSkipped(rows, run[0].scores, run[0].bound);
    }
  }

  lemma NothingToDo(rows: set<Row>, limit: int, run: seq<Pass>)
    requires limit <= 0 && IsRun(rows, limit, run)
    ensures NeverSkips(rows, run)
  {
    if |run| > 1 {
      RoundNeed(rows, limit, run, 0);
      FirstOfRun(rows, limit, run);
    }
  }

  lemma {:induction false} FirstOfRun(rows: set<Row>, limit: int, run: seq<Pass>)
    requires run != [] && IsRunSoFar(rows, limit, run)
    ensures run[0] == Pass(map[], MAX_SIZE, limit, [])
  {
    if |run| > 1 {
      FirstOfRun(rows, limit, Front(run));
    }
  }

  /** Distinct totals are safe for every limit. */
  lemma RegularIsSafe(rows: set<Row>, limit: int)
    requires Regular(rows)
    ensures Safe(rows, limit)
  {
    forall run | IsRun(rows, limit, run)
      ensures IsBoard(rows, End(run).scores, limit)
    {
      RegularNeverSkips(rows, limit, run);
      BoardExact(rows, limit, run);
    }
    RightExact(rows, limit);
  }

  /** The loop returns the right board in every run, whatever order tied rows come in, if and only if the rows
      and the limit are safe. */
  lemma RightExact(rows: set<Row>, limit: int)
    ensures Safe(rows, limit) <==> forall run | IsRun(rows, limit, run) :: IsBoard(rows, End(run).scores, limit)
  {
    if Safe(rows, limit) {
      forall run | IsRun(rows, limit, run)
        ensures IsBoard(rows, End(run).scores, limit)
      {
        if limit > 0 {
          SafeRun(rows, limit, run);
        } else {
          NothingToDo(rows, limit, run);
        }
        BoardExact(rows, limit, run);
      }
    } else {
      var run := UnsafeFails(rows, limit);
      BoardExact(rows, limit, run);
    }
  }
}
