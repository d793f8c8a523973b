/**
 The paging loop of the beatmap leaderboard (app/database/score.py, get_leaderboard): pages of rows,
 deduplicated per user until enough users are found.

 `rows` is the set of rows that pass the leaderboard's filters.  A page is ordered by total score with no
 tie-break, and the next page starts strictly below the last total: tied rows at a page boundary are
 skipped.  The loop is right exactly when no skipped row belongs to a user who is not on the board yet.
 */
module Paging {
  import opened Common
  import opened Scores
  import opened Ledger

  /** sys.maxsize, the bound of the first page. */
  const MAX_SIZE: int := 0x7FFF_FFFF_FFFF_FFFF

  function User(r: Row): UserId {
    r.account.user
  }

  function Users(rows: set<Row>): set<UserId> {
    set r | r in rows :: User(r)
  }

  function Below(rows: set<Row>, maxScore: int): set<Row> {
    set r | r in rows && r.total < maxScore
  }

  /** What "order by total score descending limit n" may return. */
  ghost predicate IsPage(rows: set<Row>, page: seq<Row>, limit: nat) {
    && (forall i, j | 0 <= i < j < |page| :: page[i] != page[j] && page[i].total >= page[j].total)
    && (forall r | r in page :: r in rows)
    && |page| == (if |rows| < limit then |rows| else limit)
    && (forall r, x | r in rows && r !in page && x in page :: r.total <= x.total)
  }

  /** r is the best row of its user. */
  ghost predicate IsUserBest(rows: set<Row>, r: Row) {
    r in rows && forall q | q in rows && User(q) == User(r) :: q.total <= r.total
  }

  /** The board holds the n best users, or all of them, each with an own best row. */
  ghost predicate IsBoard(rows: set<Row>, scores: map<UserId, Row>, n: int) {
    && (forall u | u in scores :: User(scores[u]) == u && IsUserBest(rows, scores[u]))
    && |scores| == (if |Users(rows)| < n then |Users(rows)| else if n < 0 then 0 else n)
    && (forall r, u | r in rows && User(r) !in scores && u in scores :: r.total <= scores[u].total)
  }

  /** No row at or above the bound belongs to a user who is not on the board. */
  ghost predicate NothingSkipped(rows: set<Row>, scores: map<UserId, Row>, maxScore: int) {
    forall r | r in rows && r.total >= maxScore :: User(r) in scores
  }

  ghost predicate DistinctTotals(rows: set<Row>) {
    forall r, q | r in rows && q in rows && r.total == q.total :: r == q
  }

  ghost predicate PageSoFar(rows: set<Row>, page: seq<Row>, rest: set<Row>) {
    && rest == rows - Elements(page)
    && (forall i, j | 0 <= i < j < |page| :: page[i] != page[j] && page[i].total >= page[j].total)
    && (forall r | r in page :: r in rows)
    && (forall r, x | r in rest && x in page :: r.total <= x.total)
  }

  lemma PageGrows(rows: set<Row>, page: seq<Row>, rest: set<Row>, b: Row)
    requires PageSoFar(rows, page, rest) && b in rest && forall x | x in rest :: x.total <= b.total
    ensures PageSoFar(rows, page + [b], rest - {b})
  {
    assert forall x :: x in page + [b] <==> x in page || x == b;
  }

  /** Evaluate one page query. */
  method QueryPage(rows: set<Row>, limit: nat) returns (page: seq<Row>)
    ensures IsPage(rows, page, limit)
  {
    page := [];
    var rest := rows;
    while rest != {} && |page| < limit
      invariant |rest| + |page| == |rows| && |page| <= limit && PageSoFar(rows, page, rest)
      decreases |rest|
    {
      FirstExists(rest);
      var b :| b in rest && forall x | x in rest :: x.total <= b.total;
      PageGrows(rows, page, rest, b);
      page := page + [b];
      rest := rest - {b};
    }
  }

  // ----- One page.

  /** The dictionary after one row: a new user enters, a known one only moves up. */
  function Entered(scores: map<UserId, Row>, r: Row): map<UserId, Row> {
    if User(r) !in scores || r.total > scores[User(r)].total then scores[User(r) := r] else scores
  }

  /** The dictionary after the first i rows of a page. */
  function Collect(scores: map<UserId, Row>, page: seq<Row>, i: nat): map<UserId, Row>
    requires i <= |page|
  {
    if i == 0 then scores else Entered(Collect(scores, page, i - 1), page[i - 1])
  }

  /** The bound after the first i rows of a page. */
  function Lowest(maxScore: int, page: seq<Row>, i: nat): int
    requires i <= |page|
  {
    if i == 0 then maxScore
    else
      var b := Lowest(maxScore, page, i - 1);
      if b > page[i - 1].total then page[i - 1].total else b
  }

  /** Take a page: each row of a user met before is one more row needed. */
  method TakePage(scores: map<UserId, Row>, page: seq<Row>, maxScore: int)
    returns (next: map<UserId, Row>, extraNeed: nat, bound: int)
    ensures next == Collect(scores, page, |page|) && bound == Lowest(maxScore, page, |page|)
    ensures |next| + extraNeed == |scores| + |page|
  {
    next, extraNeed, bound := scores, 0, maxScore;
    for i := 0 to |page|
      invariant next == Collect(scores, page, i) && bound == Lowest(maxScore, page, i)
      invariant |next| + extraNeed == |scores| + i
    {
      var s := page[i];
      if User(s) in next {
        extraNeed := extraNeed + 1;
        if s.total > next[User(s)].total {
          next := next[User(s) := s];
        }
      } else {
        next := next[User(s) := s];
      }
      if bound > s.total {
        bound := s.total;
      }
    }
  }

  /** No row of the page beats r among the rows of its user. */
  ghost predicate LeadsPage(page: seq<Row>, r: Row) {
    forall q | q in page && User(q) == User(r) :: q.total <= r.total
  }

  lemma NewUserLeads(page: seq<Row>, i: nat, seen: map<UserId, Row>)
    requires i < |page| && User(page[i]) !in seen
    requires forall j, k | 0 <= j < k < |page| :: page[j].total >= page[k].total
    requires forall j | 0 <= j < i :: User(page[j]) in seen
    ensures LeadsPage(page, page[i])
  {
  }

  /** What the dictionary after the first i rows of a sorted page holds: every new user with the best row of
      the page. */
  ghost predicate Taken(scores: map<UserId, Row>, page: seq<Row>, i: nat, next: map<UserId, Row>) {
    && i <= |page|
    && scores.Keys <= next.Keys && (forall u | u in scores :: next[u] == scores[u])
    && (forall u | u in next && u !in scores :: next[u] in page && User(next[u]) == u && LeadsPage(page, next[u]))
    && (forall j | 0 <= j < i :: User(page[j]) in next)
    && (forall u, j | u in next && i <= j < |page| :: page[j].total <= next[u].total)
  }

  lemma TakeNew(scores: map<UserId, Row>, page: seq<Row>, i: nat, n: nat, before: map<UserId, Row>)
    requires n == i + 1 <= |page| && forall j, k | 0 <= j < k < |page| :: page[j].total >= page[k].total
    requires Taken(scores, page, i, before) && User(page[i]) !in before
    ensures Taken(scores, page, n, before[User(page[i]) := page[i]])
  {
    NewUserLeads(page, i, before);
    var next := before[User(page[i]) := page[i]];
    forall u | u in next && u !in scores
      ensures next[u] in page && User(next[u]) == u && LeadsPage(page, next[u])
    {
      if u != User(page[i]) {
        assert next[u] == before[u];
      }
    }
    forall u, j | u in next && i + 1 <= j < |page|
      ensures page[j].total <= next[u].total
    {
      if u != User(page[i]) {
        assert next[u] == before[u];
      }
    }
  }

  lemma TakeKnown(scores: map<UserId, Row>, page: seq<Row>, i: nat, n: nat, before: map<UserId, Row>)
    requires n == i + 1 <= |page| && Taken(scores, page, i, before) && User(page[i]) in before
    ensures page[i].total <= before[User(page[i])].total
    ensures Taken(scores, page, n, before)
  {
  }

  ghost predicate SortedPage(page: seq<Row>, maxScore: int) {
    && (forall j, k | 0 <= j < k < |page| :: page[j].total >= page[k].total)
    && (forall j | 0 <= j < |page| :: page[j].total < maxScore)
  }

  ghost predicate AllFrom(scores: map<UserId, Row>, maxScore: int) {
    forall u | u in scores :: maxScore <= scores[u].total
  }

  lemma TakenNothing(scores: map<UserId, Row>, page: seq<Row>, maxScore: int)
    requires SortedPage(page, maxScore) && AllFrom(scores, maxScore)
    ensures Taken(scores, page, 0, scores)
  {
  }

  lemma {:induction false} CollectTakes(scores: map<UserId, Row>, page: seq<Row>, maxScore: int, i: nat)
    requires SortedPage(page, maxScore) && i <= |page|
    requires AllFrom(scores, maxScore)
    ensures Taken(scores, page, i, Collect(scores, page, i))
  {
    if i == 0 {
      TakenNothing(scores, page, maxScore);
    } else {
      CollectTakes(scores, page, maxScore, i - 1);
      CollectTakesNext(scores, page, maxScore, i - 1, i);
    }
  }

  lemma CollectTakesNext(scores: map<UserId, Row>, page: seq<Row>, maxScore: int, i: nat, n: nat)
    requires n == i + 1 <= |page| && SortedPage(page, maxScore) && Taken(scores, page, i, Collect(scores, page, i))
    ensures Taken(scores, page, n, Collect(scores, page, n))
  {
    TakeNext(scores, page, maxScore, i, n, Collect(scores, page, i), Collect(scores, page, n));
  }

  lemma TakeNext(scores: map<UserId, Row>, page: seq<Row>, maxScore: int, i: nat, n: nat, before: map<UserId, Row>,
                 next: map<UserId, Row>)
    requires n == i + 1 <= |page| && SortedPage(page, maxScore)
    requires Taken(scores, page, i, before) && next == Entered(before, page[i])
    ensures Taken(scores, page, n, next)
  {
    if User(page[i]) in before {
      TakeKnown(scores, page, i, n, before);
      assert next == before;
    } else {
      TakeNew(scores, page, i, n, before);
      assert next == before[User(page[i]) := page[i]];
    }
  }

  lemma {:induction false} LowestIsLast(maxScore: int, page: seq<Row>, i: nat)
    requires SortedPage(page, maxScore) && i <= |page|
    ensures Lowest(maxScore, page, i) == if i == 0 then maxScore else page[i - 1].total
  {
    if i > 0 {
      LowestIsLast(maxScore, page, i - 1);
    }
  }

  // ----- Whole runs of the loop.

  /** What the loop carries into a round: the users collected, the bound on totals, how many are missing, and
      the page that led there. */
  datatype Pass = Pass(scores: map<UserId, Row>, bound: int, need: int, page: seq<Row>)

  ghost predicate PassStep(rows: set<Row>, p: Pass, q: Pass) {
    && p.need > 0 && q.need >= 0
    && IsPage(Below(rows, p.bound), q.page, p.need)
    && q.scores == Collect(p.scores, q.page, |q.page|) && q.bound == Lowest(p.bound, q.page, |q.page|)
    && |q.scores| + q.need == |p.scores| + |q.page|
  }

  function Front(run: seq<Pass>): seq<Pass>
    requires run != []
  {
    run[..|run| - 1]
  }

  function End(run: seq<Pass>): Pass
    requires run != []
  {
    run[|run| - 1]
  }

  /** The rounds so far. */
  ghost predicate IsRunSoFar(rows: set<Row>, limit: int, run: seq<Pass>) {
    if |run| <= 1 then run == [Pass(map[], MAX_SIZE, limit, [])]
    else IsRunSoFar(rows, limit, Front(run)) && PassStep(rows, End(Front(run)), End(run))
  }

  /** The rounds of a run that ends. */
  ghost predicate IsRun(rows: set<Row>, limit: int, run: seq<Pass>) {
    run != [] && IsRunSoFar(rows, limit, run) && End(run).need <= 0
  }

  /** What holds before every page, whatever was skipped. */
  ghost predicate Collected(rows: set<Row>, scores: map<UserId, Row>, maxScore: int) {
    forall u | u in scores :: scores[u] in rows && User(scores[u]) == u && scores[u].total >= maxScore
  }

  /** What holds as long as nothing was skipped: the board so far is right, and either it has its full
      share or nobody is left. */
  ghost predicate OnTrack(rows: set<Row>, p: Pass, n: nat) {
    && (forall u | u in p.scores :: IsUserBest(rows, p.scores[u]))
    && (forall r, u | r in rows && User(r) !in p.scores && u in p.scores :: r.total <= p.scores[u].total)
    && (|p.scores| + p.need == n || forall r | r in rows :: User(r) in p.scores)
  }

  /** A skipped row of an absent user: from then on the board cannot become right. */
  ghost predicate Derailed(rows: set<Row>, p: Pass, lost: Row, early: set<UserId>, n: nat) {
    && lost in rows && p.bound <= lost.total
    && User(lost) !in early && early <= p.scores.Keys && |early| < n
    && forall u | u in p.scores && u !in early :: p.scores[u].total < lost.total
  }

  lemma KeysAreUsers(rows: set<Row>, scores: map<UserId, Row>, maxScore: int)
    requires Collected(rows, scores, maxScore)
    ensures scores.Keys <= Users(rows) && |scores| <= |Users(rows)|
  {
    forall u | u in scores
      ensures u in Users(rows)
    {
      assert User(scores[u]) in Users(rows);
    }
    SubsetCount(scores.Keys, Users(rows));
  }

  lemma OnTrackEnds(rows: set<Row>, p: Pass, n: nat)
    requires Collected(rows, p.scores, p.bound) && OnTrack(rows, p, n) && p.need == 0 && |p.scores| <= n
    ensures IsBoard(rows, p.scores, n)
  {
    KeysAreUsers(rows, p.scores, p.bound);
    if |p.scores| != n {
      assert Users(rows) == p.scores.Keys by {
        forall u | u in Users(rows)
          ensures u in p.scores
        {
          var r :| r in rows && User(r) == u;
        }
      }
    }
  }

  lemma MissingUser(rows: set<Row>, scores: map<UserId, Row>, maxScore: int, lost: Row)
    requires Collected(rows, scores, maxScore) && lost in rows && User(lost) !in scores
    ensures |scores| < |Users(rows)|
  {
    KeysAreUsers(rows, scores, maxScore);
    assert User(lost) in Users(rows);
    SubsetCount(scores.Keys + {User(lost)}, Users(rows));
  }

  lemma DerailedEnds(rows: set<Row>, p: Pass, lost: Row, early: set<UserId>, n: nat)
    requires Collected(rows, p.scores, p.bound) && Derailed(rows, p, lost, early, n)
    ensures !IsBoard(rows, p.scores, n)
  {
    if p.scores.Keys == early {
      MissingUser(rows, p.scores, p.bound, lost);
    } else {
      var u := ProperSubset(early, p.scores.Keys);
      assert User(lost) in p.scores ==> p.scores[User(lost)].total < lost.total;
      assert p.scores[u].total < lost.total;
    }
  }

  lemma PageElements(rows: set<Row>, maxScore: int, page: seq<Row>)
    requires forall r | r in page :: r in Below(rows, maxScore)
    requires |Elements(page)| == |Below(rows, maxScore)|
    ensures Below(rows, maxScore) == Elements(page)
  {
    var rest := Below(rows, maxScore) - Elements(page);
    assert Below(rows, maxScore) == Elements(page) + rest;
    assert |rest| == 0;
  }

  lemma BoundFalls(rows: set<Row>, maxScore: int, page: seq<Row>, need: nat, bound: int)
    requires IsPage(Below(rows, maxScore), page, need)
    requires bound == if page == [] then maxScore else page[|page| - 1].total
    ensures bound <= maxScore
    ensures page != [] ==> |Below(rows, bound)| < |Below(rows, maxScore)|
  {
    if page != [] {
      var last := page[|page| - 1];
      assert last in page;
      SubsetCount(Below(rows, bound) + {last}, Below(rows, maxScore));
    }
  }

  lemma EmptyPageEnds(scores: map<UserId, Row>, next: map<UserId, Row>, extraNeed: nat)
    requires scores.Keys <= next.Keys && |next| + extraNeed == |scores|
    ensures extraNeed == 0
  {
    SubsetCount(scores.Keys, next.Keys);
  }

  // ----- One round.

  /** What a round does, in terms of the page: all new users enter with their best row, and the bound falls to
      the last total. */
  ghost predicate RoundFacts(rows: set<Row>, p: Pass, q: Pass) {
    && p.need > 0 && q.need >= 0
    && IsPage(Below(rows, p.bound), q.page, p.need)
    && Taken(p.scores, q.page, |q.page|, q.scores)
    && |q.scores| + q.need == |p.scores| + |q.page|
    && q.bound == if q.page == [] then p.bound else q.page[|q.page| - 1].total
  }

  lemma PageIsSorted(rows: set<Row>, maxScore: int, page: seq<Row>, limit: nat)
    requires IsPage(Below(rows, maxScore), page, limit)
    ensures SortedPage(page, maxScore)
  {
    forall i | 0 <= i < |page|
      ensures page[i].total < maxScore
    {
      assert page[i] in page;
    }
  }

  lemma PassMeans(rows: set<Row>, p: Pass, q: Pass)
    requires PassStep(rows, p, q) && Collected(rows, p.scores, p.bound)
    ensures RoundFacts(rows, p, q)
  {
    PageIsSorted(rows, p.bound, q.page, p.need);
    PageTaken(rows, p.scores, p.bound, q.page);
    LowestIsLast(p.bound, q.page, |q.page|);
  }

  lemma PageTaken(rows: set<Row>, scores: map<UserId, Row>, maxScore: int, page: seq<Row>)
    requires Collected(rows, scores, maxScore) && SortedPage(page, maxScore)
    ensures Taken(scores, page, |page|, Collect(scores, page, |page|))
  {
    assert AllFrom(scores, maxScore);
    CollectTakes(scores, page, maxScore, |page|);
  }

  lemma LastIsLeast(page: seq<Row>, r: Row)
    requires r in page && forall i, j | 0 <= i < j < |page| :: page[i].total >= page[j].total
    ensures page[|page| - 1].total <= r.total
  {
    var i :| 0 <= i < |page| && page[i] == r;
  }

  /** The rows of a page lie between the new bound and the old one. */
  lemma PageBetween(rows: set<Row>, p: Pass, q: Pass, r: Row)
    requires RoundFacts(rows, p, q) && r in q.page
    ensures r in rows && q.bound <= r.total < p.bound
  {
    assert r in Below(rows, p.bound);
    LastIsLeast(q.page, r);
  }

  lemma PassCollects(rows: set<Row>, p: Pass, q: Pass)
    requires RoundFacts(rows, p, q) && Collected(rows, p.scores, p.bound)
    ensures Collected(rows, q.scores, q.bound) && q.bound <= p.bound
  {
    BoundFalls(rows, p.bound, q.page, p.need, q.bound);
    forall u | u in q.scores && u !in p.scores
      ensures q.scores[u] in rows && User(q.scores[u]) == u && q.scores[u].total >= q.bound
    {
      PageBetween(rows, p, q, q.scores[u]);
    }
  }

  lemma TrackStep(rows: set<Row>, p: Pass, q: Pass, n: nat)
    requires RoundFacts(rows, p, q) && OnTrack(rows, p, n) && NothingSkipped(rows, p.scores, p.bound)
    ensures OnTrack(rows, q, n)
  {
    forall u | u in q.scores && u !in p.scores
      ensures IsUserBest(rows, q.scores[u])
    {
      forall r | r in rows && User(r) == u
        ensures r.total <= q.scores[u].total
      {
        assert r in Below(rows, p.bound);
      }
    }
    forall r, u | r in rows && User(r) !in q.scores && u in q.scores
      ensures r.total <= q.scores[u].total
    {
      assert r in Below(rows, p.bound) && r !in q.page;
    }
    if |q.page| < p.need {
      LastPage(rows, p, q);
    }
  }

  /** A page that is not full holds all that is left. */
  lemma LastPage(rows: set<Row>, p: Pass, q: Pass)
    requires RoundFacts(rows, p, q) && NothingSkipped(rows, p.scores, p.bound) && |q.page| < p.need
    ensures forall r | r in rows :: User(r) in q.scores
  {
    assert Below(rows, p.bound) == Elements(q.page) by {
      DistinctCount(q.page);
      PageElements(rows, p.bound, q.page);
    }
    forall r | r in rows
      ensures User(r) in q.scores
    {
      assert r.total < p.bound ==> r in Elements(q.page);
    }
  }

  lemma DerailedStays(rows: set<Row>, p: Pass, q: Pass, lost: Row, early: set<UserId>, n: nat)
    requires RoundFacts(rows, p, q) && q.bound <= p.bound && Derailed(rows, p, lost, early, n)
    ensures Derailed(rows, q, lost, early, n)
  {
    forall u | u in q.scores && u !in p.scores
      ensures q.scores[u].total < p.bound
    {
      assert q.scores[u] in q.page;
    }
  }

  ghost predicate Regular(rows: set<Row>) {
    DistinctTotals(rows) && forall r | r in rows :: r.total < MAX_SIZE
  }

  /** With distinct totals the rows at or above the new bound are all old or on the page. */
  lemma DistinctNeverSkips(rows: set<Row>, p: Pass, q: Pass)
    requires RoundFacts(rows, p, q) && DistinctTotals(rows) && NothingSkipped(rows, p.scores, p.bound)
    ensures NothingSkipped(rows, q.scores, q.bound)
  {
    if q.page != [] {
      var last := q.page[|q.page| - 1];
      assert last in q.page;
      forall r | r in Below(rows, p.bound) && r.total >= q.bound
        ensures r in q.page
      {
        assert r in q.page || r.total <= last.total;
      }
    }
  }

  // ----- All rounds.

  lemma {:induction false} RunCollects(rows: set<Row>, limit: int, run: seq<Pass>)
    requires run != [] && IsRunSoFar(rows, limit, run)
    ensures Collected(rows, End(run).scores, End(run).bound)
  {
    if |run| > 1 {
      RunCollects(rows, limit, Front(run));
      PassMeans(rows, End(Front(run)), End(run));
      PassCollects(rows, End(Front(run)), End(run));
    }
  }

  /** No round starts with a skipped row of a user who is not collected. */
  ghost predicate NeverSkips(rows: set<Row>, run: seq<Pass>) {
    forall k | 0 <= k < |run| - 1 :: NothingSkipped(rows, run[k].scores, run[k].bound)
  }

  lemma NeverSkipsBefore(rows: set<Row>, run: seq<Pass>)
    requires |run| > 1
    ensures NeverSkips(rows, run) <==>
      NeverSkips(rows, Front(run)) && NothingSkipped(rows, End(Front(run)).scores, End(Front(run)).bound)
  {
    var front := Front(run);
    assert forall k | 0 <= k < |front| :: front[k] == run[k];
  }

  lemma {:induction false} RunOnTrack(rows: set<Row>, limit: nat, run: seq<Pass>)
    requires run != [] && IsRunSoFar(rows, limit, run) && NeverSkips(rows, run)
    ensures OnTrack(rows, End(run), limit)
  {
    if |run| > 1 {
      NeverSkipsBefore(rows, run);
      RunOnTrack(rows, limit, Front(run));
      RunCollects(rows, limit, Front(run));
      PassMeans(rows, End(Front(run)), End(run));
      TrackStep(rows, End(Front(run)), End(run), limit);
    }
  }

  /** Once a row of an absent user is skipped, it stays lost. */
  lemma {:induction false} RunDerails(rows: set<Row>, limit: nat, run: seq<Pass>, j: nat, lost: Row, early: set<UserId>)
    requires run != [] && IsRunSoFar(rows, limit, run) && j < |run|
    requires Derailed(rows, run[j], lost, early, limit)
    ensures Derailed(rows, End(run), lost, early, limit)
  {
    if j < |run| - 1 {
      RunDerails(rows, limit, Front(run), j, lost, early);
      RunCollects(rows, limit, Front(run));
      PassMeans(rows, End(Front(run)), End(run));
      PassCollects(rows, End(Front(run)), End(run));
      DerailedStays(rows, End(Front(run)), End(run), lost, early, limit);
    }
  }

  lemma DerailsHere(rows: set<Row>, limit: nat, p: Pass, lost: Row)
    requires lost in rows && lost.total >= p.bound && User(lost) !in p.scores
    requires |p.scores| + p.need <= limit && p.need > 0
    ensures Derailed(rows, p, lost, p.scores.Keys, limit)
  {
  }

  lemma FrontAt(run: seq<Pass>, k: nat)
    requires k < |run| - 1
    ensures Front(run)[k] == run[k]
  {
  }

  /** No round has more than its share. */
  lemma {:induction false} RoundShare(rows: set<Row>, limit: int, run: seq<Pass>, k: nat)
    requires run != [] && IsRunSoFar(rows, limit, run) && k < |run|
    ensures |run[k].scores| + run[k].need <= limit
  {
    if k == |run| - 1 {
      EndShare(rows, limit, run);
    } else {
      RoundShare(rows, limit, Front(run), k);
      FrontAt(run, k);
    }
  }

  lemma {:induction false} EndShare(rows: set<Row>, limit: int, run: seq<Pass>)
    requires run != [] && IsRunSoFar(rows, limit, run)
    ensures |End(run).scores| + End(run).need <= limit
  {
    if |run| > 1 {
      EndShare(rows, limit, Front(run));
      ShareFalls(rows, End(Front(run)), End(run));
    }
  }

  lemma ShareFalls(rows: set<Row>, p: Pass, q: Pass)
    requires PassStep(rows, p, q)
    ensures |q.scores| + q.need <= |p.scores| + p.need
  {
  }

  /** Only the last round has nobody missing. */
  lemma {:induction false} RoundNeed(rows: set<Row>, limit: int, run: seq<Pass>, k: nat)
    requires run != [] && IsRunSoFar(rows, limit, run) && k < |run| - 1
    ensures run[k].need > 0
  {
    if k == |run| - 2 {
      NeedOfStep(rows, limit, run);
    } else {
      RoundNeed(rows, limit, Front(run), k);
      FrontAt(run, k);
    }
  }

  lemma NeedOfStep(rows: set<Row>, limit: int, run: seq<Pass>)
    requires |run| > 1 && IsRunSoFar(rows, limit, run)
    ensures run[|run| - 2].need > 0
  {
  }

  /** In every run the board is right if and only if no page boundary skipped a row of an absent user. */
  lemma BoardExact(rows: set<Row>, limit: int, run: seq<Pass>)
    requires IsRun(rows, limit, run)
    ensures IsBoard(rows, End(run).scores, limit) <==> NeverSkips(rows, run)
  {
    if |run| > 1 {
      RoundShare(rows, limit, run, 0);
      RoundNeed(rows, limit, run, 0);
      RunCollects(rows, limit, run);
      EndShare(rows, limit, run);
      if NeverSkips(rows, run) {
        RunOnTrack(rows, limit, run);
        OnTrackEnds(rows, End(run), limit);
      } else {
        var j :| 0 <= j < |run| - 1 && !NothingSkipped(rows, run[j].scores, run[j].bound);
        SkipLoses(rows, limit, run, j);
      }
    }
  }

  lemma SkipLoses(rows: set<Row>, limit: nat, run: seq<Pass>, j: nat)
    requires run != [] && IsRunSoFar(rows, limit, run) && j < |run| - 1
    requires !NothingSkipped(rows, run[j].scores, run[j].bound)
    ensures !IsBoard(rows, End(run).scores, limit)
  {
    var lost :| lost in rows && lost.total >= run[j].bound && User(lost) !in run[j].scores;
    RoundShare(rows, limit, run, j);
    RoundNeed(rows, limit, run, j);
    DerailsHere(rows, limit, run[j], lost);
    RunDerails(rows, limit, run, j, lost, run[j].scores.Keys);
    RunCollects(rows, limit, run);
    DerailedEnds(rows, End(run), lost, run[j].scores.Keys, limit);
  }

  /** With distinct totals no run skips anybody. */
  lemma {:induction false} RegularNeverSkips(rows: set<Row>, limit: int, run: seq<Pass>)
    requires run != [] && IsRunSoFar(rows, limit, run) && Regular(rows)
    ensures NeverSkips(rows, run) && NothingSkipped(rows, End(run).scores, End(run).bound)
  {
    if |run| > 1 {
      RegularNeverSkips(rows, limit, Front(run));
      NeverSkipsBefore(rows, run);
      RunCollects(rows, limit, Front(run));
      PassMeans(rows, End(Front(run)), End(run));
      DistinctNeverSkips(rows, End(Front(run)), End(run));
    }
  }

  // ----- A skip.

  /** Two rows of user 1, and a row of user 2 that ties with the second of them. */
  ghost predicate Tied(a: Row, b: Row, c: Row) {
    User(a) == User(b) == UserId(1) && User(c) == UserId(2) && a.total == 100 && b.total == 90 && c.total == 90
  }

  /** The two rows of user 1 may fill a page of two; then user 2 is skipped for good. */
  lemma TieSkipsUser(a: Row, b: Row, c: Row)
    requires Tied(a, b, c)
    ensures
      var board := map[UserId(1) := a];
      && IsRun({a, b, c}, 2, [Pass(map[], MAX_SIZE, 2, []), Pass(board, 90, 1, [a, b]), Pass(board, 90, 0, [])])
      && !IsBoard({a, b, c}, board, 2)
  {
    TiedPage(a, b, c);
    TiedEnd(a, b, c);
    TiedUsers(a, b, c);
    var board := map[UserId(1) := a];
    RunOfTwo({a, b, c}, 2, Pass(map[], MAX_SIZE, 2, []), Pass(board, 90, 1, [a, b]), Pass(board, 90, 0, []));
  }

  lemma RunOfTwo(rows: set<Row>, limit: int, p: Pass, q: Pass, r: Pass)
    requires p == Pass(map[], MAX_SIZE, limit, []) && PassStep(rows, p, q) && PassStep(rows, q, r) && r.need <= 0
    ensures IsRun(rows, limit, [p, q, r])
  {
    RunGrows(rows, limit, [p], q);
    assert [p] + [q] == [p, q] && [p, q] + [r] == [p, q, r];
    RunGrows(rows, limit, [p, q], r);
  }

  lemma TiedPage(a: Row, b: Row, c: Row)
    requires Tied(a, b, c)
    ensures PassStep({a, b, c}, Pass(map[], MAX_SIZE, 2, []), Pass(map[UserId(1) := a], 90, 1, [a, b]))
  {
    var page := [a, b];
    FirstTwo(a, b, c);
    assert page[0] == a && page[1] == b;
    assert Collect(map[], page, 1) == map[UserId(1) := a];
    assert Lowest(MAX_SIZE, page, 0) == MAX_SIZE && Lowest(MAX_SIZE, page, 1) == 100;
  }

  lemma FirstTwo(a: Row, b: Row, c: Row)
    requires Tied(a, b, c)
    ensures IsPage(Below({a, b, c}, MAX_SIZE), [a, b], 2)
  {
    assert Below({a, b, c}, MAX_SIZE) == {a, b, c};
    assert |{a, b, c}| == 3 by {
      assert {a, b, c} == {a} + {b} + {c};
    }
  }

  lemma TiedEnd(a: Row, b: Row, c: Row)
    requires Tied(a, b, c)
    ensures PassStep({a, b, c}, Pass(map[UserId(1) := a], 90, 1, [a, b]), Pass(map[UserId(1) := a], 90, 0, []))
  {
    assert Below({a, b, c}, 90) == {};
  }

  lemma TiedUsers(a: Row, b: Row, c: Row)
    requires Tied(a, b, c)
    ensures !IsBoard({a, b, c}, map[UserId(1) := a], 2)
  {
    var rows := {a, b, c};
    assert Users(rows) == {UserId(1), UserId(2)} by {
      assert UserId(1) in Users(rows) && UserId(2) in Users(rows);
    }
  }

  // ----- The loop.

  /** Query a page and take it. */
  method Round(rows: set<Row>, scores: map<UserId, Row>, maxScore: int, need: nat, ghost before: seq<Row>)
    returns (next: map<UserId, Row>, extraNeed: nat, bound: int, ghost page: seq<Row>)
    requires Collected(rows, scores, maxScore) && need > 0
    ensures PassStep(rows, Pass(scores, maxScore, need, before), Pass(next, bound, extraNeed, page))
    ensures Collected(rows, next, bound)
    ensures |Below(rows, bound)| < |Below(rows, maxScore)| || (bound == maxScore && extraNeed == 0)
  {
    var rowsOfPage := QueryPage(Below(rows, maxScore), need);
    page := rowsOfPage;
    next, extraNeed, bound := TakePage(scores, rowsOfPage, maxScore);
    RoundShrinks(rows, Pass(scores, maxScore, need, before), Pass(next, bound, extraNeed, page));
  }

  /** A round leaves fewer rows below the bound, or it was the last one. */
  lemma RoundShrinks(rows: set<Row>, p: Pass, q: Pass)
    requires PassStep(rows, p, q) && Collected(rows, p.scores, p.bound)
    ensures Collected(rows, q.scores, q.bound)
    ensures |Below(rows, q.bound)| < |Below(rows, p.bound)| || (q.bound == p.bound && q.need == 0)
  {
    PassMeans(rows, p, q);
    PassCollects(rows, p, q);
    FewerBelow(rows, p, q, p.need);
  }

  lemma FewerBelow(rows: set<Row>, p: Pass, q: Pass, limit: nat)
    requires IsPage(Below(rows, p.bound), q.page, limit)
    requires q.bound == if q.page == [] then p.bound else q.page[|q.page| - 1].total
    requires p.scores.Keys <= q.scores.Keys && q.need >= 0 && |q.scores| + q.need == |p.scores| + |q.page|
    ensures |Below(rows, q.bound)| < |Below(rows, p.bound)| || (q.bound == p.bound && q.need == 0)
  {
    if q.page == [] {
      EmptyPageEnds(p.scores, q.scores, q.need);
    } else {
      BoundFalls(rows, p.bound, q.page, limit, q.bound);
    }
  }

  /** The loop.  It ends because every page that is not empty shrinks the rows below the bound. */
  method CollectScores(rows: set<Row>, limit: int) returns (scores: map<UserId, Row>, ghost run: seq<Pass>)
    ensures IsRun(rows, limit, run) && scores == End(run).scores
    ensures IsBoard(rows, scores, limit) <==> NeverSkips(rows, run)
    ensures Regular(rows) ==> IsBoard(rows, scores, limit)
  {
    scores := map[];
    var maxScore, need := MAX_SIZE, limit;
    run := [Pass(scores, maxScore, need, [])];
    while need > 0
      invariant Collected(rows, scores, maxScore)
      invariant run != [] && IsRunSoFar(rows, limit, run) && OnPass(End(run), scores, maxScore, need)
      decreases |Below(rows, maxScore)|, need
    {
      var next, extraNeed, bound, page := Round(rows, scores, maxScore, need, End(run).page);
      RunGrows(rows, limit, run, Pass(next, bound, extraNeed, page));
      run := run + [Pass(next, bound, extraNeed, page)];
      scores, need, maxScore := next, extraNeed, bound;
    }
    BoardExact(rows, limit, run);
    if Regular(rows) {
      RegularNeverSkips(rows, limit, run);
    }
  }

  ghost predicate OnPass(p: Pass, scores: map<UserId, Row>, bound: int, need: int) {
    p.scores == scores && p.bound == bound && p.need == need
  }

  lemma RunGrows(rows: set<Row>, limit: int, run: seq<Pass>, q: Pass)
    requires run != [] && IsRunSoFar(rows, limit, run) && PassStep(rows, End(run), q)
    ensures IsRunSoFar(rows, limit, run + [q])
  {
    assert Front(run + [q]) == run && End(run + [q]) == q;
  }

  /** With every total in range, the first page brings a row of maximal total, and it stays. */
  lemma {:induction false} TopCollected(rows: set<Row>, limit: int, run: seq<Pass>)
    requires rows != {} && |run| > 1 && IsRunSoFar(rows, limit, run)
    requires forall r | r in rows :: r.total < MAX_SIZE
    ensures exists u :: u in End(run).scores && forall r | r in rows :: r.total <= End(run).scores[u].total
  {
    var p, q := End(Front(run)), End(run);
    RunCollects(rows, limit, Front(run));
    PassMeans(rows, p, q);
    if |run| == 2 {
      assert Below(rows, MAX_SIZE) == rows;
      var top := q.page[0];
      assert User(top) in q.scores && top.total <= q.scores[User(top)].total;
      forall r | r in rows
        ensures r.total <= top.total
      {
        if r in q.page {
          var j :| 0 <= j < |q.page| && q.page[j] == r;
        } else {
          assert top in q.page;
        }
      }
    } else {
      TopCollected(rows, limit, Front(run));
      var u :| u in p.scores && forall r | r in rows :: r.total <= p.scores[u].total;
      assert q.scores[u] == p.scores[u];
    }
  }
}
