/**
 The live table of best scores and the account pp (app/database/score.py, _process_score_pp and
 calculate_user_pp).
 */
module BestScores {
  import opened Common
  import opened Sums
  import opened Scores
  import opened Ranking
  import opened WeightedPp
  import opened FirstBest

  datatype BestInfo = BestInfo(account: Account, beatmap: int, acc: real)

  /** One row of best_scores: the score id, its pp, and the rest. */
  type BestRow = Entry<BestInfo>

  /** A submission as the pp pipeline sees it.  `calculated` is the calculator's answer, if it answers. */
  datatype PpPlay = PpPlay(
    id: int,
    account: Account,
    beatmap: int,
    passed: bool,
    modsOk: bool,
    relaxOrAutopilot: bool,
    vanillaFlashlight: bool,
    accuracy: real,
    calculated: Option<real>)

  /** The accuracy floor of relax and autopilot. */
  predicate AboveFloor(p: PpPlay) {
    !(p.relaxOrAutopilot && p.accuracy < 0.75)
  }

  /** The play reaches the best-score comparison. */
  predicate Admitted(cfg: Config, p: PpPlay) {
    p.vanillaFlashlight && p.passed && cfg.PpMap(p.beatmap) && p.modsOk && AboveFloor(p) && p.calculated.Some?
  }

  /** The pp stored with the score: 0 unless the play is admitted. */
  function StoredPp(cfg: Config, p: PpPlay): real {
    if Admitted(cfg, p) then p.calculated.value else 0.0
  }

  function BestRowOf(cfg: Config, p: PpPlay): BestRow {
    Entry(p.id, StoredPp(cfg, p), BestInfo(p.account, p.beatmap, p.accuracy))
  }

  predicate SameMap(p: PpPlay, q: PpPlay) {
    p.account == q.account && p.beatmap == q.beatmap
  }

  ghost predicate UniquePlayIds(h: seq<PpPlay>) {
    forall i, j | 0 <= i < j < |h| :: h[i].id != h[j].id
  }

  function OnMap(rows: set<BestRow>, a: Account, m: int): set<BestRow> {
    set r | r in rows && r.data.account == a && r.data.beatmap == m
  }

  function Own(rows: set<BestRow>, a: Account): set<BestRow> {
    set r | r in rows && r.data.account == a
  }

  function Positive(rows: set<BestRow>): set<BestRow> {
    set r | r in rows && r.pp > 0.0
  }

  datatype MapKey = MapKey(account: Account, beatmap: int)

  function KeyOf(r: BestRow): MapKey {
    MapKey(r.data.account, r.data.beatmap)
  }

  /** The highest pp per account and map, of the admitted plays. */
  function PpRule(cfg: Config): Rule<PpPlay, MapKey, BestRow> {
    Rule((p: PpPlay) => Admitted(cfg, p), (p: PpPlay) => BestRowOf(cfg, p),
         (r: BestRow) => KeyOf(r), (r: BestRow) => r.pp)
  }

  /** The table a history must lead to: one row per account and map, the personal best. */
  ghost function PersonalBests(cfg: Config, h: seq<PpPlay>): set<BestRow> {
    Winners(PpRule(cfg), h)
  }

  /** Every admitted play has a personal best on its map that is at least as good. */
  lemma PersonalBestExists(cfg: Config, h: seq<PpPlay>, k: nat) returns (i: nat)
    requires k < |h| && Admitted(cfg, h[k])
    ensures i < |h| && Admitted(cfg, h[i]) && BestRowOf(cfg, h[i]) in PersonalBests(cfg, h)
    ensures SameMap(h[i], h[k]) && StoredPp(cfg, h[k]) <= StoredPp(cfg, h[i])
  {
    i := WinnerExists(PpRule(cfg), h, k);
  }

  lemma PersonalBestPlay(cfg: Config, h: seq<PpPlay>, r: BestRow) returns (i: nat)
    requires r in PersonalBests(cfg, h)
    ensures i < |h| && Admitted(cfg, h[i]) && BestRowOf(cfg, h[i]) == r
  {
    i := WinningPlay(PpRule(cfg), h, r);
  }

  lemma PersonalBestUnique(cfg: Config, h: seq<PpPlay>, r: BestRow, q: BestRow)
    requires r in PersonalBests(cfg, h) && q in PersonalBests(cfg, h)
    ensures KeyOf(r) == KeyOf(q) ==> r == q
    ensures UniquePlayIds(h) && r.id == q.id ==> r == q
  {
    if KeyOf(r) == KeyOf(q) {
      RowUnique(PpRule(cfg), h, r, q);
    }
    var i := PersonalBestPlay(cfg, h, r);
    var j := PersonalBestPlay(cfg, h, q);
  }

  lemma PersonalBestIds(cfg: Config, h: seq<PpPlay>)
    requires UniquePlayIds(h)
    ensures DistinctIds(PersonalBests(cfg, h))
  {
    forall r, q | r in PersonalBests(cfg, h) && q in PersonalBests(cfg, h) && r.id == q.id
      ensures r == q
    {
      PersonalBestUnique(cfg, h, r, q);
    }
  }

  /** The table in full: of the plays that pass every gate and get an answer, those first to reach the highest pp
      of their player and map. */
  lemma BestsMeaning(cfg: Config, h: seq<PpPlay>, r: BestRow)
    ensures r in PersonalBests(cfg, h) <==>
      exists i: nat ::
        && i < |h| && Earns(cfg, h[i])
        && r == Entry(h[i].id, h[i].calculated.value, BestInfo(h[i].account, h[i].beatmap, h[i].accuracy))
        && forall j | 0 <= j < |h| && Earns(cfg, h[j]) &&
                      h[j].account == h[i].account && h[j].beatmap == h[i].beatmap ::
             h[j].calculated.value < h[i].calculated.value || (h[j].calculated == h[i].calculated && i <= j)
  {
    forall i: nat | i < |h|
      ensures IsWinner(PpRule(cfg), h, i) <==>
        && Earns(cfg, h[i])
        && forall j | 0 <= j < |h| && Earns(cfg, h[j]) &&
                      h[j].account == h[i].account && h[j].beatmap == h[i].beatmap ::
             h[j].calculated.value < h[i].calculated.value || (h[j].calculated == h[i].calculated && i <= j)
    {
      assert forall j | 0 <= j < |h| :: SameKeys(PpRule(cfg), h[j], h[i]) <==> SameMap(h[j], h[i]);
    }
  }

  /** The gates of the server, in plain terms. */
  predicate Earns(cfg: Config, p: PpPlay) {
    && p.passed && p.modsOk && p.vanillaFlashlight && p.calculated.Some?
    && (cfg.allPp || cfg.status(p.beatmap) in {Ranked, Approved})
    && (p.relaxOrAutopilot ==> p.accuracy >= 0.75)
  }

  /** The table after an admitted play, given the row of its map. */
  function BestsAfter(cfg: Config, rows: set<BestRow>, p: PpPlay, previous: Option<BestRow>): set<BestRow> {
    if Admitted(cfg, p) && (previous.None? || StoredPp(cfg, p) > previous.value.pp) then
      rows - (if previous.Some? then {previous.value} else {}) + {BestRowOf(cfg, p)}
    else rows
  }

  /** The look-up of the map's row. */
  ghost predicate IsPrevious(rows: set<BestRow>, p: PpPlay, previous: Option<BestRow>) {
    match previous
    case Some(r) => r in OnMap(rows, p.account, p.beatmap)
    case None => OnMap(rows, p.account, p.beatmap) == {}
  }

  lemma SomePrevious(rows: set<BestRow>, p: PpPlay) returns (previous: Option<BestRow>)
    ensures IsPrevious(rows, p, previous)
  {
    previous := None;
    if r :| r in OnMap(rows, p.account, p.beatmap) {
      previous := Some(r);
    }
  }

  /** Strict-greater replacement keeps the table equal to the personal bests. */
  lemma BestsStep(cfg: Config, h: seq<PpPlay>, p: PpPlay, previous: Option<BestRow>)
    requires IsPrevious(PersonalBests(cfg, h), p, previous)
    ensures BestsAfter(cfg, PersonalBests(cfg, h), p, previous) == PersonalBests(cfg, h + [p])
  {
    PreviousIsHeld(cfg, PersonalBests(cfg, h), p, previous);
    WinnersStep(PpRule(cfg), h, p, previous);
  }

  lemma PreviousIsHeld(cfg: Config, rows: set<BestRow>, p: PpPlay, previous: Option<BestRow>)
    requires IsPrevious(rows, p, previous)
    ensures Holds(PpRule(cfg), rows, p, previous)
  {
    forall r | r in rows && KeyOf(r) == MapKey(p.account, p.beatmap)
      ensures r in OnMap(rows, p.account, p.beatmap)
    {
    }
  }

  // ----- Account pp.

  /** Rows without positive pp never show in the account pp. */
  lemma PositiveRowsSuffice(table: set<BestRow>)
    ensures UserPp(Positive(table)) == UserPp(table)
  {
    var s := TopExists(table, LIMIT);
    var t := TopExists(Positive(table), LIMIT);
    UserPpFromTop(table, s);
    UserPpFromTop(Positive(table), t);
    PositiveTops(table, s, t);
  }

  lemma PositiveTops(table: set<BestRow>, s: seq<BestRow>, t: seq<BestRow>)
    requires IsTop(table, s, LIMIT) && IsTop(Positive(table), t, LIMIT)
    ensures Weighted(Pps(s)) == Weighted(Pps(t))
  {
    SubsetCount(Positive(table), table);
    forall i: nat | i < |s|
      ensures i < |t| ==> Pps(s)[i] == Pps(t)[i]
      ensures i >= |t| ==> Pps(s)[i] <= 0.0
    {
      PositiveTopValue(table, s, t, i);
    }
    assert |Pps(t)| <= |Pps(s)|;
    WeightedIgnoresRest(Pps(s), Pps(t));
  }

  lemma PositiveTopValue(table: set<BestRow>, s: seq<BestRow>, t: seq<BestRow>, i: nat)
    requires IsTop(table, s, LIMIT) && IsTop(Positive(table), t, LIMIT) && i < |s|
    ensures i < |t| ==> s[i].pp == t[i].pp
    ensures i >= |t| ==> s[i].pp <= 0.0
  {
    var v := s[i].pp;
    TopValueByCount(table, s, LIMIT, i, v);
    if i < |t| {
      assert t[i] in t;
      var u := t[i].pp;
      TopValueByCount(Positive(table), t, LIMIT, i, u);
      assert AtLeast(Positive(table), u) == AtLeast(table, u);
      TopValueByCount(table, s, LIMIT, i, u);
      assert AtLeast(Positive(table), v) == AtLeast(table, v);
      TopValueByCount(Positive(table), t, LIMIT, i, v);
    } else if v > 0.0 {
      assert AtLeast(Positive(table), v) == AtLeast(table, v);
      SubsetCount(AtLeast(table, v), Positive(table));
    }
  }

  lemma {:induction false} WeightedIgnoresRest(x: seq<real>, y: seq<real>)
    requires |y| <= |x|
    requires forall i | 0 <= i < |y| :: x[i] == y[i]
    requires forall i | |y| <= i < |x| :: x[i] <= 0.0
    ensures Weighted(x) == Weighted(y)
  {
    if y != [] {
      WeightedIgnoresRest(x[1..], y[1..]);
    } else if x != [] {
      WeightedIgnoresRest(x[1..], []);
    }
  }

  // ----- Accuracy.

  function Accuracies(s: seq<BestRow>): seq<real> {
    seq(|s|, i requires 0 <= i < |s| => s[i].data.acc)
  }

  function Clamp(x: real, lo: real, hi: real): real {
    if x < lo then lo else if x > hi then hi else x
  }

  /** The weighted accuracies, divided by the sum of the weights and scaled to percent. */
  ghost function NormalisedAccuracy(s: seq<BestRow>): real {
    if s == [] then 0.0 else Normalise(Weighted(Accuracies(s)), |s|)
  }

  function Normalise(sum: real, n: nat): real
    requires n > 0
  {
    PpWeightBelowOne(n);
    sum * (100.0 / (20.0 * (1.0 - PpWeight(n))))
  }

  lemma {:induction false} PpWeightBelowOne(n: nat)
    requires n > 0
    ensures 0.0 < PpWeight(n) < 1.0
  {
    if n > 1 {
      PpWeightBelowOne(n - 1);
    }
  }

  lemma ScaledBetween(x: real, n: real, lo: real, hi: real)
    requires 0.0 < n && lo * n <= x <= hi * n
    ensures 100.0 * lo <= x * (100.0 / n) <= 100.0 * hi
  {
  }

  lemma NormalisedBetween(v: seq<real>, lo: real, hi: real)
    requires v != [] && 0.0 <= lo && forall i | 0 <= i < |v| :: lo <= v[i] <= hi
    ensures 100.0 * lo <= Normalise(Weighted(v), |v|) <= 100.0 * hi
  {
    WeightedBetween(v, lo, hi);
    PpWeightBelowOne(|v|);
    ScaledBetween(Weighted(v), 20.0 * (1.0 - PpWeight(|v|)), lo, hi);
  }

  /** The normalised accuracy lies between the smallest and the largest accuracy, so clamping to
      [0, 100] never changes it. */
  lemma AccuracyBetween(s: seq<BestRow>, lo: real, hi: real)
    requires s != [] && 0.0 <= lo && hi <= 1.0
    requires forall r | r in s :: lo <= r.data.acc <= hi
    ensures 100.0 * lo <= NormalisedAccuracy(s) <= 100.0 * hi
    ensures Clamp(NormalisedAccuracy(s), 0.0, 100.0) == NormalisedAccuracy(s)
  {
    var v := Accuracies(s);
    forall i | 0 <= i < |v|
      ensures lo <= v[i] <= hi
    {
      assert s[i] in s;
    }
    NormalisedBetween(v, lo, hi);
    InsideClamp(NormalisedAccuracy(s), lo, hi);
  }

  lemma InsideClamp(x: real, lo: real, hi: real)
    requires 0.0 <= lo && hi <= 1.0 && 100.0 * lo <= x <= 100.0 * hi
    ensures Clamp(x, 0.0, 100.0) == x
  {
  }

  // ----- The loop of calculate_user_pp.

  /** The accuracies of the rows, weighted by 0.95 to the power of their place. */
  ghost predicate AreTerms(bps: seq<BestRow>, terms: seq<real>) {
    |terms| == |bps| && forall i | 0 <= i < |bps| :: terms[i] == Power(0.95, i) * bps[i].data.acc
  }

  /** What the accuracy of a profile is: their sum over the sum of the weights, in percent. */
  ghost predicate IsAccuracy(bps: seq<BestRow>, accuracy: real) {
    if bps == [] then accuracy == 0.0
    else forall terms | AreTerms(bps, terms) :: OverWeights(accuracy, |bps|, Total(terms))
  }

  predicate OverWeights(x: real, n: nat, sum: real) {
    x * ((1.0 - Power(0.95, n)) / (1.0 - 0.95)) == 100.0 * sum
  }

  ghost predicate AreAccuracies(bps: seq<BestRow>) {
    forall r | r in bps :: 0.0 <= r.data.acc <= 1.0
  }

  lemma AccuracySum(bps: seq<BestRow>, terms: seq<real>)
    requires AreAccuracies(bps) && AreTerms(bps, terms)
    ensures Weighted(Accuracies(bps)) == Total(terms)
  {
    forall i | 0 <= i < |bps|
      ensures Accuracies(bps)[i] == Counted(Accuracies(bps)[i])
    {
      assert bps[i] in bps;
    }
    WeightedIsTotal(Accuracies(bps), terms);
  }

  lemma AccuracyFormula(bps: seq<BestRow>)
    requires AreAccuracies(bps)
    ensures IsAccuracy(bps, Clamp(NormalisedAccuracy(bps), 0.0, 100.0))
  {
    if bps != [] {
      AccuracyBetween(bps, 0.0, 1.0);
      WeightsUndone(bps);
      InTerms(bps, NormalisedAccuracy(bps));
    }
  }

  lemma InTerms(bps: seq<BestRow>, accuracy: real)
    requires AreAccuracies(bps) && bps != []
    requires OverWeights(accuracy, |bps|, Weighted(Accuracies(bps)))
    ensures IsAccuracy(bps, accuracy)
  {
    forall terms | AreTerms(bps, terms)
      ensures OverWeights(accuracy, |bps|, Total(terms))
    {
      AccuracySum(bps, terms);
    }
  }

  lemma WeightsUndone(bps: seq<BestRow>)
    requires bps != []
    ensures OverWeights(NormalisedAccuracy(bps), |bps|, Weighted(Accuracies(bps)))
  {
    NormalisedBack(NormalisedAccuracy(bps), Weighted(Accuracies(bps)), |bps|);
  }

  lemma NormalisedBack(x: real, sum: real, n: nat)
    requires n > 0 && x == Normalise(sum, n)
    ensures OverWeights(x, n, sum)
  {
    PowerIsWeight(n);
    PpWeightBelowOne(n);
    Undone(sum, 1.0 - PpWeight(n));
  }

  lemma Undone(x: real, d: real)
    requires 0.0 < d
    ensures x * (100.0 / (20.0 * d)) * (d / (1.0 - 0.95)) == 100.0 * x
  {
    assert 1.0 - 0.95 == 1.0 / 20.0;
    assert d / (1.0 / 20.0) == 20.0 * d;
    assert 100.0 / (20.0 * d) * (20.0 * d) == 100.0;
  }

  lemma SomeTerms(s: seq<BestRow>) returns (v: seq<real>)
    ensures AreTerms(s, v)
  {
    v := seq(|s|, i requires 0 <= i < |s| => Power(0.95, i) * s[i].data.acc);
  }

  /** Of two neighbours, the one placed first weighs more: putting the better accuracy first never lowers the
      result, and raises it if they differ. */
  lemma BetterFirst(s: seq<BestRow>, i: nat, x: real, y: real)
    requires i + 1 < |s| && s[i].data.acc <= s[i + 1].data.acc
    requires IsAccuracy(s, x) && IsAccuracy(s[i := s[i + 1]][i + 1 := s[i]], y)
    ensures x <= y && (s[i].data.acc < s[i + 1].data.acc ==> x < y)
  {
    var t := s[i := s[i + 1]][i + 1 := s[i]];
    var v := SomeTerms(s);
    var w := SomeTerms(t);
    OthersStay(s, t, v, w, i);
    PairWeighs(s, t, v, w, i);
    TwoTerms(v, w, i);
    SumsCompare(x, Total(v), y, Total(w), |s|);
  }

  ghost predicate Exchanged(s: seq<BestRow>, t: seq<BestRow>, i: nat) {
    i + 1 < |s| && t == s[i := s[i + 1]][i + 1 := s[i]]
  }

  lemma OthersStay(s: seq<BestRow>, t: seq<BestRow>, v: seq<real>, w: seq<real>, i: nat)
    requires Exchanged(s, t, i) && AreTerms(s, v) && AreTerms(t, w)
    ensures forall j | 0 <= j < |v| && j != i && j != i + 1 :: v[j] == w[j]
  {
    forall j | 0 <= j < |v| && j != i && j != i + 1
      ensures v[j] == w[j]
    {
      assert s[j] == t[j];
    }
  }

  lemma PairWeighs(s: seq<BestRow>, t: seq<BestRow>, v: seq<real>, w: seq<real>, i: nat)
    requires Exchanged(s, t, i) && AreTerms(s, v) && AreTerms(t, w) && s[i].data.acc <= s[i + 1].data.acc
    ensures v[i] + v[i + 1] <= w[i] + w[i + 1]
    ensures s[i].data.acc < s[i + 1].data.acc ==> v[i] + v[i + 1] < w[i] + w[i + 1]
  {
    var p, q, low, high := Power(0.95, i), Power(0.95, i + 1), s[i].data.acc, s[i + 1].data.acc;
    assert v[i] == p * low && v[i + 1] == q * high && w[i] == p * high && w[i + 1] == q * low;
    WeightFalls(i);
    Heavier(p, q, low, high);
  }

  lemma WeightFalls(i: nat)
    ensures 0.0 < Power(0.95, i) && Power(0.95, i + 1) == 0.95 * Power(0.95, i)
  {
    PowerIsWeight(i);
    PpWeightBounds(i);
  }

  lemma Heavier(p: real, q: real, low: real, high: real)
    requires 0.0 < p && q == 0.95 * p && low <= high
    ensures p * low + q * high <= p * high + q * low
    ensures low < high ==> p * low + q * high < p * high + q * low
  {
    assert p * high + q * low - (p * low + q * high) == 0.05 * (p * (high - low));
    assert low < high ==> p * (high - low) > 0.0;
  }

  lemma TwoTerms(v: seq<real>, w: seq<real>, i: nat)
    requires |v| == |w| && i + 1 < |v| && forall j | 0 <= j < |v| && j != i && j != i + 1 :: v[j] == w[j]
    ensures Total(w) - Total(v) == w[i] + w[i + 1] - v[i] - v[i + 1]
  {
    var u := v[i := w[i]];
    assert w == u[i + 1 := w[i + 1]];
    TotalUpdate(v, i, w[i]);
    TotalUpdate(u, i + 1, w[i + 1]);
  }

  lemma SumsCompare(x: real, xs: real, y: real, ys: real, n: nat)
    requires n > 0 && OverWeights(x, n, xs) && OverWeights(y, n, ys)
    ensures xs <= ys ==> x <= y
    ensures xs < ys ==> x < y
  {
    PowerIsWeight(n);
    PpWeightBelowOne(n);
    Quotients(x, xs, y, ys, (1.0 - Power(0.95, n)) / (1.0 - 0.95));
  }

  lemma Quotients(x: real, xs: real, y: real, ys: real, d: real)
    requires d > 0.0 && x * d == 100.0 * xs && y * d == 100.0 * ys
    ensures xs <= ys ==> x <= y
    ensures xs < ys ==> x < y
  {
    if x > y {
      assert (x - y) * d > 0.0;
    }
  }

  /** The same for pp: rows without any are worth nothing. */
  ghost predicate IsAccountPp(bps: seq<BestRow>, pp: real) {
    pp == Total(seq(|bps|, i requires 0 <= i < |bps| => if bps[i].pp > 0.0 then Power(0.95, i) * bps[i].pp else 0.0))
  }

  lemma PpFormula(bps: seq<BestRow>)
    ensures IsAccountPp(bps, Weighted(Pps(bps)))
  {
    WeightedIsTotal(
      Pps(bps),
      seq(|bps|, i requires 0 <= i < |bps| => if bps[i].pp > 0.0 then Power(0.95, i) * bps[i].pp else 0.0));
  }

  /** bps is any result of the query "this account's rows by pp descending, at most 1000". */
  method CalculateUserPp(table: set<BestRow>, bps: seq<BestRow>) returns (pp: real, accuracy: real)
    requires IsTop(table, bps, LIMIT)
    ensures pp == UserPp(table) && IsAccountPp(bps, pp)
    ensures accuracy == Clamp(NormalisedAccuracy(bps), 0.0, 100.0)
    ensures AreAccuracies(bps) ==> IsAccuracy(bps, accuracy)
  {
    UserPpFromTop(table, bps);
    PpFormula(bps);
    if AreAccuracies(bps) {
      AccuracyFormula(bps);
    }
    var accSum;
    pp, accSum := WeightedSums(bps);
    if |bps| > 0 {
      accSum := Normalise(accSum, |bps|);
    }
    accuracy := Clamp(accSum, 0.0, 100.0);
  }

  method WeightedSums(bps: seq<BestRow>) returns (ppSum: real, accSum: real)
    ensures ppSum == Weighted(Pps(bps)) && accSum == Weighted(Accuracies(bps))
  {
    ppSum, accSum := 0.0, 0.0;
    for i := 0 to |bps|
      invariant ppSum + Discounted(i, Weighted(Pps(bps)[i..])) == Weighted(Pps(bps))
      invariant accSum + Discounted(i, Weighted(Accuracies(bps)[i..])) == Weighted(Accuracies(bps))
    {
      DiscountStep(Pps(bps), i);
      DiscountStep(Accuracies(bps), i);
      ppSum := ppSum + WeightedAt(bps[i].pp, i);
      accSum := accSum + WeightedAt(bps[i].data.acc, i);
    }
    DiscountNothing(|bps|);
  }

  lemma DiscountStep(v: seq<real>, i: nat)
    requires i < |v|
    ensures Discounted(i, Weighted(v[i..])) == WeightedAt(v[i], i) + Discounted(i + 1, Weighted(v[i + 1..]))
  {
    assert v[i..][1..] == v[i + 1..];
    DiscountedSum(i, Counted(v[i]), 0.95 * Weighted(v[i + 1..]));
    WeightedAtIsDiscounted(v[i], i);
    DiscountedOnceMore(i, Weighted(v[i + 1..]));
  }

  lemma {:induction false} DiscountedOnceMore(n: nat, x: real)
    ensures Discounted(n, 0.95 * x) == Discounted(n + 1, x)
  {
    if n > 0 {
      DiscountedOnceMore(n - 1, x);
    }
  }

  lemma {:induction false} DiscountNothing(n: nat)
    ensures Discounted(n, 0.0) == 0.0
  {
    if n > 0 {
      DiscountNothing(n - 1);
    }
  }
}
