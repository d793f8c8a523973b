/**
 The washable jump sections of a beatmap (app/calculators/relax_flow.py, jump_sections).

 The loop carries the rotation sign of the previous jump and closes a run whenever a turn is not washable.
 The reference asks of each turn on its own whether it is washable, and takes the maximal runs of such turns.
 */
module JumpSections {
  import opened Sums

  const JUMP_SPACING_MIN := 90.0
  const SECTION_FLOW_MIN := 0.45
  const MIN_SECTION_OBJS := 5
  const VELOCITY_CAP := 5.0

  datatype Obj = Obj(t: real, x: real, y: real)

  /** The length of a vector, and the flow of a turn from its cross and dot product. */
  datatype Geometry = Geometry(hypot: (real, real) -> real, flow: (real, real) -> real)

  datatype JumpSection = JumpSection(tStart: real, tEnd: real, weight: real, objects: seq<Obj>)

  function Max(a: real, b: real): real {
    if a >= b then a else b
  }

  function Min(a: real, b: real): real {
    if a <= b then a else b
  }

  // ----- One turn at a time.

  /** A turn has an object before it and one after it. */
  predicate IsTurn(objs: seq<Obj>, i: int) {
    1 <= i < |objs| - 1
  }

  function Spacing(objs: seq<Obj>, g: Geometry, i: nat): real
    requires 1 <= i < |objs|
  {
    g.hypot(objs[i].x - objs[i - 1].x, objs[i].y - objs[i - 1].y)
  }

  predicate Jump(objs: seq<Obj>, g: Geometry, i: int) {
    IsTurn(objs, i) && Spacing(objs, g, i) >= JUMP_SPACING_MIN && Spacing(objs, g, i + 1) >= JUMP_SPACING_MIN
  }

  function Dot(objs: seq<Obj>, i: int): real
    requires IsTurn(objs, i)
  {
    (objs[i].x - objs[i - 1].x) * (objs[i + 1].x - objs[i].x)
      + (objs[i].y - objs[i - 1].y) * (objs[i + 1].y - objs[i].y)
  }

  function Cross(objs: seq<Obj>, i: int): real
    requires IsTurn(objs, i)
  {
    (objs[i].x - objs[i - 1].x) * (objs[i + 1].y - objs[i].y)
      - (objs[i].y - objs[i - 1].y) * (objs[i + 1].x - objs[i].x)
  }

  function Sign(objs: seq<Obj>, i: int): int
    requires IsTurn(objs, i)
  {
    if Cross(objs, i) >= 0.0 then 1 else -1
  }

  function Flow(objs: seq<Obj>, g: Geometry, i: int): real
    requires IsTurn(objs, i)
  {
    g.flow(Cross(objs, i), Dot(objs, i))
  }

  /** A jump that turns gently and, after another jump, in the same direction. */
  predicate Washable(objs: seq<Obj>, g: Geometry, i: int) {
    && Jump(objs, g, i)
    && Flow(objs, g, i) >= SECTION_FLOW_MIN
    && (Jump(objs, g, i - 1) ==> Sign(objs, i - 1) == Sign(objs, i))
  }

  function Velocity(objs: seq<Obj>, g: Geometry, i: int): real
    requires IsTurn(objs, i)
  {
    var before := Spacing(objs, g, i) / Max(objs[i].t - objs[i - 1].t, 1.0);
    var after := Spacing(objs, g, i + 1) / Max(objs[i + 1].t - objs[i].t, 1.0);
    Min(0.5 * (before + after), VELOCITY_CAP)
  }

  function TurnWeight(objs: seq<Obj>, g: Geometry, i: int): real
    requires IsTurn(objs, i)
  {
    Velocity(objs, g, i) * Flow(objs, g, i)
  }

  /** A turn in plain terms: both ways are at least 90 long, it is gentle enough, and it keeps the direction of a
      turn before it that has long ways as well; it weighs its mean speed, at most 5, times its gentleness. */
  lemma TurnMeaning(objs: seq<Obj>, g: Geometry, i: nat)
    requires 1 <= i < |objs| - 1
    ensures
      var a, b, c := objs[i - 1], objs[i], objs[i + 1];
      var la, lb := g.hypot(b.x - a.x, b.y - a.y), g.hypot(c.x - b.x, c.y - b.y);
      var cross := (b.x - a.x) * (c.y - b.y) - (b.y - a.y) * (c.x - b.x);
      var flow := g.flow(cross, (b.x - a.x) * (c.x - b.x) + (b.y - a.y) * (c.y - b.y));
      var dta, dtb := if b.t - a.t >= 1.0 then b.t - a.t else 1.0, if c.t - b.t >= 1.0 then c.t - b.t else 1.0;
      var speed := 0.5 * (la / dta + lb / dtb);
      && (Washable(objs, g, i) <==>
            && la >= 90.0 && lb >= 90.0 && flow >= 0.45
            && (i > 1 ==>
                  var z := objs[i - 2];
                  g.hypot(a.x - z.x, a.y - z.y) >= 90.0 ==>
                    ((a.x - z.x) * (b.y - a.y) - (a.y - z.y) * (b.x - a.x) >= 0.0 <==> cross >= 0.0)))
      && TurnWeight(objs, g, i) == (if speed <= 5.0 then speed else 5.0) * flow
  {
  }

  // ----- The maximal runs.

  /** The turns from lo up to, not including, hi. */
  datatype Run = Run(lo: int, hi: int)

  ghost predicate AllWashable(objs: seq<Obj>, g: Geometry, lo: int, hi: int) {
    forall i | lo <= i < hi :: Washable(objs, g, i)
  }

  /** Washable throughout, not extensible on either side, and long enough to matter. */
  ghost predicate IsMaximal(objs: seq<Obj>, g: Geometry, r: Run) {
    && r.lo + MIN_SECTION_OBJS <= r.hi
    && AllWashable(objs, g, r.lo, r.hi)
    && !Washable(objs, g, r.lo - 1) && !Washable(objs, g, r.hi)
  }

  /** The runs up to a bound are exactly the maximal ones, from left to right. */
  ghost predicate AreRunsBefore(objs: seq<Obj>, g: Geometry, runs: seq<Run>, bound: int) {
    && (forall k | 0 <= k < |runs| :: IsMaximal(objs, g, runs[k]) && runs[k].hi < bound)
    && (forall j, k | 0 <= j < k < |runs| :: runs[j].hi < runs[k].lo)
    && (forall r | IsMaximal(objs, g, r) && r.hi < bound :: r in runs)
  }

  ghost predicate AreRuns(objs: seq<Obj>, g: Geometry, runs: seq<Run>) {
    AreRunsBefore(objs, g, runs, |objs|)
  }

  lemma RunBounds(objs: seq<Obj>, g: Geometry, r: Run)
    requires IsMaximal(objs, g, r)
    ensures 1 <= r.lo && r.hi < |objs|
  {
    assert Washable(objs, g, r.lo) && Washable(objs, g, r.hi - 1);
  }

  /** Two maximal runs are the same or have a gap between them. */
  lemma RunsSeparated(objs: seq<Obj>, g: Geometry, r: Run, s: Run)
    requires IsMaximal(objs, g, r) && IsMaximal(objs, g, s)
    ensures r == s || r.hi < s.lo || s.hi < r.lo
  {
  }

  /** The list of runs is determined by the map. */
  lemma {:induction false} RunsUnique(objs: seq<Obj>, g: Geometry, a: seq<Run>, b: seq<Run>, bound: int)
    requires AreRunsBefore(objs, g, a, bound) && AreRunsBefore(objs, g, b, bound)
    ensures a == b
  {
    if a != [] && b != [] {
      var x := a[|a| - 1];
      SameLastRun(objs, g, a, b, bound);
      WithoutLast(objs, g, a, bound);
      WithoutLast(objs, g, b, bound);
      RunsUnique(objs, g, a[..|a| - 1], b[..|b| - 1], x.lo);
      assert a == a[..|a| - 1] + [x] && b == b[..|b| - 1] + [x];
    } else if a != [] {
      SomeRun(objs, g, a, b, bound);
    } else if b != [] {
      SomeRun(objs, g, b, a, bound);
    }
  }

  lemma SameLastRun(objs: seq<Obj>, g: Geometry, a: seq<Run>, b: seq<Run>, bound: int)
    requires AreRunsBefore(objs, g, a, bound) && AreRunsBefore(objs, g, b, bound) && a != [] && b != []
    ensures a[|a| - 1] == b[|b| - 1]
  {
    LastRun(objs, g, a, bound, b[|b| - 1]);
    LastRun(objs, g, b, bound, a[|a| - 1]);
  }

  lemma SomeRun(objs: seq<Obj>, g: Geometry, a: seq<Run>, b: seq<Run>, bound: int)
    requires AreRunsBefore(objs, g, a, bound) && AreRunsBefore(objs, g, b, bound) && a != []
    ensures b != []
  {
    assert a[0] in b;
  }

  lemma LastRun(objs: seq<Obj>, g: Geometry, a: seq<Run>, bound: int, r: Run)
    requires AreRunsBefore(objs, g, a, bound) && a != [] && IsMaximal(objs, g, r) && r.hi < bound
    ensures r == a[|a| - 1] || r.hi < a[|a| - 1].lo
  {
  }

  lemma WithoutLast(objs: seq<Obj>, g: Geometry, a: seq<Run>, bound: int)
    requires AreRunsBefore(objs, g, a, bound) && a != []
    ensures AreRunsBefore(objs, g, a[..|a| - 1], a[|a| - 1].lo)
  {
  }

  /** The runs depend on the positions alone: playing the map at another rate changes none of them. */
  lemma RunsIgnoreTimes(objs: seq<Obj>, other: seq<Obj>, g: Geometry, runs: seq<Run>)
    requires |objs| == |other| && AreRuns(objs, g, runs)
    requires forall i | 0 <= i < |objs| :: objs[i].x == other[i].x && objs[i].y == other[i].y
    ensures AreRuns(other, g, runs)
  {
    forall i
      ensures Washable(objs, g, i) == Washable(other, g, i)
    {
      SameTurn(objs, other, g, i);
      SameTurn(objs, other, g, i - 1);
    }
    forall r
      ensures IsMaximal(objs, g, r) == IsMaximal(other, g, r)
    {
    }
  }

  lemma SameTurn(objs: seq<Obj>, other: seq<Obj>, g: Geometry, i: int)
    requires |objs| == |other|
    requires forall j | 0 <= j < |objs| :: objs[j].x == other[j].x && objs[j].y == other[j].y
    ensures Jump(objs, g, i) == Jump(other, g, i)
    ensures IsTurn(objs, i) ==> Sign(objs, i) == Sign(other, i) && Flow(objs, g, i) == Flow(other, g, i)
  {
    if IsTurn(objs, i) {
      assert Cross(objs, i) == Cross(other, i) && Dot(objs, i) == Dot(other, i);
    }
  }

  // ----- From runs to sections.

  function WeightSum(objs: seq<Obj>, g: Geometry, lo: int, hi: int): real
    requires 1 <= lo && hi < |objs|
    decreases hi - lo
  {
    if lo >= hi then 0.0 else WeightSum(objs, g, lo, hi - 1) + TurnWeight(objs, g, hi - 1)
  }

  ghost predicate IsSectionOf(objs: seq<Obj>, g: Geometry, s: JumpSection, r: Run) {
    && 1 <= r.lo < r.hi < |objs|
    && s.objects == objs[r.lo..r.hi]
    && s.tStart == objs[r.lo].t && s.tEnd == objs[r.hi - 1].t
    && s.weight == WeightSum(objs, g, r.lo, r.hi)
  }

  ghost predicate AreSectionsOf(objs: seq<Obj>, g: Geometry, sections: seq<JumpSection>, runs: seq<Run>) {
    |sections| == |runs| && forall k | 0 <= k < |runs| :: IsSectionOf(objs, g, sections[k], runs[k])
  }

  /** The sections of a map: one for each maximal run of at least five washable turns, in order. */
  ghost predicate AreJumpSections(objs: seq<Obj>, g: Geometry, sections: seq<JumpSection>) {
    exists runs :: AreRuns(objs, g, runs) && AreSectionsOf(objs, g, sections, runs)
  }

  /** They are determined by the map. */
  lemma SectionsUnique(objs: seq<Obj>, g: Geometry, a: seq<JumpSection>, b: seq<JumpSection>)
    requires AreJumpSections(objs, g, a) && AreJumpSections(objs, g, b)
    ensures a == b
  {
    var x :| AreRuns(objs, g, x) && AreSectionsOf(objs, g, a, x);
    var y :| AreRuns(objs, g, y) && AreSectionsOf(objs, g, b, y);
    RunsUnique(objs, g, x, y, |objs|);
    SectionsFromRuns(objs, g, a, b, x);
  }

  lemma SectionsFromRuns(objs: seq<Obj>, g: Geometry, a: seq<JumpSection>, b: seq<JumpSection>, runs: seq<Run>)
    requires AreSectionsOf(objs, g, a, runs) && AreSectionsOf(objs, g, b, runs)
    ensures a == b
  {
    forall k | 0 <= k < |a|
      ensures a[k] == b[k]
    {
      assert IsSectionOf(objs, g, a[k], runs[k]) && IsSectionOf(objs, g, b[k], runs[k]);
    }
  }

  // ----- The loop.

  function SumOf(run: seq<(int, real)>): real {
    if run == [] then 0.0 else SumOf(run[..|run| - 1]) + run[|run| - 1].1
  }

  /** The open run holds the turns from `start` up to `i`. */
  ghost predicate Open(objs: seq<Obj>, g: Geometry, run: seq<(int, real)>, start: int, i: int) {
    && 1 <= start && i == start + |run| && i < |objs|
    && AllWashable(objs, g, start, i) && !Washable(objs, g, start - 1)
    && (forall k | 0 <= k < |run| :: run[k].0 == start + k)
    && SumOf(run) == WeightSum(objs, g, start, i)
  }

  /** The sign carried by the loop is that of the previous turn if it was a jump. */
  ghost predicate Carries(objs: seq<Obj>, g: Geometry, prevSign: int, i: int) {
    prevSign == if Jump(objs, g, i - 1) then Sign(objs, i - 1) else 0
  }

  /** Closes a run: it becomes a section if it is long enough. */
  method Flush(objs: seq<Obj>, g: Geometry, run: seq<(int, real)>, sections: seq<JumpSection>,
               ghost start: int, ghost i: int, ghost runs: seq<Run>)
    returns (more: seq<JumpSection>, ghost moreRuns: seq<Run>)
    requires Open(objs, g, run, start, i) && !Washable(objs, g, i)
    requires AreRunsBefore(objs, g, runs, start) && AreSectionsOf(objs, g, sections, runs)
    ensures AreRunsBefore(objs, g, moreRuns, i + 1) && AreSectionsOf(objs, g, more, moreRuns)
  {
    more, moreRuns := sections, runs;
    if |run| >= MIN_SECTION_OBJS {
      var pts := [];
      var k := 0;
      while k < |run|
        invariant 0 <= k <= |run| && pts == objs[start..start + k]
      {
        pts := pts + [objs[run[k].0]];
        k := k + 1;
      }
      var section := JumpSection(pts[0].t, pts[|pts| - 1].t, SumOf(run), pts);
      assert IsSectionOf(objs, g, section, Run(start, i));
      more, moreRuns := sections + [section], runs + [Run(start, i)];
    }
    Closed(objs, g, run, start, i, runs);
  }

  /** The maximal runs that end at or before a turn that is not washable. */
  lemma Closed(objs: seq<Obj>, g: Geometry, run: seq<(int, real)>, start: int, i: int, runs: seq<Run>)
    requires Open(objs, g, run, start, i) && !Washable(objs, g, i) && AreRunsBefore(objs, g, runs, start)
    ensures AreRunsBefore(objs, g, if |run| >= MIN_SECTION_OBJS then runs + [Run(start, i)] else runs, i + 1)
  {
    OnlyLateRun(objs, g, run, start, i);
    if |run| >= MIN_SECTION_OBJS {
      OneMore(objs, g, runs, Run(start, i));
    }
  }

  lemma OneMore(objs: seq<Obj>, g: Geometry, runs: seq<Run>, last: Run)
    requires AreRunsBefore(objs, g, runs, last.lo) && IsMaximal(objs, g, last)
    requires forall r | IsMaximal(objs, g, r) && last.lo <= r.hi < last.hi + 1 :: r == last
    ensures AreRunsBefore(objs, g, runs + [last], last.hi + 1)
  {
  }

  /** What a flush closes is the only maximal run that ends there, if it is long enough to be one. */
  lemma OnlyLateRun(objs: seq<Obj>, g: Geometry, run: seq<(int, real)>, start: int, i: int)
    requires Open(objs, g, run, start, i) && !Washable(objs, g, i)
    ensures forall r | IsMaximal(objs, g, r) && start <= r.hi < i + 1 :: r == Run(start, i) && |run| >= MIN_SECTION_OBJS
  {
  }

  /** Every section stands for a maximal run of such turns. */
  lemma SectionHasRun(objs: seq<Obj>, g: Geometry, sections: seq<JumpSection>, k: nat) returns (r: Run)
    requires AreJumpSections(objs, g, sections) && k < |sections|
    ensures IsMaximal(objs, g, r) && IsSectionOf(objs, g, sections[k], r)
  {
    var runs :| AreRuns(objs, g, runs) && AreSectionsOf(objs, g, sections, runs);
    r := runs[k];
  }

  /** It lists the objects in the middle of these turns, at least five, and the times of the first and the last. */
  lemma SectionMeaning(objs: seq<Obj>, g: Geometry, s: JumpSection, r: Run)
    requires IsSectionOf(objs, g, s, r) && IsMaximal(objs, g, r)
    ensures 1 <= r.lo && r.lo + 5 <= r.hi < |objs| && s.objects == objs[r.lo..r.hi]
    ensures s.tStart == objs[r.lo].t && s.tEnd == objs[r.hi - 1].t
  {
  }

  /** It weighs the sum of its turns. */
  lemma {:induction false} WeightIsTotal(objs: seq<Obj>, g: Geometry, lo: nat, hi: nat, weights: seq<real>)
    requires 1 <= lo <= hi < |objs| && |weights| == hi - lo
    requires forall j | 0 <= j < hi - lo :: weights[j] == TurnWeight(objs, g, lo + j)
    ensures WeightSum(objs, g, lo, hi) == Total(weights)
    decreases hi - lo
  {
    if lo < hi {
      WeightIsTotal(objs, g, lo, hi - 1, weights[..hi - lo - 1]);
    }
  }

  lemma RunHasSection(objs: seq<Obj>, g: Geometry, sections: seq<JumpSection>, r: Run) returns (k: nat)
    requires AreJumpSections(objs, g, sections) && IsMaximal(objs, g, r) && r.hi < |objs|
    ensures k < |sections| && IsSectionOf(objs, g, sections[k], r)
  {
    var runs :| AreRuns(objs, g, runs) && AreSectionsOf(objs, g, sections, runs);
    k :| 0 <= k < |runs| && runs[k] == r;
  }

  /** And every run of at least five such turns that cannot be extended has a section. */
  lemma EveryRunHasSection(objs: seq<Obj>, g: Geometry, sections: seq<JumpSection>, r: Run) returns (k: nat)
    requires AreJumpSections(objs, g, sections) && 1 <= r.lo && r.lo + 5 <= r.hi < |objs|
    requires AllWashable(objs, g, r.lo, r.hi) && !Washable(objs, g, r.lo - 1) && !Washable(objs, g, r.hi)
    ensures k < |sections| && IsSectionOf(objs, g, sections[k], r)
  {
    k := RunHasSection(objs, g, sections, r);
  }

  /** The state of the loop before turn i: the sections so far, the open run and the carried sign. */
  datatype Loop = Loop(sections: seq<JumpSection>, run: seq<(int, real)>, prevSign: int)

  ghost predicate LoopOk(objs: seq<Obj>, g: Geometry, loop: Loop, runs: seq<Run>, start: int, i: int) {
    && Open(objs, g, loop.run, start, i) && Carries(objs, g, loop.prevSign, i)
    && AreRunsBefore(objs, g, runs, start) && AreSectionsOf(objs, g, loop.sections, runs)
  }

  /** The map's jump sections. */
  method FindJumpSections(objs: seq<Obj>, g: Geometry) returns (sections: seq<JumpSection>)
    ensures AreJumpSections(objs, g, sections)
  {
    if |objs| < MIN_SECTION_OBJS {
      ShortMap(objs, g);
      sections := [];
      assert AreSectionsOf(objs, g, sections, []);
      return;
    }
    var loop := Loop([], [], 0);
    ghost var start := 1;
    ghost var runs: seq<Run> := [];
    NothingBefore(objs, g);
    for i := 1 to |objs| - 1
      invariant LoopOk(objs, g, loop, runs, start, i)
    {
      loop, runs, start := Turn(objs, g, loop, i, runs, start);
    }
    sections, runs := Flush(objs, g, loop.run, loop.sections, start, |objs| - 1, runs);
    assert AreRuns(objs, g, runs);
  }

  /** One iteration. */
  method Turn(objs: seq<Obj>, g: Geometry, loop: Loop, i: int, ghost runs: seq<Run>, ghost start: int)
    returns (next: Loop, ghost moreRuns: seq<Run>, ghost nextStart: int)
    requires IsTurn(objs, i) && LoopOk(objs, g, loop, runs, start, i)
    ensures LoopOk(objs, g, next, moreRuns, nextStart, i + 1)
  {
    var sign, washable, weight := Judge(objs, g, i, loop.prevSign);
    if washable {
      Extended(objs, g, loop.run, start, i, weight);
      next := Loop(loop.sections, loop.run + [(i, weight)], sign);
      moreRuns, nextStart := runs, start;
    } else {
      var sections;
      sections, moreRuns := Flush(objs, g, loop.run, loop.sections, start, i, runs);
      Reopened(objs, g, i);
      next, nextStart := Loop(sections, [], sign), i + 1;
    }
  }

  /** The sign to carry on from a turn, whether it is washable, and what it then weighs. */
  method Judge(objs: seq<Obj>, g: Geometry, i: int, prevSign: int) returns (sign: int, washable: bool, weight: real)
    requires IsTurn(objs, i) && Carries(objs, g, prevSign, i)
    ensures Carries(objs, g, sign, i + 1)
    ensures washable == Washable(objs, g, i)
    ensures washable ==> weight == TurnWeight(objs, g, i)
  {
    var a, b, c := objs[i - 1], objs[i], objs[i + 1];
    var ax, ay, bx, by' := b.x - a.x, b.y - a.y, c.x - b.x, c.y - b.y;
    var la, lb := g.hypot(ax, ay), g.hypot(bx, by');
    var isJump := la >= JUMP_SPACING_MIN && lb >= JUMP_SPACING_MIN;
    assert isJump == Jump(objs, g, i);
    if !isJump {
      return 0, false, 0.0;
    }
    var dot := ax * bx + ay * by';
    var cross := ax * by' - ay * bx;
    assert cross == Cross(objs, i) && dot == Dot(objs, i);
    var flow := g.flow(cross, dot);
    sign := if cross >= 0.0 then 1 else -1;
    var flips := prevSign != 0 && sign != prevSign;
    washable := flow >= SECTION_FLOW_MIN && !flips;
    weight := 0.0;
    if washable {
      weight := Weigh(objs, g, i, la, lb, flow);
    }
  }

  method Weigh(objs: seq<Obj>, g: Geometry, i: int, la: real, lb: real, flow: real) returns (weight: real)
    requires IsTurn(objs, i) && la == Spacing(objs, g, i) && lb == Spacing(objs, g, i + 1) && flow == Flow(objs, g, i)
    ensures weight == TurnWeight(objs, g, i)
  {
    var a, b, c := objs[i - 1], objs[i], objs[i + 1];
    var dta, dtb := Max(b.t - a.t, 1.0), Max(c.t - b.t, 1.0);
    var vel := Min(0.5 * (la / dta + lb / dtb), VELOCITY_CAP);
    weight := vel * flow;
  }

  lemma Reopened(objs: seq<Obj>, g: Geometry, i: int)
    requires IsTurn(objs, i) && !Washable(objs, g, i)
    ensures Open(objs, g, [], i + 1, i + 1)
  {
  }

  lemma Extended(objs: seq<Obj>, g: Geometry, run: seq<(int, real)>, start: int, i: int, w: real)
    requires Open(objs, g, run, start, i) && Washable(objs, g, i) && w == TurnWeight(objs, g, i)
    ensures Open(objs, g, run + [(i, w)], start, i + 1)
  {
  }

  lemma NothingBefore(objs: seq<Obj>, g: Geometry)
    ensures AreRunsBefore(objs, g, [], 1)
  {
    AllRunBounds(objs, g);
  }

  lemma AllRunBounds(objs: seq<Obj>, g: Geometry)
    ensures forall r | IsMaximal(objs, g, r) :: 1 + MIN_SECTION_OBJS <= r.hi < |objs|
  {
    forall r | IsMaximal(objs, g, r)
      ensures 1 + MIN_SECTION_OBJS <= r.hi < |objs|
    {
      RunBounds(objs, g, r);
    }
  }

  lemma ShortMap(objs: seq<Obj>, g: Geometry)
    requires |objs| < MIN_SECTION_OBJS
    ensures AreRuns(objs, g, [])
  {
    AllRunBounds(objs, g);
  }
}
