/**
 The daily-challenge statistics of a player (app/database/daily_challenge.py), with the nightly closing
 of a challenge (app/tasks/daily_challenge.py, process_daily_challenge_top) as the outside step.

 The reference is the list of day numbers on which the player passed a challenge: the play count is the
 number of distinct days, the weekly streak the chain of consecutive weeks that ends at the last play.
 */
module DailyChallenge {
  import opened Common
  import opened Weeks

  /** A day number and a week number. */
  datatype Day = Day(n: int)
  datatype Week = Week(n: int)

  function WeekOf(d: Day): Week {
    Week(d.n / 7)
  }

  function WeekSet(plays: seq<Day>): set<Week> {
    set d | d in plays :: WeekOf(d)
  }

  /** The number of consecutive weeks of s that end with week w. */
  function Chain(s: set<Week>, w: int): nat
    decreases |s|
  {
    if Week(w) in s then 1 + Chain(s - {Week(w)}, w - 1) else 0
  }

  /** n is the length of the longest chain of consecutive weeks in s. */
  ghost predicate IsLongestChain(s: set<Week>, n: nat) {
    (forall w :: Chain(s, w) <= n) && exists w :: Chain(s, w) == n
  }

  lemma {:induction false} ChainLooksBack(s: set<Week>, t: set<Week>, w: int)
    requires forall v: Week | v.n <= w :: v in s <==> v in t
    ensures Chain(s, w) == Chain(t, w)
    decreases |s|
  {
    if Week(w) in s {
      ChainLooksBack(s - {Week(w)}, t - {Week(w)}, w - 1);
    }
  }

  /** A later week starts a chain of its own or prolongs the one that ends just before it. */
  lemma ChainGrows(s: set<Week>, w: int)
    requires forall v | v in s :: v.n < w
    ensures Chain(s + {Week(w)}, w) == 1 + Chain(s, w - 1)
    ensures forall v | v != w :: Chain(s + {Week(w)}, v) == Chain(s, v)
  {
    assert s + {Week(w)} - {Week(w)} == s;
    forall v | v != w
      ensures Chain(s + {Week(w)}, v) == Chain(s, v)
    {
      if v < w {
        ChainLooksBack(s + {Week(w)}, s, v);
      }
    }
  }

  lemma LongestGrows(s: set<Week>, w: int, n: nat)
    requires IsLongestChain(s, n) && forall v | v in s :: v.n < w
    ensures IsLongestChain(s + {Week(w)}, if 1 + Chain(s, w - 1) > n then 1 + Chain(s, w - 1) else n)
  {
    ChainGrows(s, w);
    var u :| Chain(s, u) == n;
    assert Chain(s, w) == 0;
    assert u != w || n == 0;
    assert Chain(s + {Week(w)}, w) == 1 + Chain(s, w - 1);
    assert u != w ==> Chain(s + {Week(w)}, u) == n;
  }

  lemma LongestAtLeastOne(s: set<Week>, w: int, n: nat)
    requires IsLongestChain(s, n) && Week(w) in s
    ensures n >= 1
  {
    assert Chain(s, w) <= n;
  }

  /** best is the largest value the streak ever had. */
  ghost predicate IsPeak(values: seq<nat>, best: nat) {
    (forall i | 0 <= i < |values| :: values[i] <= best) && exists i :: 0 <= i < |values| && values[i] == best
  }

  lemma PeakGrows(values: seq<nat>, best: nat, v: nat)
    requires IsPeak(values, best)
    ensures IsPeak(values + [v], if v > best then v else best)
  {
    var longer := values + [v];
    var i :| 0 <= i < |values| && values[i] == best;
    assert longer[i] == best && longer[|values|] == v;
  }

  ghost predicate UpTo(plays: seq<Day>, clock: int) {
    && (forall i, j | 0 <= i < j < |plays| :: plays[i].n <= plays[j].n)
    && (plays != [] ==> plays[|plays| - 1].n <= clock)
  }

  function LastDay(plays: seq<Day>): Option<Day> {
    if plays == [] then None else Some(plays[|plays| - 1])
  }

  lemma UpToGrows(plays: seq<Day>, clock: int, today: Day)
    requires UpTo(plays, clock) && clock <= today.n
    ensures UpTo(plays + [today], today.n)
  {
  }

  lemma WeeksGrow(plays: seq<Day>, today: Day)
    ensures WeekSet(plays + [today]) == WeekSet(plays) + {WeekOf(today)}
  {
  }

  lemma WeeksUpTo(plays: seq<Day>, clock: int, v: Week)
    requires UpTo(plays, clock) && v in WeekSet(plays)
    ensures plays != [] && v.n <= WeekOf(plays[|plays| - 1]).n
  {
  }

  // ----- Day by day.

  /** The number of different days. */
  function DaysPlayed(plays: seq<Day>): nat {
    |Elements(plays)|
  }

  lemma DaysGrow(plays: seq<Day>, today: Day)
    ensures DaysPlayed(plays + [today]) == DaysPlayed(plays) + (if today in plays then 0 else 1)
  {
    assert forall x :: x in plays + [today] <==> x in plays || x == today;
    assert Elements(plays + [today]) == Elements(plays) + {today};
    if today in plays {
      assert Elements(plays) + {today} == Elements(plays);
    }
  }

  /** The play count, the daily streak and its record. */
  datatype Daily = Daily(playcount: nat, best: nat, current: nat)

  /** They describe the played days: the streak counts the days first played since its last break, on top
      of what that break left standing. */
  ghost predicate DailyOk(plays: seq<Day>, mark: nat, kept: nat, values: seq<nat>, t: Daily) {
    && t.playcount == DaysPlayed(plays)
    && mark <= |plays| && t.current == kept + DaysPlayed(plays) - DaysPlayed(plays[..mark])
    && IsPeak(values, t.best) && values[|values| - 1] == t.current
    && (plays == [] ==> kept == 0 && t.best == 0)
  }

  /** What a play does to them. */
  function DailyAfter(last: Option<Day>, today: Day, t: Daily): Daily {
    if last.None? then Daily(t.playcount + 1, 1, 1)
    else if last.value == today then t
    else Daily(t.playcount + 1, if t.current + 1 > t.best then t.current + 1 else t.best, t.current + 1)
  }

  /** On a non-decreasing list a day was played before exactly if it is the last one. */
  lemma PlayedBefore(plays: seq<Day>, clock: int, today: Day)
    requires UpTo(plays, clock) && clock <= today.n
    ensures today in plays <==> LastDay(plays) == Some(today)
  {
  }

  lemma DailyCounts(plays: seq<Day>, clock: int, mark: nat, kept: nat, values: seq<nat>, t: Daily, today: Day)
    requires UpTo(plays, clock) && clock <= today.n
    requires DailyOk(plays, mark, kept, values, t)
    ensures
      var u := DailyAfter(LastDay(plays), today, t);
      u.playcount == DaysPlayed(plays + [today]) &&
      u.current == kept + DaysPlayed(plays + [today]) - DaysPlayed(plays[..mark])
  {
    DaysGrow(plays, today);
    PlayedBefore(plays, clock, today);
  }

  lemma DailyStep(plays: seq<Day>, clock: int, mark: nat, kept: nat, values: seq<nat>, t: Daily, today: Day)
    requires UpTo(plays, clock) && clock <= today.n
    requires DailyOk(plays, mark, kept, values, t)
    ensures
      var u := DailyAfter(LastDay(plays), today, t);
      DailyOk(plays + [today], mark, kept, values + [u.current], u)
  {
    DailyCounts(plays, clock, mark, kept, values, t, today);
    assert (plays + [today])[..mark] == plays[..mark];
    PeakGrows(values, t.best, DailyAfter(LastDay(plays), today, t).current);
  }

  // ----- Week by week.

  /** The weekly streak is the chain ending at the last play, or 0 once it has lapsed. */
  ghost predicate WeeklyOk(plays: seq<Day>, clock: int, current: nat, best: nat) {
    && IsLongestChain(WeekSet(plays), best)
    && (match LastDay(plays)
        case None => current == 0
        case Some(last) =>
          (current == Chain(WeekSet(plays), WeekOf(last).n) || (current == 0 && WeekOf(last).n + 1 < clock / 7)))
  }

  /** What a play does to the weekly streak and its record. */
  function WeeklyAfter(last: Option<Day>, today: Day, current: nat, best: nat): (nat, nat) {
    if last.None? then (1, 1)
    else if WeekOf(last.value).n == WeekOf(today).n then (current, best)
    else if WeekOf(last.value).n + 1 == WeekOf(today).n then
      (current + 1, if current + 1 > best then current + 1 else best)
    else (1, best)
  }

  lemma WeeklyStep(plays: seq<Day>, clock: int, today: Day, current: nat, best: nat)
    requires UpTo(plays, clock) && clock <= today.n && WeeklyOk(plays, clock, current, best)
    ensures
      var after := WeeklyAfter(LastDay(plays), today, current, best);
      && WeeklyOk(plays + [today], today.n, after.0, after.1)
      && after.0 == Chain(WeekSet(plays + [today]), WeekOf(today).n)
  {
    var s, w := WeekSet(plays), WeekOf(today).n;
    WeeksGrow(plays, today);
    if plays == [] {
      assert s == {};
      LongestGrows(s, w, best);
      ChainGrows(s, w);
      assert forall v :: Chain(s, v) == 0;
    } else {
      var last := plays[|plays| - 1];
      assert last in plays && WeekOf(last) in s;
      LongestAtLeastOne(s, WeekOf(last).n, best);
      if WeekOf(last).n == w {
        assert s + {Week(w)} == s;
      } else {
        forall v | v in s
          ensures v.n <= WeekOf(last).n < w
        {
          WeeksUpTo(plays, clock, v);
        }
        LongestGrows(s, w, best);
        ChainGrows(s, w);
        assert Week(w - 1) in s <==> WeekOf(last).n == w - 1;
      }
    }
  }

  // ----- Both together.

  /** What has happened so far: the day numbers of the passed plays, in order, and the day of the latest
      event; how many plays came before the last break of the daily streak, and the streak it left standing;
      every value the daily streak ever had. */
  datatype History = History(plays: seq<Day>, clock: int, mark: nat, kept: nat, values: seq<nat>)

  datatype Standing = Standing(daily: Daily, weekly: nat, weeklyBest: nat)

  ghost predicate Tally(h: History, s: Standing) {
    && UpTo(h.plays, h.clock)
    && DailyOk(h.plays, h.mark, h.kept, h.values, s.daily)
    && WeeklyOk(h.plays, h.clock, s.weekly, s.weeklyBest)
  }

  function StandingAfter(last: Option<Day>, today: Day, s: Standing): Standing {
    var w := WeeklyAfter(last, today, s.weekly, s.weeklyBest);
    Standing(DailyAfter(last, today, s.daily), w.0, w.1)
  }

  function Played(h: History, today: Day, streak: nat): History {
    h.(plays := h.plays + [today], clock := today.n, values := h.values + [streak])
  }

  lemma PlayStep(h: History, s: Standing, today: Day)
    requires Tally(h, s) && h.clock <= today.n
    ensures
      var u := StandingAfter(LastDay(h.plays), today, s);
      && Tally(Played(h, today, u.daily.current), u)
      && u.weekly == Chain(set d | d in h.plays + [today] :: Week(d.n / 7), today.n / 7)
      && u.daily.playcount == |set d | d in h.plays + [today]|
      && if today in h.plays then u.daily == s.daily
         else
           && u.daily.current == s.daily.current + 1
           && u.daily.best == if s.daily.best < u.daily.current then u.daily.current else s.daily.best
    ensures LastDay(h.plays).Some? ==> LastDay(h.plays).value.n <= h.clock
    ensures LastDay(h.plays + [today]) == Some(today)
  {
    UpToGrows(h.plays, h.clock, today);
    DailyStep(h.plays, h.clock, h.mark, h.kept, h.values, s.daily, today);
    WeeklyStep(h.plays, h.clock, today, s.weekly, s.weeklyBest);
    assert WeekSet(h.plays + [today]) == set d | d in h.plays + [today] :: Week(d.n / 7);
    assert Elements(h.plays + [today]) == set d | d in h.plays + [today];
    PlayedBefore(h.plays, h.clock, today);
  }

  /** The streak a missed challenge leaves standing. */
  function KeptAfter(last: Option<Day>, roomDay: Day): nat {
    if last.Some? && last.value.n > roomDay.n then 1 else 0
  }

  function WeeklyLapsed(last: Option<Day>, now: int, weekly: nat): nat {
    if last.Some? && WeekOf(last.value).n + 1 < now / 7 then 0 else weekly
  }

  function Closed(h: History, now: int, streak: nat): History {
    h.(clock := now, values := h.values + [streak])
  }

  function Broken(h: History, now: int, streak: nat): History {
    Closed(h, now, streak).(mark := |h.plays|, kept := streak)
  }

  function Raised(best: nat, v: nat): nat {
    if best < v then v else best
  }

  function StandingBroken(last: Option<Day>, roomDay: Day, now: int, s: Standing): Standing {
    var k := KeptAfter(last, roomDay);
    Standing(s.daily.(current := k, best := Raised(s.daily.best, k)),
             if k == 1 then s.weekly else WeeklyLapsed(last, now, s.weekly), s.weeklyBest)
  }

  /** Closing a challenge moves nothing for a participant. */
  lemma CloseStep(h: History, s: Standing, now: int)
    requires Tally(h, s) && h.clock <= now
    ensures Tally(Closed(h, now, s.daily.current), s)
  {
    PeakGrows(h.values, s.daily.best, s.daily.current);
  }

  /** For the others the daily streak starts over. */
  lemma BreakStep(h: History, s: Standing, roomDay: Day, now: int)
    requires Tally(h, s) && h.clock <= now
    ensures
      var after := StandingBroken(LastDay(h.plays), roomDay, now, s);
      Tally(Broken(h, now, after.daily.current), after) && IsBroken(h.plays, roomDay.n, now, s, after)
    ensures LastDay(h.plays).Some? ==> LastDay(h.plays).value.n <= h.clock
  {
    assert h.plays[..|h.plays|] == h.plays;
    PeakGrows(h.values, s.daily.best, KeptAfter(LastDay(h.plays), roomDay));
    BrokenFromPlays(h, s, roomDay, now);
  }

  /** What a missed challenge leaves, by the days played: a daily streak of 1 for who has already played on a later
      day, else of 0; and then the weekly streak is over, unless this week or the last one has a play. */
  ghost predicate IsBroken(plays: seq<Day>, roomDay: int, now: int, before: Standing, after: Standing) {
    && after.daily.playcount == before.daily.playcount == |set d | d in plays|
    && after.weeklyBest == before.weeklyBest
    && after.daily.best == (if before.daily.best < after.daily.current then after.daily.current else before.daily.best)
    && if exists d :: d in plays && d.n > roomDay then
         after.daily.current == 1 && after.weekly == before.weekly
       else
         && after.daily.current == 0
         && (if exists d :: d in plays && (d.n / 7 == now / 7 || d.n / 7 == now / 7 - 1) then
               after.weekly == Chain(set d | d in plays :: Week(d.n / 7), plays[|plays| - 1].n / 7)
             else
               after.weekly == 0)
  }

  lemma BrokenFromPlays(h: History, s: Standing, roomDay: Day, now: int)
    requires Tally(h, s) && h.clock <= now
    ensures IsBroken(h.plays, roomDay.n, now, s, StandingBroken(LastDay(h.plays), roomDay, now, s))
  {
    var plays := h.plays;
    assert Elements(plays) == set d | d in plays;
    assert WeekSet(plays) == set d | d in plays :: Week(d.n / 7);
    if plays != [] {
      var last := plays[|plays| - 1];
      assert last in plays && last.n <= now;
      forall d | d in plays
        ensures d.n <= last.n
      {
        var i :| 0 <= i < |plays| && plays[i] == d;
      }
    }
  }

  /** A chain has at least n weeks exactly if the last n weeks up to w all have a play. */
  lemma {:induction false} ChainMeans(s: set<Week>, w: int, n: nat)
    ensures Chain(s, w) >= n <==> forall v: Week | w - n < v.n <= w :: v in s
    decreases |s|
  {
    if n > 0 && Week(w) in s {
      ChainMeans(s - {Week(w)}, w - 1, n - 1);
      assert forall v: Week | w - n < v.n <= w - 1 :: v in s - {Week(w)} <==> v in s;
      assert forall v: Week | w - n < v.n <= w :: v == Week(w) || v.n <= w - 1;
    }
  }

  // ----- The placements.

  /** The rank of a passed score among all of them. */
  datatype Placement = Placement(rank: nat, field: nat) {
    ghost predicate Valid() {
      1 <= rank <= field
    }

    /** Within the first n tenths of the field, rounded up. */
    predicate Within(n: nat) {
      rank <= (field * n + 9) / 10
    }
  }

  /** The counters of the first tenth and of the first half. */
  datatype Placements = Placements(top10: nat, top50: nat) {
    function Add(p: Placement): Placements {
      Placements(top10 + (if p.Within(1) then 1 else 0), top50 + (if p.Within(5) then 1 else 0))
    }
  }

  /** One more placement: a rank counts for the first tenth or half if fewer than that share stand before it. */
  ghost predicate Counted(before: Placements, p: Placement, after: Placements) {
    && after.top10 == before.top10 + (if 10 * (p.rank - 1) < p.field then 1 else 0)
    && after.top50 == before.top50 + (if 2 * (p.rank - 1) < p.field then 1 else 0)
  }

  /** The winner is always in the first tenth, whose places are in the first half as well. */
  lemma PlacementsNest(p: Placement)
    requires p.Valid()
    ensures p.rank == 1 ==> p.Within(1)
    ensures p.Within(1) ==> p.Within(5)
    ensures forall before: Placements :: Counted(before, p, before.Add(p))
  {
  }

  // ----- The object.

  class DailyChallengeStats {
    var playcount: nat
    var dailyStreakBest: nat
    var dailyStreakCurrent: nat
    var weeklyStreakBest: nat
    var weeklyStreakCurrent: nat
    var lastUpdate: Option<Date>
    var lastDayStreak: Option<Date>
    var lastWeeklyStreak: Option<Date>
    var placements: Placements

    ghost var history: History

    function Stands(): Standing
      reads this
    {
      Standing(Daily(playcount, dailyStreakBest, dailyStreakCurrent), weeklyStreakCurrent, weeklyStreakBest)
    }

    /** The stored dates are those of the last play. */
    ghost predicate Synced()
      reads this
    {
      lastWeeklyStreak == lastDayStreak && IsDay(lastDayStreak, LastDay(history.plays))
    }

    ghost predicate Valid()
      reads this
    {
      && Synced() && Tally(history, Stands()) && placements.top10 <= placements.top50
      && (lastUpdate.Some? ==> IsDay(lastUpdate, Some(Day(history.clock))))
      && (history.plays != [] ==> lastUpdate.Some?)
    }

    constructor (clock: int)
      ensures Valid() && Unplayed(history, Stands()) && history.clock == clock
      ensures placements == Placements(0, 0) && lastUpdate == None
    {
      ghost var h, s := EmptyTally(clock);
      playcount, dailyStreakBest, dailyStreakCurrent, weeklyStreakBest, weeklyStreakCurrent := 0, 0, 0, 0, 0;
      lastUpdate, lastDayStreak, lastWeeklyStreak := None, None, None;
      placements := Placements(0, 0);
      history := h;
      new;
      assert Stands() == s;
    }

    method UpdateDaily(now: Date)
      requires now.Valid() && (lastDayStreak.Some? ==> lastDayStreak.value.Valid())
      modifies `playcount, `dailyStreakBest, `dailyStreakCurrent
      ensures Daily(playcount, dailyStreakBest, dailyStreakCurrent) ==
        DailyAfter(DayNumber(lastDayStreak), NumberOf(now), old(Daily(playcount, dailyStreakBest, dailyStreakCurrent)))
    {
      playcount := playcount + 1;
      if lastDayStreak.None? {
        dailyStreakBest := 1;
        dailyStreakCurrent := 1;
      } else if lastDayStreak.value == now {
        playcount := playcount - 1;
      } else {
        if lastDayStreak.value.Ordinal() == now.Ordinal() {
          OrdinalInjective(lastDayStreak.value, now);
        }
        dailyStreakCurrent := dailyStreakCurrent + 1;
        if dailyStreakCurrent > dailyStreakBest {
          dailyStreakBest := dailyStreakCurrent;
        }
      }
    }

    method UpdateWeekly(now: Date)
      requires now.Valid()
      requires lastWeeklyStreak.Some? ==>
        lastWeeklyStreak.value.Valid() && lastWeeklyStreak.value.Ordinal() <= now.Ordinal()
      modifies `weeklyStreakBest, `weeklyStreakCurrent
      ensures (weeklyStreakCurrent, weeklyStreakBest) ==
        WeeklyAfter(DayNumber(lastWeeklyStreak), NumberOf(now), old(weeklyStreakCurrent), old(weeklyStreakBest))
    {
      if lastWeeklyStreak.Some? {
        WeeksApart(lastWeeklyStreak.value, now);
      }
      if lastWeeklyStreak.None? {
        weeklyStreakCurrent := 1;
        weeklyStreakBest := 1;
      } else if AreSameWeeks(lastWeeklyStreak.value, now) {
      } else if AreAdjacentWeeks(lastWeeklyStreak.value, now) {
        weeklyStreakCurrent := weeklyStreakCurrent + 1;
        if weeklyStreakCurrent > weeklyStreakBest {
          weeklyStreakBest := weeklyStreakCurrent;
        }
      } else {
        weeklyStreakCurrent := 1;
      }
    }

    /** A challenge score arrives; only a passed one counts. */
    method ProcessScore(passed: bool, now: Date)
      requires Valid() && now.Valid() && history.clock <= now.Ordinal()
      modifies this
      ensures Valid()
      ensures history == if passed then Played(old(history), NumberOf(now), dailyStreakCurrent) else old(history)
      ensures passed ==> weeklyStreakCurrent == Chain(WeekSet(history.plays), AbsoluteWeek(now))
      ensures passed ==> lastUpdate == Some(now)
      ensures placements == old(placements)
      ensures !passed ==> Stands() == old(Stands())
    {
      if !passed {
        return;
      }
      PlayStep(history, Stands(), NumberOf(now));
      Record(now);
    }

    /** The effect of a passed score. */
    method Record(now: Date)
      requires Synced() && now.Valid()
      requires lastDayStreak.Some? ==> lastDayStreak.value.Ordinal() <= now.Ordinal()
      modifies this
      ensures Synced() && lastUpdate == Some(now) && placements == old(placements)
      ensures Stands() == old(StandingAfter(LastDay(history.plays), NumberOf(now), Stands()))
      ensures history == Played(old(history), NumberOf(now), dailyStreakCurrent)
    {
      UpdateDaily(now);
      UpdateWeekly(now);
      lastUpdate, lastDayStreak, lastWeeklyStreak := Some(now), Some(now), Some(now);
      history := Played(history, NumberOf(now), dailyStreakCurrent);
    }

    /** The nightly closing of the challenge of `roomDay`, on day `now`; `weekAgo` is seven days earlier.  On
        a frozen day nobody's streak is cut.  A placement is counted only if nothing has touched the statistics
        on that day: who has passed the next challenge before the closing loses it. */
    method Close(place: Option<Placement>, frozen: bool, roomDay: Date, now: Date, weekAgo: Date)
      requires Valid() && roomDay.Valid() && now.Valid() && history.clock <= now.Ordinal()
      requires weekAgo.Valid() && weekAgo.Ordinal() == now.Ordinal() - 7
      requires place.Some? ==> place.value.Valid()
      modifies this
      ensures Valid() && lastUpdate == if place.Some? || !frozen then Some(now) else old(lastUpdate)
      ensures place.Some? || frozen ==> Stands() == old(Stands())
      ensures place.None? && !frozen ==>
        Stands() == old(StandingBroken(LastDay(history.plays), NumberOf(roomDay), now.Ordinal(), Stands()))
      ensures place.None? && !frozen ==>
        IsBroken(old(history.plays), roomDay.Ordinal(), now.Ordinal(), old(Stands()), Stands())
      ensures placements ==
        if place.Some? && old(lastUpdate) != Some(now) then old(placements).Add(place.value) else old(placements)
      ensures place.Some? && old(lastUpdate) != Some(now) ==> Counted(old(placements), place.value, placements)
      ensures old(LastDay(history.plays)) == Some(NumberOf(now)) ==> placements == old(placements)
      ensures history ==
        if place.Some? then Closed(old(history), now.Ordinal(), dailyStreakCurrent)
        else if frozen then old(history)
        else Broken(old(history), now.Ordinal(), dailyStreakCurrent)
    {
      if LastDay(history.plays) == Some(NumberOf(now)) {
        PlayedToday(now);
      }
      if place.Some? {
        CountPlacement(place.value, now);
        CloseStep(history, Stands(), now.Ordinal());
        lastUpdate := Some(now);
        history := Closed(history, now.Ordinal(), dailyStreakCurrent);
      } else if !frozen {
        BreakStep(history, Stands(), NumberOf(roomDay), now.Ordinal());
        BreakStreak(roomDay, now, weekAgo);
      }
    }

    method CountPlacement(place: Placement, now: Date)
      requires place.Valid()
      modifies `placements
      ensures placements == if lastUpdate != Some(now) then old(placements).Add(place) else old(placements)
      ensures lastUpdate != Some(now) ==> Counted(old(placements), place, placements)
      ensures old(placements.top10 <= placements.top50) ==> placements.top10 <= placements.top50
    {
      if lastUpdate != Some(now) {
        PlacementsNest(place);
        placements := placements.Add(place);
      }
    }

    /** Who passed a challenge on that day has been touched on it. */
    lemma PlayedToday(now: Date)
      requires Valid() && now.Valid() && history.clock <= now.Ordinal()
      requires LastDay(history.plays) == Some(NumberOf(now))
      ensures lastUpdate == Some(now)
    {
      assert LastDay(history.plays).value.n <= history.clock;
      OrdinalInjective(lastUpdate.value, now);
    }

    /** The effect on a player who missed the challenge. */
    method BreakStreak(roomDay: Date, now: Date, weekAgo: Date)
      requires Synced() && roomDay.Valid() && now.Valid()
      requires weekAgo.Valid() && weekAgo.Ordinal() == now.Ordinal() - 7
      requires lastDayStreak.Some? ==> lastDayStreak.value.Ordinal() <= now.Ordinal()
      modifies this
      ensures Synced() && lastUpdate == Some(now) && placements == old(placements)
      ensures Stands() == old(StandingBroken(LastDay(history.plays), NumberOf(roomDay), now.Ordinal(), Stands()))
      ensures history == Broken(old(history), now.Ordinal(), dailyStreakCurrent)
    {
      if lastDayStreak.Some? && lastDayStreak.value.Ordinal() > roomDay.Ordinal() {
        dailyStreakCurrent := 1;
        if dailyStreakBest < 1 {
          dailyStreakBest := 1;
        }
      } else {
        dailyStreakCurrent := 0;
        ResetWeekly(now, weekAgo);
      }
      lastUpdate := Some(now);
      history := Broken(history, now.Ordinal(), dailyStreakCurrent);
    }

    /** The weekly streak is over if neither this week nor the last one has a play. */
    method ResetWeekly(now: Date, weekAgo: Date)
      requires lastWeeklyStreak.Some? ==>
        lastWeeklyStreak.value.Valid() && lastWeeklyStreak.value.Ordinal() <= now.Ordinal()
      requires now.Valid() && weekAgo.Valid() && weekAgo.Ordinal() == now.Ordinal() - 7
      modifies `weeklyStreakCurrent
      ensures weeklyStreakCurrent ==
        if lastWeeklyStreak.Some? && AbsoluteWeek(lastWeeklyStreak.value) + 1 < AbsoluteWeek(now) then 0
        else old(weeklyStreakCurrent)
    {
      if lastWeeklyStreak.Some? {
        SameExact(lastWeeklyStreak.value, now);
        SameExact(lastWeeklyStreak.value, weekAgo);
        if !(AreSameWeeks(lastWeeklyStreak.value, now) || AreSameWeeks(lastWeeklyStreak.value, weekAgo)) {
          weeklyStreakCurrent := 0;
        }
      }
    }
  }

  lemma WeeksApart(last: Date, now: Date)
    requires last.Valid() && now.Valid() && last.Ordinal() <= now.Ordinal()
    ensures AreSameWeeks(last, now) <==> WeekOf(NumberOf(last)) == WeekOf(NumberOf(now))
    ensures AreAdjacentWeeks(last, now) <==> WeekOf(NumberOf(last)).n + 1 == WeekOf(NumberOf(now)).n
  {
    SameExact(last, now);
    AdjacentExact(last, now);
  }

  function NumberOf(d: Date): Day {
    Day(d.Ordinal())
  }

  function DayNumber(d: Option<Date>): Option<Day> {
    if d.Some? then Some(NumberOf(d.value)) else None
  }

  /** d is a valid date with that day number, or both are absent. */
  ghost predicate IsDay(d: Option<Date>, n: Option<Day>) {
    DayNumber(d) == n && (d.Some? ==> d.value.Valid())
  }

  /** Nobody has played yet. */
  predicate Unplayed(h: History, s: Standing) {
    && h.plays == [] && h.mark == 0 && h.kept == 0 && h.values == [0]
    && s.daily == Daily(0, 0, 0) && s.weekly == 0 && s.weeklyBest == 0
  }

  lemma EmptyTally(clock: int) returns (h: History, s: Standing)
    ensures Unplayed(h, s) && Tally(h, s) && LastDay(h.plays) == None && h.clock == clock
  {
    h, s := History([], clock, 0, 0, [0]), Standing(Daily(0, 0, 0), 0, 0);
    EmptyHistory(h, s);
  }

  lemma EmptyHistory(h: History, s: Standing)
    requires Unplayed(h, s)
    ensures Tally(h, s) && LastDay(h.plays) == None
  {
  }
}
