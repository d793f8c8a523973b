/**
 ISO weeks on proleptic Gregorian dates (app/utils.py, are_adjacent_weeks and are_same_weeks).

 A date is a year and a day of the year.  `IsoCalendar` follows ISO 8601:2004, section 3.2.2: weeks
 start on Monday, and week 1 is the week with the year's first Thursday.  The server compares ISO year
 and week numbers; the reference is the number of Mondays since the start of the calendar.
 */
module Weeks {

  predicate IsLeap(y: int) {
    y % 4 == 0 && (y % 100 != 0 || y % 400 == 0)
  }

  function DaysIn(y: int): int {
    if IsLeap(y) then 366 else 365
  }

  /** Days before January 1 of year y, counted from January 1 of year 1, which is a Monday. */
  function DaysBefore(y: int): int
    decreases if y < 1 then 1 - y else y - 1
  {
    if y == 1 then 0
    else if y > 1 then DaysBefore(y - 1) + DaysIn(y - 1)
    else DaysBefore(y + 1) - DaysIn(y)
  }

  datatype Date = Date(year: int, day: int)
  {
    /** Python dates start with the year 1; `day` counts from 1. */
    predicate Valid() {
      1 <= year && 1 <= day <= DaysIn(year)
    }

    /** The day number, with January 1 of year 1 as day 0. */
    function Ordinal(): int {
      DaysBefore(year) + day - 1
    }
  }

  /** Weeks counted from the first Monday of the calendar. */
  function AbsoluteWeek(d: Date): int {
    d.Ordinal() / 7
  }

  lemma YearLength(y: int)
    ensures DaysBefore(y + 1) == DaysBefore(y) + DaysIn(y)
  {
  }

  /** The Monday of the week that holds the fourth day from `jan1` on: the week of the first Thursday. */
  function MondayNear(jan1: int): int {
    var weekday := jan1 % 7;
    jan1 - weekday + (if weekday > 3 then 7 else 0)
  }

  lemma MondayNearFacts(jan1: int)
    ensures MondayNear(jan1) % 7 == 0 && -3 <= MondayNear(jan1) - jan1 <= 3
  {
  }

  /** The Monday that starts week 1 of an ISO year. */
  function Week1Monday(y: int): int {
    MondayNear(DaysBefore(y))
  }

  lemma WeeksBetween(monday: int, today: int)
    requires monday % 7 == 0
    ensures (today - monday) / 7 == today / 7 - monday / 7
    ensures 7 * (monday / 7) == monday
  {
  }

  datatype IsoWeek = IsoWeek(year: int, week: int)

  /** The ISO year and week of a date. */
  function IsoCalendar(d: Date): IsoWeek {
    var today := d.Ordinal();
    var week := (today - Week1Monday(d.year)) / 7;
    if week < 0 then IsoWeek(d.year - 1, (today - Week1Monday(d.year - 1)) / 7 + 1)
    else if week >= 52 && today >= Week1Monday(d.year + 1) then IsoWeek(d.year + 1, 1)
    else IsoWeek(d.year, week + 1)
  }

  /** The number of weeks of an ISO year. */
  function WeeksIn(y: int): int {
    (Week1Monday(y + 1) - Week1Monday(y)) / 7
  }

  lemma IsoYearLength(y: int)
    ensures Week1Monday(y) % 7 == 0
    ensures Week1Monday(y + 1) == Week1Monday(y) + 7 * WeeksIn(y)
    ensures 52 <= WeeksIn(y) <= 53
    ensures -3 <= Week1Monday(y) - DaysBefore(y) <= 3
    ensures DaysBefore(y) + 365 <= DaysBefore(y + 1) <= DaysBefore(y) + 366
  {
    YearLength(y);
    MondayNearFacts(DaysBefore(y));
    MondayNearFacts(DaysBefore(y + 1));
    WeeksBetween(Week1Monday(y), Week1Monday(y + 1));
    WeeksBetween(Week1Monday(y + 1), 0);
  }

  /** The absolute week in which an ISO year starts. */
  function StartWeek(y: int): int {
    Week1Monday(y) / 7
  }

  lemma StartWeekFacts(y: int)
    ensures Week1Monday(y) == 7 * StartWeek(y)
    ensures StartWeek(y + 1) == StartWeek(y) + WeeksIn(y) && 52 <= WeeksIn(y) <= 53
  {
    IsoYearLength(y);
    WeeksBetween(Week1Monday(y), Week1Monday(y + 1));
  }

  /** The ISO number of an absolute week near a year, from the start weeks of the years around it. */
  function IsoFrom(year: int, week: int, before: int, start: int, after: int): IsoWeek {
    if week < start then IsoWeek(year - 1, week - before + 1)
    else if week - start >= 52 && week >= after then IsoWeek(year + 1, 1)
    else IsoWeek(year, week - start + 1)
  }

  lemma IsoFromMeans(year: int, week: int, before: int, start: int, after: int)
    requires before + 52 <= start <= before + 53 && start + 52 <= after <= start + 53
    requires start - 1 <= week <= after
    ensures
      var iso := IsoFrom(year, week, before, start, after);
      && (iso.year == year - 1 ==> week == before + iso.week - 1 && 1 <= iso.week <= start - before)
      && (iso.year == year ==> week == start + iso.week - 1 && 1 <= iso.week <= after - start)
      && (iso.year == year + 1 ==> week == after && iso.week == 1)
      && (iso.year == year - 1 <==> week < start)
      && year - 1 <= iso.year <= year + 1
  {
  }

  lemma FirstYear()
    ensures StartWeek(1) == 0
  {
  }

  /** The calendar in terms of absolute weeks. */
  lemma IsoByWeeks(d: Date)
    ensures IsoCalendar(d) ==
      IsoFrom(d.year, AbsoluteWeek(d), StartWeek(d.year - 1), StartWeek(d.year), StartWeek(d.year + 1))
  {
    var y, today := d.year, d.Ordinal();
    StartWeekFacts(y - 1);
    StartWeekFacts(y);
    StartWeekFacts(y + 1);
    WeeksBetween(7 * StartWeek(y - 1), today);
    WeeksBetween(7 * StartWeek(y), today);
    NotBefore(StartWeek(y + 1), today);
  }

  lemma NotBefore(week: int, day: int)
    ensures day >= 7 * week <==> day / 7 >= week
  {
  }

  /** A date lies in the last week before its calendar year's ISO year, in it, or in the first week after. */
  lemma WeekRange(d: Date)
    requires d.Valid()
    ensures StartWeek(d.year) - 1 <= AbsoluteWeek(d) <= StartWeek(d.year + 1)
  {
    var y, today := d.year, d.Ordinal();
    YearLength(y);
    IsoYearLength(y);
    IsoYearLength(y + 1);
    StartWeekFacts(y);
    StartWeekFacts(y + 1);
    NotBefore(StartWeek(y) - 1, today);
    NotBefore(StartWeek(y + 1) + 1, today);
  }

  /** The ISO number of a date is its absolute week, counted from week 1 of its ISO year. */
  lemma IsoMeansWeek(d: Date)
    requires d.Valid()
    ensures AbsoluteWeek(d) == StartWeek(IsoCalendar(d).year) + IsoCalendar(d).week - 1
    ensures 1 <= IsoCalendar(d).week <= WeeksIn(IsoCalendar(d).year)
    ensures 1 <= IsoCalendar(d).year
  {
    var y, week, iso := d.year, AbsoluteWeek(d), IsoCalendar(d);
    IsoByWeeks(d);
    WeekRange(d);
    StartWeekFacts(y - 1);
    StartWeekFacts(y);
    StartWeekFacts(y + 1);
    IsoFromMeans(y, week, StartWeek(y - 1), StartWeek(y), StartWeek(y + 1));
    if iso.year == y - 1 {
      assert week == StartWeek(y - 1) + iso.week - 1;
    } else if iso.year == y {
      assert week == StartWeek(y) + iso.week - 1;
    } else {
      assert iso.year == y + 1 && week == StartWeek(y + 1);
    }
    if y == 1 {
      FirstYear();
      OrdinalNonNegative(d);
    }
  }

  lemma OrdinalNonNegative(d: Date)
    requires d.Valid()
    ensures 0 <= AbsoluteWeek(d)
  {
    YearsGrow(1, d.year);
  }

  lemma {:induction false} YearsGrow(x: int, y: int)
    requires x <= y
    ensures DaysBefore(x) <= DaysBefore(y)
    decreases y - x
  {
    if x < y {
      YearsGrow(x, y - 1);
      YearLength(y - 1);
    }
  }

  /** December 28 is always in the last week. */
  lemma December28(y: int)
    requires 1 <= y
    ensures Date(y, DaysIn(y) - 3).Valid()
    ensures IsoCalendar(Date(y, DaysIn(y) - 3)) == IsoWeek(y, WeeksIn(y))
  {
  }

  lemma {:induction false} LaterYearsStartLater(x: int, y: int)
    requires x <= y
    ensures StartWeek(x) + 52 * (y - x) <= StartWeek(y)
    decreases y - x
  {
    if x < y {
      LaterYearsStartLater(x, y - 1);
      StartWeekFacts(y - 1);
    }
  }

  predicate Precedes(a: IsoWeek, b: IsoWeek) {
    a.year < b.year || (a.year == b.year && a.week < b.week)
  }

  predicate AreAdjacentWeeks(dt1: Date, dt2: Date) {
    var iso1, iso2 := IsoCalendar(dt1), IsoCalendar(dt2);
    var first, second := if Precedes(iso2, iso1) then iso2 else iso1, if Precedes(iso2, iso1) then iso1 else iso2;
    if first.year == second.year && second.week - first.week == 1 then true
    else if second.year == first.year + 1 && second.week == 1 then
      first.week == IsoCalendar(Date(first.year, DaysIn(first.year) - 3)).week
    else false
  }

  predicate AreSameWeeks(dt1: Date, dt2: Date) {
    IsoCalendar(dt1) == IsoCalendar(dt2)
  }

  /** ISO weeks x and y, in years that start with the absolute weeks xStart and yStart and have xWeeks and
      yWeeks weeks: their distance, year by year. */
  lemma IsoDistance(x: IsoWeek, y: IsoWeek, xStart: int, yStart: int, xWeeks: int, yWeeks: int)
    requires 1 <= x.week <= xWeeks <= 53 && 1 <= y.week <= yWeeks <= 53
    requires y.year > x.year ==> xStart + xWeeks + 52 * (y.year - x.year - 1) <= yStart
    requires x.year > y.year ==> yStart + yWeeks + 52 * (x.year - y.year - 1) <= xStart
    requires y.year == x.year + 1 ==> yStart == xStart + xWeeks
    requires y.year == x.year ==> yStart == xStart
    ensures
      var distance := (yStart + y.week) - (xStart + x.week);
      && (x.year == y.year ==> distance == y.week - x.week)
      && (y.year == x.year + 1 ==> distance == xWeeks - x.week + y.week)
      && (y.year > x.year + 1 ==> distance > 1)
      && (Precedes(x, y) <==> distance > 0)
  {
  }

  lemma StartsAfter(x: int, y: int)
    requires x < y
    ensures StartWeek(x) + WeeksIn(x) + 52 * (y - x - 1) <= StartWeek(y)
    ensures y == x + 1 ==> StartWeek(y) == StartWeek(x) + WeeksIn(x)
  {
    StartWeekFacts(x);
    LaterYearsStartLater(x + 1, y);
  }

  /** The distance between two dates in weeks, from their ISO numbers. */
  lemma WeekDistance(a: Date, b: Date)
    requires a.Valid() && b.Valid()
    ensures
      var x, y := IsoCalendar(a), IsoCalendar(b);
      var distance := AbsoluteWeek(b) - AbsoluteWeek(a);
      && (x.year == y.year ==> distance == y.week - x.week)
      && (y.year == x.year + 1 ==> distance == WeeksIn(x.year) - x.week + y.week)
      && (y.year > x.year + 1 ==> distance > 1)
      && (Precedes(x, y) <==> distance > 0)
  {
    IsoMeansWeek(a);
    IsoMeansWeek(b);
    var x, y := IsoCalendar(a), IsoCalendar(b);
    StartWeekFacts(x.year);
    StartWeekFacts(y.year);
    if x.year < y.year {
      StartsAfter(x.year, y.year);
    } else if y.year < x.year {
      StartsAfter(y.year, x.year);
    }
    IsoDistance(x, y, StartWeek(x.year), StartWeek(y.year), WeeksIn(x.year), WeeksIn(y.year));
  }

  /** The comparison itself, given the week numbers of the two dates and the last week of the earlier year. */
  lemma AdjacentByNumbers(x: IsoWeek, y: IsoWeek, xWeeks: int, distance: int)
    requires Precedes(x, y) || x == y
    requires 1 <= x.week <= xWeeks && 1 <= y.week
    requires x.year == y.year ==> distance == y.week - x.week
    requires y.year == x.year + 1 ==> distance == xWeeks - x.week + y.week
    requires y.year > x.year + 1 ==> distance > 1
    ensures distance == 1 <==>
      (x.year == y.year && y.week - x.week == 1) || (y.year == x.year + 1 && y.week == 1 && x.week == xWeeks)
  {
  }

  /** Adjacent exactly when the absolute weeks differ by one, across year ends and long years. */
  lemma AdjacentExact(a: Date, b: Date)
    requires a.Valid() && b.Valid()
    ensures AreAdjacentWeeks(a, b) <==> AbsoluteWeek(a) - AbsoluteWeek(b) == 1 || AbsoluteWeek(b) - AbsoluteWeek(a) == 1
  {
    WeekDistance(a, b);
    WeekDistance(b, a);
    IsoMeansWeek(a);
    IsoMeansWeek(b);
    var x, y := IsoCalendar(a), IsoCalendar(b);
    December28(x.year);
    December28(y.year);
    if Precedes(y, x) {
      AdjacentByNumbers(y, x, WeeksIn(y.year), AbsoluteWeek(a) - AbsoluteWeek(b));
    } else {
      AdjacentByNumbers(x, y, WeeksIn(x.year), AbsoluteWeek(b) - AbsoluteWeek(a));
    }
  }

  lemma SameExact(a: Date, b: Date)
    requires a.Valid() && b.Valid()
    ensures AreSameWeeks(a, b) <==> AbsoluteWeek(a) == AbsoluteWeek(b)
  {
    WeekDistance(a, b);
    WeekDistance(b, a);
  }

  /** Different valid dates have different day numbers. */
  lemma OrdinalInjective(a: Date, b: Date)
    requires a.Valid() && b.Valid() && a.Ordinal() == b.Ordinal()
    ensures a == b
  {
    YearLength(a.year);
    YearLength(b.year);
    if a.year < b.year {
      YearsGrow(a.year + 1, b.year);
    } else if b.year < a.year {
      YearsGrow(b.year + 1, a.year);
    }
  }

  // ----- The calendar in plain numbers.

  /** The days before a year of the Gregorian calendar. */
  lemma {:induction false} DaysInClosedForm(y: nat)
    requires y >= 1
    ensures DaysBefore(y) == 365 * (y - 1) + (y - 1) / 4 - (y - 1) / 100 + (y - 1) / 400
  {
    if y > 1 {
      DaysInClosedForm(y - 1);
      LeapDays(y - 1);
    }
  }

  lemma LeapDays(n: nat)
    requires n >= 1
    ensures n / 4 - (n - 1) / 4 == (if n % 4 == 0 then 1 else 0)
    ensures n / 100 - (n - 1) / 100 == (if n % 100 == 0 then 1 else 0)
    ensures n / 400 - (n - 1) / 400 == (if n % 400 == 0 then 1 else 0)
    ensures (n % 400 == 0 ==> n % 100 == 0) && (n % 100 == 0 ==> n % 4 == 0)
  {
  }

  /** 1 January 2024 was a Monday, and 31 December 2024 its 366th day. */
  lemma KnownDates()
    ensures Date(2024, 1).Ordinal() == 738885 && Date(2024, 1).Ordinal() % 7 == 0
    ensures Date(2024, 366).Valid() && Date(2025, 1).Ordinal() == Date(2024, 366).Ordinal() + 1
    ensures !Date(2023, 366).Valid()
  {
    DaysInClosedForm(2024);
    YearLength(2024);
  }

  /** A week belongs to the year of its Thursday, and its number says which Thursday of that year. */
  lemma IsoIsThursday(d: Date)
    requires d.Valid()
    ensures
      var thursday, iso := d.Ordinal() / 7 * 7 + 3, IsoCalendar(d);
      && DaysBefore(iso.year) <= thursday < DaysBefore(iso.year + 1)
      && iso.week == (thursday - DaysBefore(iso.year)) / 7 + 1
  {
    var year, week := IsoCalendar(d).year, IsoCalendar(d).week;
    IsoMeansWeek(d);
    StartWeekFacts(year);
    StartWeekFacts(year + 1);
    IsoYearLength(year);
    IsoYearLength(year + 1);
    var thursday := 7 * AbsoluteWeek(d) + 3;
    assert thursday == Week1Monday(year) + 3 + 7 * (week - 1);
    WholeWeeks(Week1Monday(year) + 3 - DaysBefore(year), week - 1);
    assert thursday <= Week1Monday(year + 1) - 4;
  }

  lemma WholeWeeks(rest: int, weeks: int)
    requires 0 <= rest <= 6
    ensures (rest + 7 * weeks) / 7 == weeks
  {
  }
}
