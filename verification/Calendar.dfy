/**
 * Date arithmetic of the second-stage export: proleptic Gregorian civil dates
 * turned into instants (seconds since 1970-01-01 00:00), the signed day offset
 * of a publication from a reference date, and membership of an instant in the
 * rest-day (Sabbath/holiday) intervals.
 */
module Calendar {

  const SecondsPerDay: int := 86400

  predicate IsLeapYear(y: int)
  {
    y % 4 == 0 && (y % 100 != 0 || y % 400 == 0)
  }

  function DaysInYear(y: int): int
  {
    if IsLeapYear(y) then 366 else 365
  }

  function DaysInMonth(y: int, m: int): (n: int)
    requires 1 <= m <= 12
    ensures 28 <= n <= 31
  {
    if m == 2 then (if IsLeapYear(y) then 29 else 28)
    else if m == 4 || m == 6 || m == 9 || m == 11 then 30
    else 31
  }

  /** A day that exists in the calendar; years start at 1. */
  predicate ValidDate(y: int, m: int, d: int)
  {
    y >= 1 && 1 <= m <= 12 && 1 <= d <= DaysInMonth(y, m)
  }

  /** The number of leap years among 1 .. y-1. */
  function LeapYearsBefore(y: int): int
    requires y >= 1
  {
    (y - 1) / 4 - (y - 1) / 100 + (y - 1) / 400
  }

  /** Days from 1970-01-01 to the first of January of year `y` (negative before 1970). */
  function DaysBeforeYear(y: int): int
    requires y >= 1
  {
    365 * (y - 1970) + LeapYearsBefore(y) - LeapYearsBefore(1970)
  }

  /** Days from the first of January to the first day of month `m` of year `y`. */
  function DaysBeforeMonth(y: int, m: int): int
    requires 1 <= m <= 12
  {
    [0, 31, 59, 90, 120, 151, 181, 212, 243, 273, 304, 334][m - 1]
      + (if m > 2 && IsLeapYear(y) then 1 else 0)
  }

  /** The day number of a date, counting 1970-01-01 as day 0. */
  function EpochDay(y: int, m: int, d: int): int
    requires ValidDate(y, m, d)
  {
    DaysBeforeYear(y) + DaysBeforeMonth(y, m) + d - 1
  }

  /** Midnight at the start of a date, in seconds since the epoch. */
  function Midnight(y: int, m: int, d: int): int
    requires ValidDate(y, m, d)
  {
    EpochDay(y, m, d) * SecondsPerDay
  }

  /** The calendar day after a valid date. */
  function NextDate(y: int, m: int, d: int): (r: (int, int, int))
    requires ValidDate(y, m, d)
    ensures ValidDate(r.0, r.1, r.2)
  {
    if d < DaysInMonth(y, m) then (y, m, d + 1)
    else if m < 12 then (y, m + 1, 1)
    else (y + 1, 1, 1)
  }

  /** Crossing a multiple of 4, 100 or 400 adds one to the corresponding floor quotient. */
  lemma FloorSteps(y: int)
    ensures y / 4 - (y - 1) / 4 == (if y % 4 == 0 then 1 else 0)
    ensures y / 100 - (y - 1) / 100 == (if y % 100 == 0 then 1 else 0)
    ensures y / 400 - (y - 1) / 400 == (if y % 400 == 0 then 1 else 0)
  {
  }

  /** The year-start table advances by the length of each year. */
  lemma DaysBeforeNextYear(y: int)
    requires y >= 1
    ensures DaysBeforeYear(y + 1) == DaysBeforeYear(y) + DaysInYear(y)
  {
    FloorSteps(y);
  }

  /** The month-start table advances by the length of each month, and December ends the year. */
  lemma DaysBeforeNextMonth(y: int, m: int)
    requires 1 <= m <= 12
    ensures m < 12 ==> DaysBeforeMonth(y, m + 1) == DaysBeforeMonth(y, m) + DaysInMonth(y, m)
    ensures m == 12 ==> DaysBeforeMonth(y, m) + DaysInMonth(y, m) == DaysInYear(y)
  {
  }

  /**
   * Consecutive calendar days have consecutive day numbers, across month and year
   * ends: the day numbering has no gaps and no repeats.
   */
  lemma EpochDayOfNextDate(y: int, m: int, d: int)
    requires ValidDate(y, m, d)
    ensures EpochDay(NextDate(y, m, d).0, NextDate(y, m, d).1, NextDate(y, m, d).2) == EpochDay(y, m, d) + 1
  {
    DaysBeforeNextMonth(y, m);
    if d == DaysInMonth(y, m) && m == 12 {
      DaysBeforeNextYear(y);
    }
  }

  /** The reference dates of the day-offset columns, as midnights. */
  const ElectionDate: int := Midnight(2015, 3, 17)
  const ThreeTeenagerKidnapDate: int := Midnight(2014, 6, 12)
  const ProtectiveEdgeStartDate: int := Midnight(2015, 7, 8)
  const ProtectiveEdgeEndDate: int := Midnight(2015, 8, 26)
  const ThirdIntifadaStartDate: int := Midnight(2015, 9, 13)

  /**
   * The whole days from `eventDate` to `pubDate`, rounded towards minus infinity
   * (the `days` of the difference `pubDate - eventDate`).
   */
  function DaysFromEvent(pubDate: int, eventDate: int): (days: int)
    ensures days * SecondsPerDay <= pubDate - eventDate < (days + 1) * SecondsPerDay
  {
    (pubDate - eventDate) / SecondsPerDay
  }

  /**
   * The offset is zero on the reference instant and during the day after it,
   * negative exactly for publications before the reference, and positive exactly
   * from one full day after it.
   */
  lemma DaysFromEventSign(pubDate: int, eventDate: int)
    ensures pubDate == eventDate ==> DaysFromEvent(pubDate, eventDate) == 0
    ensures DaysFromEvent(pubDate, eventDate) < 0 <==> pubDate < eventDate
    ensures DaysFromEvent(pubDate, eventDate) > 0 <==> pubDate >= eventDate + SecondsPerDay
  {
  }

  /** A later publication never has a smaller offset. */
  lemma DaysFromEventMonotonic(p1: int, p2: int, eventDate: int)
    requires p1 <= p2
    ensures DaysFromEvent(p1, eventDate) <= DaysFromEvent(p2, eventDate)
  {
  }

  /** Between two midnights the offset is the difference of the day numbers. */
  lemma DaysFromEventBetweenMidnights(y1: int, m1: int, d1: int, y2: int, m2: int, d2: int)
    requires ValidDate(y1, m1, d1) && ValidDate(y2, m2, d2)
    ensures DaysFromEvent(Midnight(y1, m1, d1), Midnight(y2, m2, d2)) == EpochDay(y1, m1, d1) - EpochDay(y2, m2, d2)
  {
    var k := EpochDay(y1, m1, d1) - EpochDay(y2, m2, d2);
    assert Midnight(y1, m1, d1) - Midnight(y2, m2, d2) == k * SecondsPerDay;
  }

  /** A post published at midnight a week before election day is seven days before it. */
  lemma WeekBeforeElection()
    ensures EpochDay(2015, 3, 17) == 16511
    ensures DaysFromEvent(Midnight(2015, 3, 10), ElectionDate) == -7
  {
    DaysFromEventBetweenMidnights(2015, 3, 10, 2015, 3, 17);
  }

  /** One closed rest-day interval [start, end], as loaded from the interval table. */
  datatype Interval = Interval(start: int, end: int)

  /** Both bounds are inclusive. */
  predicate InInterval(iv: Interval, t: int)
  {
    iv.start <= t <= iv.end
  }

  /** The instant falls inside some interval of the table. */
  predicate InSomeInterval(pairs: seq<Interval>, t: int)
  {
    exists i :: 0 <= i < |pairs| && InInterval(pairs[i], t)
  }

  /** Scans the table in order and stops at the first interval containing `pubDate`. */
  method IsDateInHoliday(pubDate: int, pairs: seq<Interval>) returns (inHoliday: bool)
    ensures inHoliday <==> InSomeInterval(pairs, pubDate)
  {
    var i := 0;
    while i < |pairs|
      invariant 0 <= i <= |pairs|
      invariant forall j :: 0 <= j < i ==> !InInterval(pairs[j], pubDate)
    {
      if pairs[i].start <= pubDate <= pairs[i].end {
        return true;
      }
      i := i + 1;
    }
    return false;
  }

  /** An empty table contains no instant. */
  lemma EmptyTableHasNoHoliday(t: int)
    ensures !InSomeInterval([], t)
  {
  }

  /** The start and the end of a non-empty interval of the table are themselves in a rest day. */
  lemma HolidayBoundsInclusive(pairs: seq<Interval>, i: int)
    requires 0 <= i < |pairs| && pairs[i].start <= pairs[i].end
    ensures InSomeInterval(pairs, pairs[i].start)
    ensures InSomeInterval(pairs, pairs[i].end)
  {
    assert InInterval(pairs[i], pairs[i].start);
    assert InInterval(pairs[i], pairs[i].end);
  }

  /** Reordering the table (any permutation) does not change membership. */
  lemma HolidayOrderIrrelevant(p1: seq<Interval>, p2: seq<Interval>, t: int)
    requires multiset(p1) == multiset(p2)
    ensures InSomeInterval(p1, t) <==> InSomeInterval(p2, t)
  {
    if InSomeInterval(p1, t) {
      PermutationKeepsWitness(p1, p2, t);
    }
    if InSomeInterval(p2, t) {
      PermutationKeepsWitness(p2, p1, t);
    }
  }

  /** A pair containing `t` in one table is somewhere in any reordering of it; one direction of `HolidayOrderIrrelevant`. */
  lemma PermutationKeepsWitness(p1: seq<Interval>, p2: seq<Interval>, t: int)
    requires multiset(p1) == multiset(p2)
    requires InSomeInterval(p1, t)
    ensures InSomeInterval(p2, t)
  {
    var i :| 0 <= i < |p1| && InInterval(p1[i], t);
    assert p1[i] in multiset(p1);
    assert p1[i] in p2;
    var j :| 0 <= j < |p2| && p2[j] == p1[i];
    assert InInterval(p2[j], t);
  }

  /** A concatenated table holds an instant exactly when one of its parts does. */
  lemma HolidayConcat(p1: seq<Interval>, p2: seq<Interval>, t: int)
    ensures InSomeInterval(p1 + p2, t) <==> InSomeInterval(p1, t) || InSomeInterval(p2, t)
  {
    if InSomeInterval(p1 + p2, t) {
      var i :| 0 <= i < |p1 + p2| && InInterval((p1 + p2)[i], t);
      if i >= |p1| {
        assert InInterval(p2[i - |p1|], t);
      }
    }
    if InSomeInterval(p1, t) {
      var j :| 0 <= j < |p1| && InInterval(p1[j], t);
      assert (p1 + p2)[j] == p1[j];
    }
    if InSomeInterval(p2, t) {
      var j :| 0 <= j < |p2| && InInterval(p2[j], t);
      assert (p1 + p2)[|p1| + j] == p2[j];
    }
  }
}
