/**
  The synthetic timeline: half-hours counted from its first one, attributed to London dates.
  Dates are counted from the timeline's first date.
 */
module Timeline {
  import opened Sequences

  /** `midnight` gives the half-hour a date begins with; `day` the date a half-hour falls on. */
  datatype Calendar = Calendar(midnight: int -> int, day: int -> int)

  /** Dates are consecutive and of any positive length, and the timeline starts with date 0. */
  ghost predicate Valid(cal: Calendar) {
    && cal.midnight(0) == 0
    && (forall a, b :: a < b ==> cal.midnight(a) < cal.midnight(b))
    && forall h :: cal.midnight(cal.day(h)) <= h < cal.midnight(cal.day(h) + 1)
  }

  lemma LaterMidnight(cal: Calendar, a: int, b: int)
    requires Valid(cal)
    ensures a <= b ==> cal.midnight(a) <= cal.midnight(b)
    ensures a < b ==> cal.midnight(a) < cal.midnight(b)
  {
  }

  lemma DayOfRange(cal: Calendar, h: int, first: int, last: int)
    requires Valid(cal)
    ensures cal.midnight(first) <= h < cal.midnight(last + 1) <==> first <= cal.day(h) <= last
  {
    var d := cal.day(h);
    LaterMidnight(cal, d + 1, first);
    LaterMidnight(cal, first, d);
    LaterMidnight(cal, d + 1, last + 1);
    LaterMidnight(cal, last + 1, d);
  }

  lemma DayIsDetermined(cal: Calendar, h: int, d: int)
    requires Valid(cal) && cal.midnight(d) <= h < cal.midnight(d + 1)
    ensures cal.day(h) == d
  {
    DayOfRange(cal, h, d, d);
  }

  /** A half-hour of a range; `index` is its position in the range. */
  datatype Interval = Interval(index: int, start: int, localDate: int, period: int)

  /** The period number recomputed from timeline positions alone. */
  function Period(cal: Calendar, h: int): int {
    h - cal.midnight(cal.day(h)) + 1
  }

  function SyntheticIntervalAt(cal: Calendar, h: int): Interval {
    Interval(h, h, cal.day(h), Period(cal, h))
  }

  /** The half-hours of a range, each attributed as it would be on its own. */
  function Walk(cal: Calendar, from: int, to: int): (walked: seq<Interval>)
    requires from <= to
    ensures |walked| == to - from
    ensures forall i :: 0 <= i < |walked| ==> walked[i] == WalkedAt(cal, from, i)
  {
    seq(to - from, i requires 0 <= i < to - from => WalkedAt(cal, from, i))
  }

  function WalkedAt(cal: Calendar, from: int, i: int): Interval {
    SyntheticIntervalAt(cal, from + i).(index := i)
  }

  lemma WalkNext(cal: Calendar, from: int, to: int)
    requires from <= to
    ensures Walk(cal, from, to + 1) == Walk(cal, from, to) + [Interval(to - from, to, cal.day(to), Period(cal, to))]
  {
    assert WalkedAt(cal, from, to - from) == Interval(to - from, to, cal.day(to), Period(cal, to));
  }

  /** How many half-hours of date `d` a walk from `from` has passed before `cursor`. */
  function Passed(cal: Calendar, d: int, cursor: int): int {
    if cursor <= cal.midnight(d) then 0
    else if cursor <= cal.midnight(d + 1) then cursor - cal.midnight(d)
    else cal.midnight(d + 1) - cal.midnight(d)
  }

  lemma PassedNext(cal: Calendar, d: int, cursor: int)
    requires Valid(cal)
    ensures Passed(cal, d, cursor + 1) == Passed(cal, d, cursor) + if d == cal.day(cursor) then 1 else 0
    ensures Passed(cal, cal.day(cursor), cursor) == Period(cal, cursor) - 1
  {
    if cal.midnight(d) <= cursor < cal.midnight(d + 1) {
      DayIsDetermined(cal, cursor, d);
    }
  }

  /**
    Expands inclusive dates into half-hours, counting the periods of each date as it goes. The
    counted numbers are those recomputed from timeline positions, whatever the length of the days.
   */
  method IntervalsForLocalDates(cal: Calendar, startDate: int, endDate: int) returns (result: Option<seq<Interval>>)
    requires Valid(cal)
    ensures result.None? <==> endDate < startDate
    ensures result.Some? ==>
      && cal.midnight(startDate) < cal.midnight(endDate + 1)
      && result.value == Walk(cal, cal.midnight(startDate), cal.midnight(endDate + 1))
  {
    if endDate < startDate {
      return None;
    }
    var cursor, end := cal.midnight(startDate), cal.midnight(endDate + 1);
    var localPeriods: map<int, int> := map[];
    var walked: seq<Interval> := [];
    assert cal.midnight(startDate) < end;
    while cursor < end
      invariant cal.midnight(startDate) <= cursor <= end
      invariant walked == Walk(cal, cal.midnight(startDate), cursor)
      invariant forall d :: startDate <= d ==>
        Passed(cal, d, cursor) == if d in localPeriods then localPeriods[d] else 0
    {
      var localDay := cal.day(cursor);
      DayOfRange(cal, cursor, startDate, endDate);
      var counted := (if localDay in localPeriods then localPeriods[localDay] else 0) + 1;
      PassedNext(cal, localDay, cursor);
      forall d | startDate <= d
        ensures Passed(cal, d, cursor + 1) == Passed(cal, d, cursor) + if d == localDay then 1 else 0
      {
        PassedNext(cal, d, cursor);
      }
      WalkNext(cal, cal.midnight(startDate), cursor);
      localPeriods := localPeriods[localDay := counted];
      walked := walked + [Interval(|walked|, cursor, localDay, counted)];
      cursor := cursor + 1;
    }
    assert walked != [];
    return Some(walked);
  }

  /** The range splits into its dates: each of its half-hours falls on exactly one of them. */
  lemma WalkPartitionsRange(cal: Calendar, startDate: int, endDate: int, h: int, d: int)
    requires Valid(cal) && startDate <= endDate
    ensures cal.midnight(startDate) <= h < cal.midnight(endDate + 1) <==> startDate <= cal.day(h) <= endDate
    ensures cal.midnight(d) <= h < cal.midnight(d + 1) <==> d == cal.day(h)
  {
    DayOfRange(cal, h, startDate, endDate);
    DayOfRange(cal, h, d, d);
  }

  /** A day's periods are numbered from 1 to its length, in order. */
  lemma PeriodsNumberTheDay(cal: Calendar, d: int, k: int)
    requires Valid(cal) && 1 <= k <= cal.midnight(d + 1) - cal.midnight(d)
    ensures var h := cal.midnight(d) + k - 1;
      SyntheticIntervalAt(cal, h).localDate == d && SyntheticIntervalAt(cal, h).period == k
  {
    DayIsDetermined(cal, cal.midnight(d) + k - 1, d);
  }
}
