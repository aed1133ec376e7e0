/** When a meeting was scheduled to convene: wall clock to instant through a zone whose UTC offset
    changes over time (backend/src/services/agenda-diff.ts). Instants are milliseconds since the epoch. */
module MeetingInstant {
  import opened Options
  import opened Text

  // ---- the calendar -----------------------------------------------------------------

  predicate IsLeapYear(y: int) { y % 4 == 0 && (y % 100 != 0 || y % 400 == 0) }

  function DaysInMonth(y: int, month: int): int {
    if month == 2 then (if IsLeapYear(y) then 29 else 28)
    else if month in {4, 6, 9, 11} then 30 else 31
  }

  /** Days before the first of a month in a common year, months counted from 0. */
  const DAYS_BEFORE: seq<int> := [0, 31, 59, 90, 120, 151, 181, 212, 243, 273, 304, 334]

  /** `DayFromYear` (section 21.4.1.3 of ECMA-262). */
  function DayFromYear(y: int): int {
    365 * (y - 1970) + (y - 1969) / 4 - (y - 1901) / 100 + (y - 1601) / 400
  }

  /** `MakeDay` (section 21.4.1.28): a month or day outside its range carries over. */
  function MakeDay(year: int, month: int, day: int): int {
    var y, m := year + month / 12, month % 12;
    DayFromYear(y) + DAYS_BEFORE[m] + (if m >= 2 && IsLeapYear(y) then 1 else 0) + day - 1
  }

  /** `Date.UTC` (section 21.4.3.4): the month counts from 0, and years 0 to 99 mean 1900 to 1999. */
  function DateUtc(year: int, month: int, day: int, hour: int, minute: int): int {
    ((MakeDay(FullYear(year), month, day) * 24 + hour) * 60 + minute) * 60_000
  }

  lemma YearStep(y: int)
    ensures DayFromYear(y + 1) - DayFromYear(y) == 365 + (if IsLeapYear(y) then 1 else 0)
  {
    EveryFour(y);
    EveryHundred(y);
    EveryFourHundred(y);
  }

  lemma QuotientBy400(x: int, q: int, r: int)
    requires x == 400 * q + r && 0 <= r < 400
    ensures x / 400 == q && x % 400 == r
  {
  }

  lemma QuotientBy100(x: int, q: int, r: int)
    requires x == 100 * q + r && 0 <= r < 100
    ensures x / 100 == q && x % 100 == r
  {
  }

  lemma EveryFour(y: int)
    ensures (y - 1968) / 4 - (y - 1969) / 4 == (if y % 4 == 0 then 1 else 0)
  {
  }

  lemma EveryHundred(y: int)
    ensures (y - 1900) / 100 - (y - 1901) / 100 == (if y % 100 == 0 then 1 else 0)
    ensures y % 100 == 0 ==> y % 4 == 0
  {
    var q, r := y / 100, y % 100;
    QuotientBy100(y - 1900, q - 19, r);
    if r == 0 {
      QuotientBy100(y - 1901, q - 20, 99);
      assert y == 4 * (25 * q);
    } else {
      QuotientBy100(y - 1901, q - 19, r - 1);
    }
  }

  lemma EveryFourHundred(y: int)
    ensures (y - 1600) / 400 - (y - 1601) / 400 == (if y % 400 == 0 then 1 else 0)
    ensures y % 400 == 0 ==> y % 100 == 0
  {
    var q, r := y / 400, y % 400;
    QuotientBy400(y - 1600, q - 4, r);
    if r == 0 {
      QuotientBy400(y - 1601, q - 5, 399);
      QuotientBy100(y, 4 * q, 0);
    } else {
      QuotientBy400(y - 1601, q - 4, r - 1);
    }
  }

  lemma MakeDayInYear(y: int, m: int, day: int)
    requires 0 <= m < 12
    ensures MakeDay(y, m, day) == DayFromYear(y) + DAYS_BEFORE[m] + (if m >= 2 && IsLeapYear(y) then 1 else 0) + day - 1
  {
    assert m / 12 == 0 && m % 12 == m;
  }

  lemma MonthStep(y: int, month: int)
    requires 1 <= month <= 12
    ensures MakeDay(if month == 12 then y + 1 else y, if month == 12 then 0 else month, 1) ==
            MakeDay(y, month - 1, DaysInMonth(y, month)) + 1
  {
    hide MakeDay, DayFromYear;
    YearStep(y);
    MakeDayInYear(y, month - 1, DaysInMonth(y, month));
    if month == 12 {
      MakeDayInYear(y + 1, 0, 1);
    } else {
      MakeDayInYear(y, month, 1);
    }
  }

  /** The year `Date.UTC` takes a year to mean. */
  function FullYear(year: int): int { if 0 <= year <= 99 then 1900 + year else year }

  /** Days in the months before `month` of year `y`. */
  function MonthDays(y: int, month: nat): int
    requires 1 <= month <= 13
  {
    if month == 1 then 0 else MonthDays(y, month - 1) + DaysInMonth(y, month - 1)
  }

  function YearDays(y: int): int { MonthDays(y, 13) }

  /** Days from the start of 1970 to the start of year `y`, one year at a time in either direction. */
  function YearsSince1970(y: int): int
    decreases if y < 1970 then 1970 - y else y - 1970
  {
    if y == 1970 then 0
    else if y > 1970 then YearsSince1970(y - 1) + YearDays(y - 1)
    else YearsSince1970(y + 1) - YearDays(y)
  }

  /** Days on the calendar from 1 January 1970 to a date. */
  function CalendarDays(y: int, month: nat, day: int): int
    requires 1 <= month <= 12
  {
    YearsSince1970(y) + MonthDays(y, month) + day - 1
  }

  lemma {:induction false} MonthDaysTable(y: int, month: nat)
    requires 1 <= month <= 12
    ensures MonthDays(y, month) == DAYS_BEFORE[month - 1] + (if month > 2 && IsLeapYear(y) then 1 else 0)
  {
    hide IsLeapYear;
    if month == 1 {
    } else {
      MonthDaysTable(y, month - 1);
    }
  }

  lemma YearDaysTable(y: int)
    ensures YearDays(y) == 365 + (if IsLeapYear(y) then 1 else 0)
  {
    hide IsLeapYear;
    MonthDaysTable(y, 12);
  }

  lemma {:induction false} YearsAreDays(y: int)
    ensures DayFromYear(y) == YearsSince1970(y)
    decreases if y < 1970 then 1970 - y else y - 1970
  {
    hide YearDays, IsLeapYear;
    if y == 1970 {
    } else if y > 1970 {
      hide DayFromYear;
      YearsAreDays(y - 1);
      YearStep(y - 1);
      YearDaysTable(y - 1);
    } else {
      hide DayFromYear;
      YearsAreDays(y + 1);
      YearStep(y);
      YearDaysTable(y);
    }
  }

  /** The closed forms of `Date.UTC` count the calendar's own days, month by month and year by year from 1970
      in either direction; a month out of range carries into the years, a year of two digits is one of the
      twentieth century. */
  lemma DateUtcCountsDays(year: int, month: int, day: int, hour: int, minute: int)
    ensures DateUtc(year, month, day, hour, minute) ==
            ((CalendarDays(FullYear(year) + month / 12, month % 12 + 1, day) * 24 + hour) * 60 + minute) * 60_000
  {
    YearsAreDays(FullYear(year) + month / 12);
    MonthDaysTable(FullYear(year) + month / 12, month % 12 + 1);
    hide YearsSince1970, DayFromYear, MonthDays, IsLeapYear;
  }

  lemma MidnightOf(year: int, month: int, day: int)
    ensures DateUtc(year, month, day, 0, 0) == MakeDay(FullYear(year), month, day) * 86_400_000
  {
    hide MakeDay;
  }

  /** The last day of a month is followed by the first of the next, leap days and year ends included,
      exactly unless the year turns over into or out of the two-digit years. */
  lemma MonthsFollow(year: int, month: int)
    requires 1 <= month <= 12
    ensures DateUtc(if month == 12 then year + 1 else year, if month == 12 then 0 else month, 1, 0, 0) ==
            DateUtc(year, month - 1, DaysInMonth(FullYear(year), month), 0, 0) + 86_400_000 <==>
            !(month == 12 && (year == -1 || year == 99))
  {
    hide MakeDay, DaysInMonth, DateUtc;
    MonthStep(FullYear(year), month);
    MidnightOf(year, month - 1, DaysInMonth(FullYear(year), month));
    MidnightOf(if month == 12 then year + 1 else year, if month == 12 then 0 else month, 1);
    if month == 12 && (year == -1 || year == 99) {
      CenturyApart(year);
    }
  }

  lemma CenturyApart(year: int)
    requires year == -1 || year == 99
    ensures MakeDay(FullYear(year + 1), 0, 1) != MakeDay(FullYear(year) + 1, 0, 1)
  {
    MakeDayInYear(FullYear(year + 1), 0, 1);
    MakeDayInYear(FullYear(year) + 1, 0, 1);
  }

  // ---- zones --------------------------------------------------------------------------

  datatype Transition = Transition(at: int, offset: int)

  /** A zone: the offset before its first transition, then its transitions in order. */
  datatype Zone = Zone(base: int, transitions: seq<Transition>)

  /** `zoneOffsetMs`: the UTC offset in force at an instant. */
  function OffsetAt(zone: Zone, t: int): int
    decreases |zone.transitions|
  {
    if zone.transitions == [] || t < zone.transitions[0].at then zone.base
    else OffsetAt(Zone(zone.transitions[0].offset, zone.transitions[1..]), t)
  }

  /** Offsets stay within `bound`, and transitions lie further apart than the window of offsets. */
  ghost predicate Spaced(zone: Zone, bound: int) {
    && -bound <= zone.base <= bound
    && (forall k :: 0 <= k < |zone.transitions| ==> -bound <= zone.transitions[k].offset <= bound)
    && (forall k :: 0 <= k < |zone.transitions| - 1 ==>
          zone.transitions[k + 1].at - zone.transitions[k].at > 2 * bound)
  }

  /** `t` reads as wall clock `w` in the zone. */
  predicate Shows(zone: Zone, t: int, w: int) { t + OffsetAt(zone, t) == w }

  /** The two passes of `scheduledInstant`: look the offset up at a provisional instant, then again at
      the corrected one. */
  function TwoPass(zone: Zone, w: int): int {
    var provisional := OffsetAt(zone, w);
    var corrected := OffsetAt(zone, w - provisional);
    w - corrected
  }

  /** Between `lo` and `hi` the offset is `before`, then from `at` on `after`. */
  ghost predicate OneStep(zone: Zone, lo: int, hi: int, at: int, before: int, after: int) {
    forall t :: lo <= t <= hi ==> OffsetAt(zone, t) == (if t < at then before else after)
  }

  lemma {:induction false} OffsetBounded(zone: Zone, bound: int, t: int)
    requires Spaced(zone, bound)
    ensures -bound <= OffsetAt(zone, t) <= bound
    decreases |zone.transitions|
  {
    if !(zone.transitions == [] || t < zone.transitions[0].at) {
      OffsetBounded(Zone(zone.transitions[0].offset, zone.transitions[1..]), bound, t);
    }
  }

  /** A window no wider than the spacing holds at most one transition. */
  lemma {:induction false} WindowHasOneStep(zone: Zone, bound: int, lo: int, hi: int)
    returns (at: int, before: int, after: int)
    requires Spaced(zone, bound) && lo <= hi <= lo + 2 * bound
    ensures OneStep(zone, lo, hi, at, before, after)
    ensures -bound <= before <= bound && -bound <= after <= bound
    ensures before != after ==> lo < at <= hi
    decreases |zone.transitions|
  {
    if zone.transitions == [] || hi < zone.transitions[0].at {
      at, before, after := lo, zone.base, zone.base;
    } else {
      var rest := Zone(zone.transitions[0].offset, zone.transitions[1..]);
      forall t ensures OffsetAt(zone, t) == (if t < zone.transitions[0].at then zone.base else OffsetAt(rest, t)) {
      }
      if zone.transitions[0].at <= lo {
        at, before, after := WindowHasOneStep(rest, bound, lo, hi);
      } else {
        at, before, after := zone.transitions[0].at, zone.base, zone.transitions[0].offset;
        assert |zone.transitions| > 1 ==> hi < zone.transitions[1].at;
        forall t | at <= t <= hi ensures OffsetAt(rest, t) == after {
        }
      }
    }
  }

  /** The two-pass lookup is exact: whenever any instant reads as the wall clock, the returned one does. */
  lemma TwoPassExact(zone: Zone, bound: int, w: int)
    requires Spaced(zone, bound)
    ensures Shows(zone, TwoPass(zone, w), w) <==> exists t :: Shows(zone, t, w)
  {
    OffsetBounded(zone, bound, w);
    var at, before, after := WindowHasOneStep(zone, bound, w - bound, w + bound);
    assert OffsetAt(zone, w) == (if w < at then before else after);
    if t :| Shows(zone, t, w) {
      OffsetBounded(zone, bound, t);
      assert OffsetAt(zone, t) == (if t < at then before else after);
      StepExact(zone, w, at, before, after, t);
    }
  }

  lemma StepExact(zone: Zone, w: int, at: int, before: int, after: int, t: int)
    requires OffsetAt(zone, w) == (if w < at then before else after)
    requires OffsetAt(zone, w - before) == (if w - before < at then before else after)
    requires OffsetAt(zone, w - after) == (if w - after < at then before else after)
    requires Shows(zone, t, w) && OffsetAt(zone, t) == (if t < at then before else after)
    ensures Shows(zone, TwoPass(zone, w), w)
    ensures before <= 0 && after <= 0 ==> TwoPass(zone, w) <= t
    ensures before >= 0 && after >= 0 ==> TwoPass(zone, w) >= t
  {
  }

  /** An ambiguous wall clock resolves to the earlier instant in a zone that is west of UTC at the time, to
      the later one in a zone that is east of it; what the zone did at other times does not matter. */
  lemma AmbiguousHour(zone: Zone, bound: int, w: int, t: int)
    requires Spaced(zone, bound) && Shows(zone, t, w)
    ensures (forall u :: w - bound <= u <= w + bound ==> OffsetAt(zone, u) <= 0) ==> TwoPass(zone, w) <= t
    ensures (forall u :: w - bound <= u <= w + bound ==> OffsetAt(zone, u) >= 0) ==> TwoPass(zone, w) >= t
  {
    OffsetBounded(zone, bound, t);
    var at, before, after := WindowHasOneStep(zone, bound, w - bound, w + bound);
    assert OffsetAt(zone, w) == (if w < at then before else after);
    assert OffsetAt(zone, t) == (if t < at then before else after);
    if before != after {
      assert OffsetAt(zone, at - 1) == before && OffsetAt(zone, at) == after;
    }
    StepExact(zone, w, at, before, after, t);
  }

  /** Only a skipped wall clock fails: one that falls in the gap some transition opens. The returned
      instant then reads exactly the size of the step away, earlier west of UTC and later east of it. */
  lemma SkippedHour(zone: Zone, bound: int, w: int) returns (at: int, before: int, after: int)
    requires Spaced(zone, bound) && !exists t :: Shows(zone, t, w)
    ensures before == OffsetAt(zone, at - 1) && after == OffsetAt(zone, at)
    ensures at + before <= w < at + after
    ensures var shown := TwoPass(zone, w) + OffsetAt(zone, TwoPass(zone, w));
            if w < at then shown == w - (after - before) else shown == w + (after - before)
    ensures after <= 0 ==> w < at
    ensures before >= 0 ==> at <= w
  {
    at, before, after := WindowHasOneStep(zone, bound, w - bound, w + bound);
    assert OffsetAt(zone, w) == (if w < at then before else after);
    assert OffsetAt(zone, w - before) == (if w - before < at then before else after);
    assert OffsetAt(zone, w - after) == (if w - after < at then before else after);
    assert !Shows(zone, w - before, w) && !Shows(zone, w - after, w);
    assert OffsetAt(zone, at - 1) == before;
  }

  /** The spacing hypothesis is needed: in an artificial zone with transitions closer together than its
      offsets are wide, an instant reads as the wall clock and the two passes still miss it. */
  lemma CrowdedZoneMisses()
    ensures var zone := Zone(3, [Transition(-1, 2), Transition(0, 1), Transition(4, -4)]);
            Shows(zone, 4, 0) && !Shows(zone, TwoPass(zone, 0), 0)
  {
    var zone := Zone(3, [Transition(-1, 2), Transition(0, 1), Transition(4, -4)]);
    var one := Zone(2, [Transition(0, 1), Transition(4, -4)]);
    var two := Zone(1, [Transition(4, -4)]);
    assert zone.transitions[1..] == one.transitions && one.transitions[1..] == two.transitions;
    assert OffsetAt(two, 4) == -4 && OffsetAt(one, 4) == -4 && OffsetAt(zone, 4) == -4;
    assert OffsetAt(two, 0) == 1 && OffsetAt(one, 0) == 1 && OffsetAt(zone, 0) == 1;
    assert OffsetAt(one, -1) == 2 && OffsetAt(zone, -1) == 2;
    assert OffsetAt(zone, -2) == 3;
  }

  // ---- reading the stored date and time ----------------------------------------------------

  datatype DateInput = Missing | NotADate | LocalParts(year: int, month: int, day: int) | DateText(s: string)

  predicate DigitsAt(s: string, i: nat, n: nat) {
    i + n <= |s| && forall k :: i <= k < i + n ==> IsDigit(s[k])
  }

  function NumberAt(s: string, i: nat, n: nat): (r: nat)
    requires DigitsAt(s, i, n)
  {
    if n == 0 then 0 else NumberAt(s, i, n - 1) * 10 + ((s[i + n - 1] as int) - ('0' as int))
  }

  /** `TIME_PATTERN`: one or two digits, a colon, two digits; anything may follow. */
  function ReadTime(s: string): Option<(nat, nat)> {
    if DigitsAt(s, 0, 2) && |s| > 2 && s[2] == ':' && DigitsAt(s, 3, 2) then
      Some((NumberAt(s, 0, 2), NumberAt(s, 3, 2)))
    else if DigitsAt(s, 0, 1) && |s| > 1 && s[1] == ':' && DigitsAt(s, 2, 2) then
      Some((NumberAt(s, 0, 1), NumberAt(s, 2, 2)))
    else None
  }

  /** `DATE_PATTERN`: four digits, two, two, with dashes; anything may follow. */
  function ReadDate(s: string): Option<(nat, nat, nat)> {
    if DigitsAt(s, 0, 4) && |s| > 7 && s[4] == '-' && DigitsAt(s, 5, 2) && s[7] == '-' && DigitsAt(s, 8, 2)
    then Some((NumberAt(s, 0, 4), NumberAt(s, 5, 2), NumberAt(s, 8, 2))) else None
  }

  function CalendarParts(date: DateInput): Option<(int, int, int)> {
    match date
    case Missing => None
    case NotADate => None
    case LocalParts(y, m, d) => Some((y, m, d))
    case DateText(s) => var parts := ReadDate(s);
                        if parts.None? then None else Some((parts.value.0, parts.value.1, parts.value.2))
  }

  /** The published wall clock as `Date.UTC` of its parts, when both parts can be read. */
  function WallClock(date: DateInput, time: Option<string>): Option<int> {
    if time.None? then None
    else
      var clock, parts := ReadTime(Trim(time.value)), CalendarParts(date);
      if clock.None? || clock.value.0 > 23 || clock.value.1 > 59 || parts.None? then None
      else Some(DateUtc(parts.value.0, parts.value.1 - 1, parts.value.2, clock.value.0, clock.value.1))
  }

  /** `scheduledInstant`; an unknown zone is `None`. */
  function ScheduledInstant(date: DateInput, time: Option<string>, zone: Option<Zone>): Option<int> {
    if date.Missing? || time.None? then None
    else
      var clock := ReadTime(Trim(time.value));
      if clock.None? then None
      else if clock.value.0 > 23 || clock.value.1 > 59 then None
      else
        var parts := CalendarParts(date);
        if parts.None? then None
        else
          var w := DateUtc(parts.value.0, parts.value.1 - 1, parts.value.2, clock.value.0, clock.value.1);
          if zone.None? then None else Some(TwoPass(zone.value, w))
  }

  /** A meeting gets an instant exactly when its wall clock can be read and its zone is known; that
      instant then reads as the wall clock whenever any instant does. */
  lemma ScheduledInstantExact(date: DateInput, time: Option<string>, zone: Option<Zone>, bound: int)
    requires zone.Some? ==> Spaced(zone.value, bound)
    ensures var wall, instant := WallClock(date, time), ScheduledInstant(date, time, zone);
            && (instant.Some? <==> wall.Some? && zone.Some?)
            && (instant.Some? && (exists t :: Shows(zone.value, t, wall.value)) ==>
                Shows(zone.value, instant.value, wall.value))
  {
    var wall := WallClock(date, time);
    if wall.Some? && zone.Some? {
      TwoPassExact(zone.value, bound, wall.value);
    }
  }
}
