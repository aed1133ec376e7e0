/** What a published date and time read as, told by printing them: every text the two patterns accept begins
    with the printed parts, and the instant is the wall clock those parts spell
    (backend/src/services/agenda-diff.ts). */
module PublishedTime {
  import opened MeetingInstant
  import opened Options
  import opened Text

  // ---- printed numbers --------------------------------------------------------------------

  function DigitChar(d: nat): char
    requires d < 10
  {
    ('0' as int + d) as char
  }

  /** `n` in decimal, `width` digits wide. */
  function Digits(n: nat, width: nat): (s: string)
    ensures |s| == width
  {
    if width == 0 then "" else Digits(n / 10, width - 1) + [DigitChar(n % 10)]
  }

  function Pow10(width: nat): nat { if width == 0 then 1 else 10 * Pow10(width - 1) }

  lemma WidthsInUse()
    ensures Pow10(1) == 10 && Pow10(2) == 100 && Pow10(4) == 10_000
  {
    assert Pow10(3) == 1_000;
  }

  /** Printed digits read back as the number they print. */
  lemma {:induction false} DigitsReadBack(s: string, i: nat, n: nat, width: nat)
    requires n < Pow10(width) && i + width <= |s| && s[i..i + width] == Digits(n, width)
    ensures DigitsAt(s, i, width) && NumberAt(s, i, width) == n
    decreases width
  {
    if width == 0 {
    } else {
      var front := s[i..i + width];
      assert front[..width - 1] == Digits(n / 10, width - 1) == s[i..i + width - 1];
      assert s[i + width - 1] == front[width - 1] == DigitChar(n % 10);
      DigitsReadBack(s, i, n / 10, width - 1);
    }
  }

  /** Digits in a text are the printed form of the number they read as. */
  lemma {:induction false} NumberPrints(s: string, i: nat, width: nat)
    requires DigitsAt(s, i, width)
    ensures NumberAt(s, i, width) < Pow10(width) && s[i..i + width] == Digits(NumberAt(s, i, width), width)
    decreases width
  {
    if width == 0 {
    } else {
      NumberPrints(s, i, width - 1);
      assert IsDigit(s[i + width - 1]);
      assert s[i..i + width] == s[i..i + width - 1] + [s[i + width - 1]];
    }
  }

  // ---- dates ------------------------------------------------------------------------------

  function PrintedDate(y: nat, m: nat, d: nat): string { Digits(y, 4) + "-" + Digits(m, 2) + "-" + Digits(d, 2) }

  lemma DatePieces(s: string, y: nat, m: nat, d: nat)
    ensures PrintedDate(y, m, d) <= s <==>
              && |s| >= 10 && s[0..4] == Digits(y, 4) && s[4] == '-' && s[5..7] == Digits(m, 2) && s[7] == '-'
              && s[8..10] == Digits(d, 2)
  {
    hide Digits;
    var text := PrintedDate(y, m, d);
    assert text[0..4] == Digits(y, 4) && text[4] == '-' && text[5..7] == Digits(m, 2) && text[7] == '-';
    assert text[8..10] == Digits(d, 2);
    if text <= s {
      assert s[..10] == text;
      assert s[0..4] == text[0..4] && s[5..7] == text[5..7] && s[8..10] == text[8..10];
    }
    if |s| >= 10 && s[0..4] == Digits(y, 4) && s[4] == '-' && s[5..7] == Digits(m, 2) && s[7] == '-' &&
       s[8..10] == Digits(d, 2) {
      assert s[..10] == s[0..4] + "-" + s[5..7] + "-" + s[8..10];
    }
  }

  /** A text reads as a date exactly when it begins with that date printed: year, month, day. */
  lemma DateReads(s: string, y: nat, m: nat, d: nat)
    requires y < 10_000 && m < 100 && d < 100
    ensures ReadDate(s) == Some((y, m, d)) <==> PrintedDate(y, m, d) <= s
  {
    hide Digits, PrintedDate, NumberAt, Pow10;
    WidthsInUse();
    DatePieces(s, y, m, d);
    if ReadDate(s) == Some((y, m, d)) {
      NumberPrints(s, 0, 4);
      NumberPrints(s, 5, 2);
      NumberPrints(s, 8, 2);
    }
    if PrintedDate(y, m, d) <= s {
      DigitsReadBack(s, 0, y, 4);
      DigitsReadBack(s, 5, m, 2);
      DigitsReadBack(s, 8, d, 2);
    }
  }

  lemma ReadDateInRange(s: string)
    requires ReadDate(s).Some?
    ensures ReadDate(s).value.0 < 10_000 && ReadDate(s).value.1 < 100 && ReadDate(s).value.2 < 100
  {
    hide Digits, NumberAt, Pow10;
    WidthsInUse();
    NumberPrints(s, 0, 4);
    NumberPrints(s, 5, 2);
    NumberPrints(s, 8, 2);
  }

  // ---- times ------------------------------------------------------------------------------

  /** A time with an hour `width` digits wide. */
  function PrintedTime(hour: nat, width: nat, minute: nat): string { Digits(hour, width) + ":" + Digits(minute, 2) }

  lemma TimePieces(s: string, hour: nat, width: nat, minute: nat)
    ensures PrintedTime(hour, width, minute) <= s <==>
              && |s| >= width + 3 && s[0..width] == Digits(hour, width) && s[width] == ':'
              && s[width + 1..width + 3] == Digits(minute, 2)
  {
    hide Digits;
    var text := PrintedTime(hour, width, minute);
    assert text[0..width] == Digits(hour, width) && text[width] == ':';
    assert text[width + 1..width + 3] == Digits(minute, 2);
    if text <= s {
      assert s[..width + 3] == text;
      assert s[0..width] == text[0..width] && s[width + 1..width + 3] == text[width + 1..width + 3];
    }
    if |s| >= width + 3 && s[0..width] == Digits(hour, width) && s[width] == ':' &&
       s[width + 1..width + 3] == Digits(minute, 2) {
      assert s[..width + 3] == s[0..width] + ":" + s[width + 1..width + 3];
    }
  }

  /** The text begins with the time printed, its hour in one digit or in two. */
  predicate BeginsWithTime(s: string, hour: nat, minute: nat) {
    PrintedTime(hour, 2, minute) <= s || (hour < 10 && PrintedTime(hour, 1, minute) <= s)
  }

  lemma TimeOfWidth(s: string, hour: nat, width: nat, minute: nat)
    requires width in {1, 2} && hour < Pow10(width) && minute < 100
    ensures PrintedTime(hour, width, minute) <= s <==>
              && DigitsAt(s, 0, width) && |s| > width && s[width] == ':' && DigitsAt(s, width + 1, 2)
              && NumberAt(s, 0, width) == hour && NumberAt(s, width + 1, 2) == minute
  {
    hide Digits, PrintedTime, NumberAt, Pow10;
    WidthsInUse();
    TimePieces(s, hour, width, minute);
    if DigitsAt(s, 0, width) && |s| > width && s[width] == ':' && DigitsAt(s, width + 1, 2) {
      NumberPrints(s, 0, width);
      NumberPrints(s, width + 1, 2);
    }
    if PrintedTime(hour, width, minute) <= s {
      DigitsReadBack(s, 0, hour, width);
      DigitsReadBack(s, width + 1, minute, 2);
    }
  }

  /** A text reads as a time exactly when it begins with that time printed: hour, colon, minute. */
  lemma TimeReads(s: string, hour: nat, minute: nat)
    requires hour < 100 && minute < 100
    ensures ReadTime(s) == Some((hour, minute)) <==> BeginsWithTime(s, hour, minute)
  {
    WidthsInUse();
    TimeOfWidth(s, hour, 2, minute);
    if hour < 10 {
      TimeOfWidth(s, hour, 1, minute);
    }
    OneDigitHour(s);
    hide Digits, PrintedTime, NumberAt, Pow10;
  }

  lemma OneDigitHour(s: string)
    ensures DigitsAt(s, 0, 1) ==> NumberAt(s, 0, 1) < 10
    ensures |s| > 1 && s[1] == ':' ==> !DigitsAt(s, 0, 2)
  {
    if DigitsAt(s, 0, 1) {
      NumberPrints(s, 0, 1);
      WidthsInUse();
    }
    if DigitsAt(s, 0, 2) {
      assert IsDigit(s[1]);
    }
  }

  lemma ReadTimeInRange(s: string)
    requires ReadTime(s).Some?
    ensures ReadTime(s).value.0 < 100 && ReadTime(s).value.1 < 100
  {
    hide Digits, NumberAt, Pow10;
    WidthsInUse();
    var width := if DigitsAt(s, 0, 2) && |s| > 2 && s[2] == ':' && DigitsAt(s, 3, 2) then 2 else 1;
    NumberPrints(s, 0, width);
    NumberPrints(s, width + 1, 2);
  }

  // ---- the instant ------------------------------------------------------------------------

  /** The date a caller gives is the one with these parts: a local date, or text that begins with it. */
  ghost predicate Dated(date: DateInput, year: int, month: int, day: int) {
    match date
    case Missing => false
    case NotADate => false
    case LocalParts(y, m, d) => y == year && m == month && d == day
    case DateText(s) => 0 <= year < 10_000 && 0 <= month < 100 && 0 <= day < 100 && PrintedDate(year, month, day) <= s
  }

  /** The time is this one, white space around it aside. */
  ghost predicate Timed(time: Option<string>, hour: nat, minute: nat) {
    time.Some? && BeginsWithTime(Trim(time.value), hour, minute)
  }

  /** Milliseconds from the start of 1970 to a wall clock, on the calendar; a year of two digits is one of the
      twentieth century, and a month out of range carries into the years. */
  function OnTheCalendar(year: int, month: int, day: int, hour: int, minute: int): int {
    var y := if 0 <= year <= 99 then 1900 + year else year;
    ((CalendarDays(y + (month - 1) / 12, (month - 1) % 12 + 1, day) * 24 + hour) * 60 + minute) * 60_000
  }

  lemma DatedParts(date: DateInput, year: int, month: int, day: int)
    ensures CalendarParts(date) == Some((year, month, day)) <==> Dated(date, year, month, day)
  {
    hide PrintedDate, ReadDate;
    if date.DateText? {
      if ReadDate(date.s).Some? {
        ReadDateInRange(date.s);
      }
      if 0 <= year < 10_000 && 0 <= month < 100 && 0 <= day < 100 {
        DateReads(date.s, year, month, day);
      }
    }
  }

  lemma TimedParts(time: Option<string>, hour: nat, minute: nat)
    requires time.Some? && hour <= 23 && minute <= 59
    ensures ReadTime(Trim(time.value)) == Some((hour, minute)) <==> Timed(time, hour, minute)
  {
    hide PrintedTime, ReadTime, Trim;
    TimeReads(Trim(time.value), hour, minute);
  }

  /** A meeting whose date and time are given has as its instant one that shows that wall clock in its zone,
      if any instant does; without a known zone it has none. */
  lemma InstantShowsPrinted(date: DateInput, time: Option<string>, zone: Option<Zone>, bound: int,
                            year: int, month: int, day: int, hour: nat, minute: nat)
    requires Dated(date, year, month, day) && Timed(time, hour, minute) && hour <= 23 && minute <= 59
    requires zone.Some? ==> Spaced(zone.value, bound)
    ensures var instant, wall := ScheduledInstant(date, time, zone), OnTheCalendar(year, month, day, hour, minute);
            && (instant.Some? <==> zone.Some?)
            && (zone.Some? && (exists t :: Shows(zone.value, t, wall)) ==> Shows(zone.value, instant.value, wall))
  {
    hide ReadTime, Trim, CalendarDays, CalendarParts, DateUtc, Timed, Dated, TwoPass, Shows;
    DatedParts(date, year, month, day);
    TimeIsGiven(time, hour, minute);
    TimedParts(time, hour, minute);
    DateUtcCountsDays(year, month - 1, day, hour, minute);
    NotMissing(date, year, month, day);
    var wall := OnTheCalendar(year, month, day, hour, minute);
    assert DateUtc(year, month - 1, day, hour, minute) == wall;
    if zone.Some? {
      TwoPassExact(zone.value, bound, wall);
    }
  }

  lemma TimeIsGiven(time: Option<string>, hour: nat, minute: nat)
    requires Timed(time, hour, minute)
    ensures time.Some?
  {
  }

  lemma NotMissing(date: DateInput, year: int, month: int, day: int)
    requires Dated(date, year, month, day)
    ensures !date.Missing?
  {
  }

  /** And only such a meeting has one. */
  lemma InstantMeansPrinted(date: DateInput, time: Option<string>, zone: Option<Zone>)
    returns (year: int, month: int, day: int, hour: nat, minute: nat)
    requires ScheduledInstant(date, time, zone).Some?
    ensures zone.Some? && Dated(date, year, month, day) && Timed(time, hour, minute) && hour <= 23 && minute <= 59
  {
    hide ReadTime, Trim, CalendarParts, DateUtc, Timed, Dated, TwoPass;
    var clock, parts := ReadTime(Trim(time.value)).value, CalendarParts(date).value;
    year, month, day, hour, minute := parts.0, parts.1, parts.2, clock.0, clock.1;
    DatedParts(date, year, month, day);
    TimedParts(time, hour, minute);
  }
}
