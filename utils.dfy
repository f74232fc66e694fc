/** `seconds_to_date` (src/utils.rs): a `u32` count of seconds since
    1970-01-01 00:00:00 UTC, printed as `%Y-%m-%d %H:%M:%S.%f`.
    The calendar arithmetic the original delegates to chrono is written out
    here on integers: a proleptic-Gregorian calendar, a year search from 1970,
    a month table, and fixed-width decimal fields. */
module Utils {
  import opened Base

  const SecondsPerDay: nat := 86400

  /** chrono's `NaiveDate::MAX` year (`i32::MAX >> 13`). */
  const MaxYear: int := 262143

  /** chrono's leap-second-aware upper bound for the nanosecond argument. */
  const NanosLimit: nat := 2_000_000_000

  // ---------------------------------------------------------------------
  // Gregorian calendar
  // ---------------------------------------------------------------------

  predicate IsLeapYear(y: int)
  {
    y % 4 == 0 && (y % 100 != 0 || y % 400 == 0)
  }

  function DaysInYear(y: int): nat
  {
    if IsLeapYear(y) then 366 else 365
  }

  /** Month lengths, month by month. */
  function DaysInMonth(y: int, m: int): (r: nat)
    requires 1 <= m <= 12
    ensures 28 <= r <= 31
  {
    if m == 2 then (if IsLeapYear(y) then 29 else 28)
    else if m == 4 || m == 6 || m == 9 || m == 11 then 30
    else 31
  }

  /** Cumulative month table: days of year `y` before the first of month `m`
      (`m == 13` gives the length of the year). */
  function DaysBeforeMonth(y: int, m: int): (r: nat)
    requires 1 <= m <= 13
  {
    var leap := if IsLeapYear(y) then 1 else 0;
    if m == 1 then 0
    else if m == 2 then 31
    else if m == 3 then 59 + leap
    else if m == 4 then 90 + leap
    else if m == 5 then 120 + leap
    else if m == 6 then 151 + leap
    else if m == 7 then 181 + leap
    else if m == 8 then 212 + leap
    else if m == 9 then 243 + leap
    else if m == 10 then 273 + leap
    else if m == 11 then 304 + leap
    else if m == 12 then 334 + leap
    else 365 + leap
  }

  /** The cumulative table agrees with the month lengths and the year length. */
  lemma MonthTablesAgree(y: int, m: int)
    requires 1 <= m <= 12
    ensures DaysBeforeMonth(y, m + 1) == DaysBeforeMonth(y, m) + DaysInMonth(y, m)
    ensures DaysBeforeMonth(y, 13) == DaysInYear(y)
  {
  }

  lemma DaysBeforeMonthMonotone(y: int, m1: int, m2: int)
    requires 1 <= m1 <= m2 <= 13
    ensures DaysBeforeMonth(y, m1) <= DaysBeforeMonth(y, m2)
    decreases m2 - m1
  {
    if m1 < m2 {
      MonthTablesAgree(y, m1);
      DaysBeforeMonthMonotone(y, m1 + 1, m2);
    }
  }

  /** Days from 1970-01-01 to January 1st of year `y`: the lengths of the
      years in between, added up (subtracted for years before 1970). */
  function DaysBeforeYear(y: int): int
    decreases if y >= 1970 then y - 1970 else 1970 - y
  {
    if y == 1970 then 0
    else if y > 1970 then DaysBeforeYear(y - 1) + DaysInYear(y - 1)
    else DaysBeforeYear(y + 1) - DaysInYear(y)
  }

  lemma DaysBeforeNextYear(y: int)
    ensures DaysBeforeYear(y + 1) == DaysBeforeYear(y) + DaysInYear(y)
  {
  }

  /** From 1970 on, the count has the closed form whose leap-day terms
      section 4.16 of POSIX.1-2017 Base Definitions ("Seconds Since the
      Epoch") uses, written for the calendar year `y = tm_year + 1900`. */
  lemma {:induction false} DaysBeforeYearClosedForm(y: int)
    requires y >= 1970
    ensures DaysBeforeYear(y) == 365 * (y - 1970) + (y - 1969) / 4 - (y - 1901) / 100 + (y - 1601) / 400
    decreases y - 1970
  {
    if y > 1970 {
      DaysBeforeYearClosedForm(y - 1);
      LeapTermsStep(y - 1);
    }
  }

  /** The leap-day terms of the closed form grow by one exactly after a
      leap year. */
  lemma LeapTermsStep(p: int)
    ensures ((p - 1968) / 4 - (p - 1900) / 100 + (p - 1600) / 400)
            - ((p - 1969) / 4 - (p - 1901) / 100 + (p - 1601) / 400)
            == DaysInYear(p) - 365
  {
    DivStep4(p - 1969);
    DivStep100(p - 1901);
    DivStep400(p - 1601);
    CenturyShifts(p);
  }

  /** The leap-year cycles are 4, 100 and 400 years long. */
  lemma CenturyShifts(p: int)
    ensures (p - 1968) % 4 == p % 4
    ensures (p - 1900) % 100 == p % 100
    ensures (p - 1600) % 400 == p % 400
  {
    assert p - 1968 == p + 4 * (-492);
    assert p - 1900 == p + 100 * (-19);
    assert p - 1600 == p + 400 * (-4);
  }

  lemma DivStep4(x: int)
    ensures (x + 1) / 4 == x / 4 + (if (x + 1) % 4 == 0 then 1 else 0)
  {
  }

  lemma DivStep100(x: int)
    ensures (x + 1) / 100 == x / 100 + (if (x + 1) % 100 == 0 then 1 else 0)
  {
  }

  lemma DivStep400(x: int)
    ensures (x + 1) / 400 == x / 400 + (if (x + 1) % 400 == 0 then 1 else 0)
  {
  }

  lemma {:induction false} DaysBeforeYearGrows(y1: int, y2: int)
    requires y1 <= y2
    ensures DaysBeforeYear(y1) + 365 * (y2 - y1) <= DaysBeforeYear(y2)
    decreases y2 - y1
  {
    if y1 < y2 {
      DaysBeforeNextYear(y1);
      DaysBeforeYearGrows(y1 + 1, y2);
    }
  }

  /** The year holding day `days` counted from January 1st of year `y`, and
      the zero-based day of that year. */
  function YearOfDay(days: nat, y: int): (r: (int, nat))
    ensures y <= r.0 && r.1 < DaysInYear(r.0)
    ensures DaysBeforeYear(r.0) + r.1 == DaysBeforeYear(y) + days
    decreases days
  {
    if days < DaysInYear(y) then (y, days)
    else
      DaysBeforeNextYear(y);
      YearOfDay(days - DaysInYear(y), y + 1)
  }

  /** The month holding zero-based day `doy` of year `y`, searched from `m`. */
  function MonthOfDay(y: int, doy: nat, m: int): (r: int)
    requires 1 <= m <= 12 && DaysBeforeMonth(y, m) <= doy < DaysInYear(y)
    ensures m <= r <= 12
    ensures DaysBeforeMonth(y, r) <= doy < DaysBeforeMonth(y, r + 1)
    decreases 12 - m
  {
    if doy < DaysBeforeMonth(y, m + 1) then m else MonthOfDay(y, doy, m + 1)
  }

  datatype Date = Date(year: int, month: int, day: int)

  predicate ValidDate(d: Date)
  {
    1 <= d.month <= 12 && 1 <= d.day <= DaysInMonth(d.year, d.month)
  }

  /** Days from 1970-01-01 to `d`. */
  function DayNumber(d: Date): int
    requires 1 <= d.month <= 12
  {
    DaysBeforeYear(d.year) + DaysBeforeMonth(d.year, d.month) + d.day - 1
  }

  /** The proleptic-Gregorian date `days` days after 1970-01-01. */
  function CivilFromDays(days: nat): (d: Date)
    ensures ValidDate(d) && d.year >= 1970
    ensures DayNumber(d) == days
  {
    var (y, doy) := YearOfDay(days, 1970);
    var m := MonthOfDay(y, doy, 1);
    MonthTablesAgree(y, m);
    Date(y, m, doy - DaysBeforeMonth(y, m) + 1)
  }

  /** A valid date from 1970 on is determined by its day number: the
      counting in `CivilFromDays` finds the only date there is. */
  lemma CivilUnique(d: Date, days: nat)
    requires ValidDate(d) && d.year >= 1970 && DayNumber(d) == days
    ensures CivilFromDays(days) == d
  {
    var c := CivilFromDays(days);
    SameYear(c, d);
    SameMonth(c, d);
  }

  /** Two valid dates with the same day number lie in the same year ... */
  lemma SameYear(a: Date, b: Date)
    requires ValidDate(a) && ValidDate(b) && DayNumber(a) == DayNumber(b)
    ensures a.year == b.year
  {
    YearBounds(a);
    YearBounds(b);
    if a.year < b.year {
      DaysBeforeNextYear(a.year);
      DaysBeforeYearGrows(a.year + 1, b.year);
    } else if b.year < a.year {
      DaysBeforeNextYear(b.year);
      DaysBeforeYearGrows(b.year + 1, a.year);
    }
  }

  /** ... and, within one year, in the same month. */
  lemma SameMonth(a: Date, b: Date)
    requires ValidDate(a) && ValidDate(b) && DayNumber(a) == DayNumber(b) && a.year == b.year
    ensures a.month == b.month
  {
    MonthBounds(a);
    MonthBounds(b);
    if a.month < b.month {
      DaysBeforeMonthMonotone(a.year, a.month + 1, b.month);
    } else if b.month < a.month {
      DaysBeforeMonthMonotone(b.year, b.month + 1, a.month);
    }
  }

  lemma YearBounds(d: Date)
    requires ValidDate(d)
    ensures DaysBeforeYear(d.year) <= DayNumber(d) < DaysBeforeYear(d.year) + DaysInYear(d.year)
  {
    MonthTablesAgree(d.year, d.month);
    DaysBeforeMonthMonotone(d.year, d.month + 1, 13);
  }

  lemma MonthBounds(d: Date)
    requires ValidDate(d)
    ensures DaysBeforeMonth(d.year, d.month) <= DayNumber(d) - DaysBeforeYear(d.year)
            < DaysBeforeMonth(d.year, d.month + 1)
  {
    MonthTablesAgree(d.year, d.month);
  }

  /** The calendar day after `d`. */
  function NextDay(d: Date): (r: Date)
    requires ValidDate(d)
    ensures ValidDate(r)
  {
    if d.day < DaysInMonth(d.year, d.month) then Date(d.year, d.month, d.day + 1)
    else if d.month < 12 then Date(d.year, d.month + 1, 1)
    else Date(d.year + 1, 1, 1)
  }

  /** Counting one more day from the epoch is taking the next calendar day. */
  lemma CivilNextDay(days: nat)
    ensures CivilFromDays(days + 1) == NextDay(CivilFromDays(days))
  {
    var d := CivilFromDays(days);
    var n := NextDay(d);
    MonthTablesAgree(d.year, d.month);
    if d.day == DaysInMonth(d.year, d.month) && d.month == 12 {
      DaysBeforeNextYear(d.year);
    }
    CivilUnique(n, days + 1);
  }

  /** From 1970 on, a year starts at least 365 days after the previous one. */
  lemma CivilYearBound(days: nat)
    ensures CivilFromDays(days).year <= 1970 + days / 365
  {
    var d := CivilFromDays(days);
    DaysBeforeYearGrows(1970, d.year);
  }

  // ---------------------------------------------------------------------
  // chrono's NaiveDateTime::from_timestamp_opt, for non-negative seconds
  // ---------------------------------------------------------------------

  datatype DateTime = DateTime(date: Date, hour: int, minute: int, second: int, nanosecond: int)

  /** `None` when the nanoseconds are out of range or the date lies beyond
      chrono's last representable year; the time of day is split as
      hours, minutes and seconds of `secs mod 86400`. */
  function FromTimestampOpt(secs: nat, nsecs: nat): (r: Option<DateTime>)
    ensures r.Some? ==> ValidDate(r.value.date) && DayNumber(r.value.date) == secs / SecondsPerDay
    ensures r.Some? ==> 0 <= r.value.hour < 24 && 0 <= r.value.minute < 60 && 0 <= r.value.second < 60
    ensures r.Some? ==> r.value.hour * 3600 + r.value.minute * 60 + r.value.second == secs % SecondsPerDay
    ensures r.Some? ==> r.value.nanosecond == nsecs
  {
    var date := CivilFromDays(secs / SecondsPerDay);
    var sod := secs % SecondsPerDay;
    MinuteOfHour(sod);
    if nsecs >= NanosLimit || date.year > MaxYear then None
    else Some(DateTime(date, sod / 3600, sod / 60 % 60, sod % 60, nsecs))
  }

  /** The `unwrap` in `seconds_to_date` never fails: every `u32` epoch lies
      in 1970..2106. */
  lemma FromTimestampTotal(epoch: U32)
    ensures FromTimestampOpt(epoch, 0).Some?
    ensures 1970 <= FromTimestampOpt(epoch, 0).value.date.year <= 2106
  {
    CivilYearBound(epoch / SecondsPerDay);
  }

  // ---------------------------------------------------------------------
  // Fixed-width decimal fields and the `%Y-%m-%d %H:%M:%S.%f` format
  // ---------------------------------------------------------------------

  predicate IsDigit(c: char)
  {
    '0' <= c <= '9'
  }

  predicate AllDigits(s: string)
  {
    forall i :: 0 <= i < |s| ==> IsDigit(s[i])
  }

  function DigitChar(d: nat): (c: char)
    requires d < 10
    ensures IsDigit(c)
  {
    ('0' as int + d) as char
  }

  function DigitValue(c: char): nat
    requires IsDigit(c)
  {
    c as int - '0' as int
  }

  function Pow10(k: nat): (r: nat)
    ensures r >= 1
  {
    if k == 0 then 1 else 10 * Pow10(k - 1)
  }

  /** The last `width` decimal digits of `n`, zero-padded on the left. */
  function Digits(n: nat, width: nat): (s: string)
    ensures |s| == width
  {
    if width == 0 then "" else Digits(n / 10, width - 1) + [DigitChar(n % 10)]
  }

  lemma {:induction false} DigitsAreDigits(n: nat, width: nat)
    ensures AllDigits(Digits(n, width))
  {
    if width > 0 {
      DigitsAreDigits(n / 10, width - 1);
    }
  }

  /** Reads a string of decimal digits as a number. */
  function ParseDigits(s: string): nat
    requires AllDigits(s)
  {
    if s == [] then 0 else 10 * ParseDigits(s[..|s| - 1]) + DigitValue(s[|s| - 1])
  }

  /** Formatting a number in a field wide enough for it loses nothing. */
  lemma {:induction false} DigitsRoundTrip(n: nat, width: nat)
    requires n < Pow10(width)
    ensures AllDigits(Digits(n, width))
    ensures ParseDigits(Digits(n, width)) == n
  {
    DigitsAreDigits(n, width);
    if width > 0 {
      var s := Digits(n, width);
      assert s[..|s| - 1] == Digits(n / 10, width - 1);
      DigitsRoundTrip(n / 10, width - 1);
    }
  }

  /** `%Y-%m-%d`, for years 0..9999. */
  function DateText(d: Date): string
    requires 0 <= d.year < 10000 && 0 <= d.month && 0 <= d.day
  {
    Digits(d.year, 4) + "-" + Digits(d.month, 2) + "-" + Digits(d.day, 2)
  }

  /** `%H:%M:%S.%f`, the fraction as nine digits of nanoseconds. */
  function TimeText(hour: nat, minute: nat, second: nat, nanosecond: nat): string
  {
    Digits(hour, 2) + ":" + Digits(minute, 2) + ":" + Digits(second, 2)
    + "." + Digits(nanosecond % 1_000_000_000, 9)
  }

  /** `%Y-%m-%d %H:%M:%S.%f`. */
  function FormatDateTime(t: DateTime): string
    requires 0 <= t.date.year < 10000 && 0 <= t.date.month && 0 <= t.date.day
    requires 0 <= t.hour && 0 <= t.minute && 0 <= t.second && 0 <= t.nanosecond
  {
    DateText(t.date) + " " + TimeText(t.hour, t.minute, t.second, t.nanosecond)
  }

  /** The fixed shapes `YYYY-MM-DD`, `HH:MM:SS.fffffffff` and the two
      joined by one space. */
  predicate IsDateText(s: string)
  {
    |s| == 10 && s[4] == '-' && s[7] == '-'
    && AllDigits(s[0..4]) && AllDigits(s[5..7]) && AllDigits(s[8..10])
  }

  predicate IsTimeText(s: string)
  {
    |s| == 18 && s[2] == ':' && s[5] == ':' && s[8] == '.'
    && AllDigits(s[0..2]) && AllDigits(s[3..5]) && AllDigits(s[6..8]) && AllDigits(s[9..18])
  }

  predicate IsDateTimeText(s: string)
  {
    |s| == 29 && IsDateText(s[..10]) && s[10] == ' ' && IsTimeText(s[11..])
  }

  /** Reads the fields of texts of those shapes back. */
  function ParseDate(s: string): Date
    requires IsDateText(s)
  {
    Date(ParseDigits(s[0..4]), ParseDigits(s[5..7]), ParseDigits(s[8..10]))
  }

  function ParseDateTime(s: string): DateTime
    requires IsDateTimeText(s)
  {
    var time := s[11..];
    DateTime(ParseDate(s[..10]), ParseDigits(time[0..2]), ParseDigits(time[3..5]),
             ParseDigits(time[6..8]), ParseDigits(time[9..18]))
  }

  lemma DateTextRoundTrip(d: Date)
    requires 0 <= d.year < 10000 && 0 <= d.month < 100 && 0 <= d.day < 100
    ensures IsDateText(DateText(d)) && ParseDate(DateText(d)) == d
  {
    var s := DateText(d);
    var y, m, dd := Digits(d.year, 4), Digits(d.month, 2), Digits(d.day, 2);
    assert s[0..4] == y && s[5..7] == m && s[8..10] == dd;
    assert Pow10(4) == 10000 && Pow10(2) == 100;
    DigitsRoundTrip(d.year, 4);
    DigitsRoundTrip(d.month, 2);
    DigitsRoundTrip(d.day, 2);
  }

  /** Where each field of a time text sits. */
  lemma TimeTextPieces(hour: nat, minute: nat, second: nat, nanosecond: nat)
    ensures var s := TimeText(hour, minute, second, nanosecond);
            |s| == 18 && s[2] == ':' && s[5] == ':' && s[8] == '.'
            && s[0..2] == Digits(hour, 2) && s[3..5] == Digits(minute, 2) && s[6..8] == Digits(second, 2)
            && s[9..18] == Digits(nanosecond % 1_000_000_000, 9)
  {
    var s := TimeText(hour, minute, second, nanosecond);
    var h, m, sec, f := Digits(hour, 2), Digits(minute, 2), Digits(second, 2), Digits(nanosecond % 1_000_000_000, 9);
    assert forall i | 0 <= i < 2 :: s[i] == h[i] && s[3 + i] == m[i] && s[6 + i] == sec[i];
    assert forall i | 0 <= i < 9 :: s[9 + i] == f[i];
    assert s[0..2] == h;
    assert s[3..5] == m;
    assert s[6..8] == sec;
    assert s[9..18] == f;
  }

  lemma TimeTextRoundTrip(hour: nat, minute: nat, second: nat, nanosecond: nat)
    requires hour < 100 && minute < 100 && second < 100 && nanosecond < 1_000_000_000
    ensures IsTimeText(TimeText(hour, minute, second, nanosecond))
    ensures var s := TimeText(hour, minute, second, nanosecond);
            ParseDigits(s[0..2]) == hour && ParseDigits(s[3..5]) == minute
            && ParseDigits(s[6..8]) == second && ParseDigits(s[9..18]) == nanosecond
  {
    assert nanosecond % 1_000_000_000 == nanosecond;
    TimeTextPieces(hour, minute, second, nanosecond);
    assert Pow10(2) == 100 && Pow10(9) == 1_000_000_000;
    DigitsRoundTrip(hour, 2);
    DigitsRoundTrip(minute, 2);
    DigitsRoundTrip(second, 2);
    DigitsRoundTrip(nanosecond, 9);
  }

  /** Every date and time with fields in range prints in the fixed shape,
      and reading the text back gives the same fields. */
  lemma FormatDateTimeRoundTrip(t: DateTime)
    requires 0 <= t.date.year < 10000 && 0 <= t.date.month < 100 && 0 <= t.date.day < 100
    requires 0 <= t.hour < 100 && 0 <= t.minute < 100 && 0 <= t.second < 100
    requires 0 <= t.nanosecond < 1_000_000_000
    ensures IsDateTimeText(FormatDateTime(t))
    ensures ParseDateTime(FormatDateTime(t)) == t
  {
    var s := FormatDateTime(t);
    assert s[..10] == DateText(t.date);
    assert s[11..] == TimeText(t.hour, t.minute, t.second, t.nanosecond);
    DateTextRoundTrip(t.date);
    TimeTextRoundTrip(t.hour, t.minute, t.second, t.nanosecond);
  }

  /** Splitting seconds into days and a time of day, as chrono does. */
  lemma SplitSecondsOfDay(e: nat)
    ensures e % 86400 / 60 % 60 == e % 3600 / 60
    ensures e % 86400 % 60 == e % 60
    ensures e % 86400 / 3600 * 3600 + e % 86400 / 60 % 60 * 60 + e % 86400 % 60 == e % 86400
    ensures e / 86400 * 86400 + e % 86400 == e
  {
    HourOfDayRemainder(e);
    SecondOfDay(e);
    MinuteOfHour(e % 86400);
  }

  lemma HourOfDayRemainder(e: nat)
    ensures e % 86400 % 3600 == e % 3600
  {
    var q, sod := e / 86400, e % 86400;
    assert e == 86400 * q + sod;
    assert sod == 3600 * (sod / 3600) + sod % 3600;
    assert e == 3600 * (24 * q + sod / 3600) + sod % 3600;
  }

  lemma SecondOfDay(e: nat)
    ensures e % 86400 % 60 == e % 60
  {
    var q, sod := e / 86400, e % 86400;
    assert e == 86400 * q + sod;
    assert sod == 60 * (sod / 60) + sod % 60;
    assert e == 60 * (1440 * q + sod / 60) + sod % 60;
  }

  /** Within a day, the minute of the hour and the second of the minute. */
  lemma MinuteOfHour(sod: nat)
    ensures sod / 60 % 60 == sod % 3600 / 60
    ensures sod % 60 == sod % 3600 % 60
    ensures sod / 3600 * 3600 + sod % 3600 / 60 * 60 + sod % 60 == sod
  {
    var h, r := sod / 3600, sod % 3600;
    assert sod / 60 == 60 * h + r / 60;
    assert sod == 60 * (60 * h + r / 60) + r % 60;
  }

  function EpochDateTime(epoch: U32): (t: DateTime)
    ensures ValidDate(t.date) && 1970 <= t.date.year <= 2106
    ensures DayNumber(t.date) == epoch / 86400
    ensures t.hour == epoch % 86400 / 3600
    ensures t.minute == epoch % 3600 / 60
    ensures t.second == epoch % 60
    ensures t.nanosecond == 0
  {
    FromTimestampTotal(epoch);
    SplitSecondsOfDay(epoch);
    FromTimestampOpt(epoch, 0).value
  }

  /** `seconds_to_date`: total on `u32`. */
  function SecondsToDate(epoch: U32): (s: string)
    ensures |s| == 29
  {
    FormatDateTime(EpochDateTime(epoch))
  }

  /** The text has the fixed shape, its fields read back as the date and
      time of `epoch`, and its fraction is `000000000`. */
  lemma SecondsToDateFields(epoch: U32)
    ensures IsDateTimeText(SecondsToDate(epoch))
    ensures ParseDateTime(SecondsToDate(epoch)) == EpochDateTime(epoch)
    ensures SecondsToDate(epoch)[20..] == "000000000"
  {
    var t := EpochDateTime(epoch);
    FormatDateTimeRoundTrip(t);
    var s := SecondsToDate(epoch);
    var time := TimeText(t.hour, t.minute, t.second, 0);
    assert s[11..] == time;
    TimeTextPieces(t.hour, t.minute, t.second, 0);
    NineZeros();
    assert s[20..] == time[9..18];
  }

  // ---------------------------------------------------------------------
  // The meaning of the text: POSIX "Seconds Since the Epoch"
  // ---------------------------------------------------------------------

  /** C's `/`, which truncates toward zero. */
  function TruncDiv(a: int, b: int): int
    requires b > 0
  {
    if a >= 0 then a / b else -((-a) / b)
  }

  /** The expression of section 4.16 of POSIX.1-2017 Base Definitions, on
      the broken-down time `t` (`tm_year = year - 1900`, `tm_yday` the
      zero-based day of the year). */
  function PosixSeconds(t: DateTime): int
    requires 1 <= t.date.month <= 12
  {
    var tmYear := t.date.year - 1900;
    var tmYday := DaysBeforeMonth(t.date.year, t.date.month) + t.date.day - 1;
    t.second + t.minute * 60 + t.hour * 3600 + tmYday * 86400 + (tmYear - 70) * 31536000
    + TruncDiv(tmYear - 69, 4) * 86400 - TruncDiv(tmYear - 1, 100) * 86400
    + TruncDiv(tmYear + 299, 400) * 86400
  }

  /** From 1970 on the POSIX expression counts the days before the date and
      the seconds of the day. */
  lemma PosixSecondsOfDate(t: DateTime)
    requires ValidDate(t.date) && t.date.year >= 1970
    ensures PosixSeconds(t) == DayNumber(t.date) * 86400 + t.hour * 3600 + t.minute * 60 + t.second
  {
    DaysBeforeYearClosedForm(t.date.year);
  }

  /** Reading the printed text back and evaluating the POSIX expression on
      it gives the epoch that was printed. */
  lemma SecondsToDateMeansEpoch(epoch: U32)
    ensures IsDateTimeText(SecondsToDate(epoch))
    ensures ValidDate(ParseDateTime(SecondsToDate(epoch)).date)
    ensures PosixSeconds(ParseDateTime(SecondsToDate(epoch))) == epoch
  {
    SecondsToDateFields(epoch);
    var t := EpochDateTime(epoch);
    PosixSecondsOfDate(t);
    SplitSecondsOfDay(epoch);
  }

  /** The time of day is printed after the date and one space. */
  lemma FormatDateTimeParts(t: DateTime)
    requires 0 <= t.date.year < 10000 && 0 <= t.date.month && 0 <= t.date.day
    requires 0 <= t.hour && 0 <= t.minute && 0 <= t.second && 0 <= t.nanosecond
    ensures FormatDateTime(t)[..10] == DateText(t.date)
    ensures FormatDateTime(t)[11..] == TimeText(t.hour, t.minute, t.second, t.nanosecond)
  {
  }

  /** Adding one day of seconds advances the date by one calendar day and
      leaves `HH:MM:SS.fffffffff` unchanged. */
  lemma SecondsToDateNextDay(epoch: U32)
    requires epoch + 86400 < 0x1_0000_0000
    ensures EpochDateTime(epoch + 86400).date == NextDay(EpochDateTime(epoch).date)
    ensures SecondsToDate(epoch + 86400)[11..] == SecondsToDate(epoch)[11..]
  {
    var later: U32 := epoch + 86400;
    var n := epoch / 86400;
    assert later / 86400 == n + 1;
    assert later % 86400 == epoch % 86400;
    var t, t' := EpochDateTime(epoch), EpochDateTime(later);
    CivilUnique(t.date, n);
    CivilUnique(t'.date, n + 1);
    CivilNextDay(n);
    SplitSecondsOfDay(epoch);
    SplitSecondsOfDay(later);
    assert (t.hour, t.minute, t.second, t.nanosecond) == (t'.hour, t'.minute, t'.second, t'.nanosecond);
    FormatDateTimeParts(t);
    FormatDateTimeParts(t');
  }

  /** The unit test of `seconds_to_date`. */
  lemma SecondsToDateExample(epoch: U32)
    requires epoch == 1669899600
    ensures SecondsToDate(epoch) == "2022-12-01 13:00:00.000000000"
  {
    ExampleDateTime(epoch);
    ExampleText(EpochDateTime(epoch));
  }

  lemma ExampleText(t: DateTime)
    requires t == DateTime(Date(2022, 12, 1), 13, 0, 0, 0)
    ensures FormatDateTime(t) == "2022-12-01 13:00:00.000000000"
  {
    ExampleDateText();
    ExampleTimeText();
  }

  lemma ExampleDateTime(epoch: U32)
    requires epoch == 1669899600
    ensures EpochDateTime(epoch) == DateTime(Date(2022, 12, 1), 13, 0, 0, 0)
  {
    ExampleDate(epoch, Date(2022, 12, 1));
    ExampleTimeOfDay(epoch);
  }

  // The date is passed in rather than written out so that the verifier does
  // not expand the year count from 1970 literally.
  lemma ExampleDate(epoch: U32, d: Date)
    requires epoch == 1669899600 && d == Date(2022, 12, 1)
    ensures EpochDateTime(epoch).date == d
  {
    assert epoch == 86400 * 19327 + 46800;
    DaysBeforeYearClosedForm(d.year);
    CivilUnique(d, epoch / 86400);
    CivilUnique(EpochDateTime(epoch).date, epoch / 86400);
  }

  lemma ExampleTimeOfDay(epoch: U32)
    requires epoch == 1669899600
    ensures EpochDateTime(epoch).hour == 13
    ensures EpochDateTime(epoch).minute == 0 && EpochDateTime(epoch).second == 0
  {
    assert epoch == 86400 * 19327 + 46800;
    assert epoch == 3600 * 463861;
    assert epoch == 60 * 27831660;
  }

  lemma ExampleDateText()
    ensures DateText(Date(2022, 12, 1)) == "2022-12-01"
  {
    assert Digits(2022, 4) == "2022";
    assert Digits(12, 2) == "12";
    assert Digits(1, 2) == "01";
  }

  lemma ExampleTimeText()
    ensures TimeText(13, 0, 0, 0) == "13:00:00.000000000"
  {
    TwoDigitFields();
    NineZeros();
  }

  lemma TwoDigitFields()
    ensures Digits(13, 2) == "13" && Digits(0, 2) == "00"
  {
    assert Digits(1, 1) == "1";
    assert Digits(0, 1) == "0";
  }

  lemma NineZeros()
    ensures Digits(0, 9) == "000000000"
  {
    assert Digits(0, 3) == "000";
    assert Digits(0, 6) == Digits(0, 3) + "000";
    assert Digits(0, 9) == Digits(0, 6) + "000";
  }
}
