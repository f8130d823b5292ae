/**
 * UTC calendar arithmetic in place of the C library's `timegm` and
 * `gmtime_r`, which the add-on uses to read XMLTV timestamps
 * (xtream_client.cpp, `ParseXMLTV`) and to print the start of a catch-up
 * window (xtream_client.cpp, `BuildCatchupUrl`).
 *
 * Days are counted from 1970-01-01 in the proleptic Gregorian calendar; a
 * year starts on the day `YearStart` gives, and a date is read back from a
 * day number by finding its year and then its month.
 */
module CivilTime {
  import opened Text

  predicate IsLeap(y: int) { y % 4 == 0 && (y % 100 != 0 || y % 400 == 0) }

  function DaysInYear(y: int): int { if IsLeap(y) then 366 else 365 }

  function DaysInMonth(y: int, m: int): int
    requires 1 <= m <= 12
  {
    if m == 2 then (if IsLeap(y) then 29 else 28)
    else if m == 4 || m == 6 || m == 9 || m == 11 then 30
    else 31
  }

  /** Days in the months of year `y` before month `m` (`m` = 13 gives the whole year). */
  function DaysBeforeMonth(y: int, m: int): (r: int)
    requires 1 <= m <= 13
    ensures r >= 0
    decreases m
  {
    if m == 1 then 0 else DaysBeforeMonth(y, m - 1) + DaysInMonth(y, m - 1)
  }

  lemma DaysBeforeMonthThirteen(y: int)
    ensures DaysBeforeMonth(y, 13) == DaysInYear(y)
  {
  }

  /** Leap years before year `y`, counting from year 1 (year 0 and earlier counted negatively). */
  function LeapsBefore(y: int): int {
    (y - 1) / 4 - (y - 1) / 100 + (y - 1) / 400
  }

  /** The day number of January 1st of year `y`. */
  function YearStart(y: int): int {
    365 * (y - 1970) + LeapsBefore(y) - LeapsBefore(1970)
  }

  lemma YearStartStep(y: int)
    ensures YearStart(y + 1) == YearStart(y) + DaysInYear(y)
  {
    LeapStep(y);
  }

  /** Year `y` adds one to the count of leap years exactly when it is a leap year. */
  lemma LeapStep(y: int)
    ensures LeapsBefore(y + 1) == LeapsBefore(y) + (if IsLeap(y) then 1 else 0)
  {
    DivStep(y, 4);
    DivStep(y, 100);
    DivStep(y, 400);
  }

  /** Stepping `y` up by one raises `y / d` exactly when `d` divides `y`. */
  lemma DivStep(y: int, d: int)
    requires d == 4 || d == 100 || d == 400
    ensures y / d - (y - 1) / d == (if y % d == 0 then 1 else 0)
  {
    if d == 4 {
    } else if d == 100 {
    } else {
    }
  }

  lemma {:induction false} YearStartMonotonic(a: int, b: int)
    requires a < b
    ensures YearStart(a + 1) <= YearStart(b)
    decreases b - a
  {
    YearStartStep(a);
    if a + 1 < b {
      YearStartMonotonic(a + 1, b);
      YearStartStep(a + 1);
    }
  }

  /** A date in the proleptic Gregorian calendar. */
  datatype Date = Date(year: int, month: int, day: int)

  predicate ValidDate(dt: Date) {
    1 <= dt.month <= 12 && 1 <= dt.day <= DaysInMonth(dt.year, dt.month)
  }

  /** Days since 1970-01-01 of a valid date. */
  function DaysFromCivil(dt: Date): int
    requires 1 <= dt.month <= 12
  {
    YearStart(dt.year) + DaysBeforeMonth(dt.year, dt.month) + dt.day - 1
  }

  /** Steps back from year `y` to a year that starts on or before day `z`. */
  function YearDown(z: int, y: int): (r: int)
    ensures YearStart(r) <= z
    decreases YearStart(y) - z
  {
    if YearStart(y) <= z then y
    else
      YearStartStep(y - 1);
      YearDown(z, y - 1)
  }

  /** Steps forward from year `y` to the year that contains day `z`. */
  function YearUp(z: int, y: int): (r: int)
    requires YearStart(y) <= z
    ensures YearStart(r) <= z < YearStart(r + 1)
    decreases z - YearStart(y)
  {
    YearStartStep(y);
    if z < YearStart(y + 1) then y else YearUp(z, y + 1)
  }

  /** The year that contains day `z`. */
  function YearOf(z: int): (y: int)
    ensures YearStart(y) <= z < YearStart(y + 1)
  {
    YearUp(z, YearDown(z, 1970))
  }

  /** The month of year `y` that contains day `r` of the year, searching from month `m`. */
  function MonthFrom(y: int, m: int, r: int): (k: int)
    requires 1 <= m <= 12 && DaysBeforeMonth(y, m) <= r < DaysInYear(y)
    ensures m <= k <= 12 && DaysBeforeMonth(y, k) <= r < DaysBeforeMonth(y, k + 1)
    decreases 12 - m
  {
    DaysBeforeMonthThirteen(y);
    if m == 12 || r < DaysBeforeMonth(y, m + 1) then m else MonthFrom(y, m + 1, r)
  }

  /** The date of day number `z` (what `gmtime_r` puts in `tm_year`, `tm_mon`, `tm_mday`). */
  function CivilFromDays(z: int): (dt: Date)
    ensures ValidDate(dt)
    ensures DaysFromCivil(dt) == z
  {
    var y := YearOf(z);
    YearStartStep(y);
    var m := MonthFrom(y, 1, z - YearStart(y));
    Date(y, m, z - YearStart(y) - DaysBeforeMonth(y, m) + 1)
  }

  lemma {:induction false} DaysBeforeMonthMonotonic(y: int, a: int, b: int)
    requires 1 <= a < b <= 13
    ensures DaysBeforeMonth(y, a + 1) <= DaysBeforeMonth(y, b)
    decreases b - a
  {
    if a + 1 < b {
      DaysBeforeMonthMonotonic(y, a + 1, b);
    }
  }

  /** A valid date lies in the month and the year it names. */
  lemma DayInYear(dt: Date)
    requires ValidDate(dt)
    ensures DaysBeforeMonth(dt.year, dt.month) <= DaysFromCivil(dt) - YearStart(dt.year)
              < DaysBeforeMonth(dt.year, dt.month + 1)
    ensures YearStart(dt.year) <= DaysFromCivil(dt) < YearStart(dt.year + 1)
  {
    DaysBeforeMonthThirteen(dt.year);
    if dt.month < 12 {
      DaysBeforeMonthMonotonic(dt.year, dt.month, 13);
    }
    YearStartStep(dt.year);
  }

  /**
   * Every valid date is read back from its day number: the day numbers of
   * valid dates are all different, and `CivilFromDays` inverts them.
   */
  lemma CivilRoundTrip(dt: Date)
    requires ValidDate(dt)
    ensures CivilFromDays(DaysFromCivil(dt)) == dt
  {
    var z := DaysFromCivil(dt);
    var r := CivilFromDays(z);
    DayInYear(dt);
    DayInYear(r);
    SameYear(z, dt.year, r.year);
    SameMonth(dt.year, z - YearStart(dt.year), dt.month, r.month);
  }

  lemma SameYear(z: int, a: int, b: int)
    requires YearStart(a) <= z < YearStart(a + 1)
    requires YearStart(b) <= z < YearStart(b + 1)
    ensures a == b
  {
    if a < b {
      YearStartMonotonic(a, b);
    } else if b < a {
      YearStartMonotonic(b, a);
    }
  }

  lemma SameMonth(y: int, r: int, a: int, b: int)
    requires 1 <= a <= 12 && 1 <= b <= 12
    requires DaysBeforeMonth(y, a) <= r < DaysBeforeMonth(y, a + 1)
    requires DaysBeforeMonth(y, b) <= r < DaysBeforeMonth(y, b + 1)
    ensures a == b
  {
    if a < b {
      DaysBeforeMonthMonotonic(y, a, b);
    } else if b < a {
      DaysBeforeMonthMonotonic(y, b, a);
    }
  }

  /** 1970-01-01 is day 0; 2026-01-21 is day 20474. */
  lemma KnownDays()
    ensures DaysFromCivil(Date(1970, 1, 1)) == 0
    ensures DaysFromCivil(Date(2026, 1, 21)) == 20474
    ensures DaysFromCivil(Date(2000, 3, 1)) == 11017
  {
  }

  // ---------------------------------------------------------------------------
  // timegm and gmtime
  // ---------------------------------------------------------------------------

  /** Floor division and remainder by a positive divisor (Dafny's `/` and `%` on `int`). */
  function FloorDiv(a: int, b: int): int requires b > 0 { a / b }

  /**
   * `timegm` on broken-down fields as `sscanf` left them: the month is
   * normalised into the year first (month 13 is January of the next year),
   * and day, hour, minute and second may run past their ranges, counting
   * on from the start of that month.
   */
  function Timegm(year: int, mon0: int, mday: int, hour: int, min: int, sec: int): int {
    var y := year + FloorDiv(mon0, 12);
    var m := mon0 % 12 + 1;
    (DaysFromCivil(Date(y, m, 1)) + mday - 1) * 86400 + hour * 3600 + min * 60 + sec
  }

  /** For in-range fields `timegm` is the day number times 86400 plus the seconds of the day. */
  lemma TimegmInRange(dt: Date, hour: int, min: int, sec: int)
    requires ValidDate(dt)
    ensures Timegm(dt.year, dt.month - 1, dt.day, hour, min, sec)
         == DaysFromCivil(dt) * 86400 + hour * 3600 + min * 60 + sec
  {
    assert FloorDiv(dt.month - 1, 12) == 0 && (dt.month - 1) % 12 + 1 == dt.month;
  }

  /** The UTC fields `gmtime_r` fills in for an instant. */
  datatype Tm = Tm(date: Date, hour: int, min: int, sec: int)

  function Gmtime(t: int): (tm: Tm)
    ensures ValidDate(tm.date)
    ensures 0 <= tm.hour < 24 && 0 <= tm.min < 60 && 0 <= tm.sec < 60
  {
    var z := t / 86400;
    var s := t % 86400;
    SecondsOfDay(s);
    Tm(CivilFromDays(z), s / 3600, (s % 3600) / 60, s % 60)
  }

  /** The fields `gmtime` fills in add up to the instant again. */
  lemma GmtimeDays(t: int)
    ensures var tm := Gmtime(t);
      DaysFromCivil(tm.date) * 86400 + tm.hour * 3600 + tm.min * 60 + tm.sec == t
  {
    SecondsOfDay(t % 86400);
  }

  lemma SecondsOfDay(s: int)
    requires 0 <= s < 86400
    ensures 0 <= s / 3600 < 24 && 0 <= (s % 3600) / 60 < 60
    ensures s == (s / 3600) * 3600 + ((s % 3600) / 60) * 60 + s % 60
  {
    var h, r := s / 3600, s % 3600;
    assert s == h * 3600 + r;
    assert r == (r / 60) * 60 + r % 60;
    assert r % 60 == s % 60;
  }

  /** `gmtime` inverts `timegm` on in-range fields. */
  lemma GmtimeOfTimegm(dt: Date, hour: int, min: int, sec: int)
    requires ValidDate(dt) && 0 <= hour < 24 && 0 <= min < 60 && 0 <= sec < 60
    ensures Gmtime(Timegm(dt.year, dt.month - 1, dt.day, hour, min, sec)) == Tm(dt, hour, min, sec)
  {
    var z := DaysFromCivil(dt);
    var s := hour * 3600 + min * 60 + sec;
    var t := Timegm(dt.year, dt.month - 1, dt.day, hour, min, sec);
    assert t == z * 86400 + s by { TimegmInRange(dt, hour, min, sec); }
    DayAndSecond(t, z, s);
    ClockFields(s, hour, min, sec);
    GmtimeSplit(t, z, s);
    CivilRoundTrip(dt);
  }

  /** `gmtime` splits an instant into its day and the second of that day. */
  lemma GmtimeSplit(t: int, z: int, s: int)
    requires t / 86400 == z && t % 86400 == s
    ensures Gmtime(t) == Tm(CivilFromDays(z), s / 3600, (s % 3600) / 60, s % 60)
  {
  }

  lemma DayAndSecond(t: int, z: int, s: int)
    requires t == z * 86400 + s && 0 <= s < 86400
    ensures t / 86400 == z && t % 86400 == s
  {
  }

  lemma ClockFields(s: int, hour: int, min: int, sec: int)
    requires 0 <= hour < 24 && 0 <= min < 60 && 0 <= sec < 60
    requires s == hour * 3600 + min * 60 + sec
    ensures s / 3600 == hour && (s % 3600) / 60 == min && s % 60 == sec
  {
  }

  /** Instants after the epoch fall in years from 1970 on. */
  lemma YearAfterEpoch(t: int)
    requires t >= 0
    ensures Gmtime(t).date.year >= 1970
  {
    var dt := Gmtime(t).date;
    DayInYear(dt);
    if dt.year < 1970 {
      YearStartMonotonic(dt.year, 1970);
    }
  }

  /** Every instant a 32-bit `time_t` can hold falls in a year from 1901 on. */
  lemma YearOfInt32Instant(t: int)
    requires t >= -0x8000_0000
    ensures Gmtime(t).date.year >= 1901
  {
    var dt := Gmtime(t).date;
    DayInYear(dt);
    assert DaysFromCivil(dt) == t / 86400 >= -25202;
    if dt.year < 1901 {
      YearStartMonotonic(dt.year, 1901);
      YearStart1901();
    }
  }

  lemma YearStart1901()
    ensures YearStart(1901) == -25202
  {
  }

  // ---------------------------------------------------------------------------
  // "%04d-%02d-%02d:%02d-%02d"
  // ---------------------------------------------------------------------------

  /** `printf("%0Nd")` of a non-negative number: zero-padded to at least `width` digits. */
  function PadNat(n: nat, width: nat): (r: string)
    ensures |r| >= width && AllDigits(r)
  {
    var s := NatToString(n);
    if |s| >= width then s else seq(width - |s|, _ => '0') + s
  }

  /** The catch-up start as the Xtream server expects it: `YYYY-MM-DD:HH-MM` in UTC. */
  function FormatCatchupStart(t: int): (r: string)
    requires t >= -0x8000_0000
  {
    var tm := Gmtime(t);
    YearOfInt32Instant(t);
    StampText(tm.date, tm.hour, tm.min)
  }

  function Pow10(k: nat): (r: nat)
    ensures r >= 1
  {
    if k == 0 then 1 else 10 * Pow10(k - 1)
  }

  lemma {:induction false} NatToStringLength(n: nat, k: nat)
    requires 1 <= k && n < Pow10(k)
    ensures |NatToString(n)| <= k
  {
    if n >= 10 {
      assert k > 1;
      NatToStringLength(n / 10, k - 1);
    }
  }

  lemma {:induction false} ZerosValue(z: string)
    requires forall i :: 0 <= i < |z| ==> z[i] == '0'
    ensures AllDigits(z) && DigitsValue(z) == 0
  {
    if z != [] {
      ZerosValue(z[..|z| - 1]);
    }
  }

  lemma {:induction false} LeadingZerosValue(z: string, s: string)
    requires forall i :: 0 <= i < |z| ==> z[i] == '0'
    requires AllDigits(s)
    ensures AllDigits(z + s) && DigitsValue(z + s) == DigitsValue(s)
  {
    if s == [] {
      assert z + s == z;
      ZerosValue(z);
    } else {
      LeadingZerosValue(z, s[..|s| - 1]);
      assert (z + s)[..|z + s| - 1] == z + s[..|s| - 1];
    }
  }

  /** Zero padding keeps the value and, for a number of at most `width` digits, has exactly `width` digits. */
  lemma PadNatReadsBack(n: nat, width: nat)
    requires 1 <= width && n < Pow10(width)
    ensures |PadNat(n, width)| == width
    ensures DigitsValue(PadNat(n, width)) == n
  {
    NatToStringLength(n, width);
    DigitsValueOfNatToString(n);
    var s := NatToString(n);
    if |s| < width {
      LeadingZerosValue(seq(width - |s|, _ => '0'), s);
    }
  }

  lemma FieldsLayout(y: string, mo: string, d: string, h: string, mi: string)
    requires |y| == 4 && |mo| == 2 && |d| == 2 && |h| == 2 && |mi| == 2
    ensures var r := y + "-" + mo + "-" + d + ":" + h + "-" + mi;
      |r| == 16 && r[4] == '-' && r[7] == '-' && r[10] == ':' && r[13] == '-'
      && r[0..4] == y && r[5..7] == mo && r[8..10] == d && r[11..13] == h && r[14..16] == mi
  {
  }

  lemma MinuteFloor(z: int, h: int, m: int, sec: int, t: int)
    requires 0 <= sec < 60 && z * 86400 + h * 3600 + m * 60 + sec == t
    ensures z * 86400 + h * 3600 + m * 60 == t - t % 60
  {
    var q := z * 1440 + h * 60 + m;
    assert t == q * 60 + sec;
  }

  /** The shape `YYYY-MM-DD:HH-MM` of a catch-up start. */
  predicate IsStamp(r: string) {
    |r| == 16 && r[4] == '-' && r[7] == '-' && r[10] == ':' && r[13] == '-'
    && AllDigits(r[0..4]) && AllDigits(r[5..7]) && AllDigits(r[8..10])
    && AllDigits(r[11..13]) && AllDigits(r[14..16])
  }

  function StampDate(r: string): Date
    requires IsStamp(r)
  {
    Date(DigitsValue(r[0..4]), DigitsValue(r[5..7]), DigitsValue(r[8..10]))
  }

  /** The instant a stamp with a valid date names, read with `timegm`. */
  function StampInstant(r: string): int
    requires IsStamp(r) && ValidDate(StampDate(r))
  {
    var dt := StampDate(r);
    Timegm(dt.year, dt.month - 1, dt.day, DigitsValue(r[11..13]), DigitsValue(r[14..16]), 0)
  }

  /** The text `%04d-%02d-%02d:%02d-%02d` writes for fields in range. */
  function StampText(dt: Date, hour: nat, min: nat): string
    requires dt.year >= 0 && dt.month >= 0 && dt.day >= 0
  {
    PadNat(dt.year, 4) + "-" + PadNat(dt.month, 2) + "-" + PadNat(dt.day, 2) + ":"
      + PadNat(hour, 2) + "-" + PadNat(min, 2)
  }

  lemma StampTextReadsBack(dt: Date, hour: nat, min: nat)
    requires 0 <= dt.year < 10000 && ValidDate(dt) && hour < 24 && min < 60
    ensures IsStamp(StampText(dt, hour, min))
    ensures StampDate(StampText(dt, hour, min)) == dt
    ensures DigitsValue(StampText(dt, hour, min)[11..13]) == hour
    ensures DigitsValue(StampText(dt, hour, min)[14..16]) == min
  {
    assert Pow10(4) == 10000 && Pow10(2) == 100;
    PadNatReadsBack(dt.year, 4);
    PadNatReadsBack(dt.month, 2);
    PadNatReadsBack(dt.day, 2);
    PadNatReadsBack(hour, 2);
    PadNatReadsBack(min, 2);
    FieldsLayout(PadNat(dt.year, 4), PadNat(dt.month, 2), PadNat(dt.day, 2), PadNat(hour, 2), PadNat(min, 2));
  }

  /**
   * The catch-up start names the UTC minute that contains `t`: for years
   * before 10000 it is sixteen bytes, `YYYY-MM-DD:HH-MM`, whose numbers are
   * a valid date, an hour and a minute that `timegm` maps back to `t`
   * rounded down to the minute.
   */
  lemma FormatCatchupStartReadsBack(t: int)
    requires 0 <= t && Gmtime(t).date.year < 10000
    ensures IsStamp(FormatCatchupStart(t))
    ensures ValidDate(StampDate(FormatCatchupStart(t)))
    ensures StampInstant(FormatCatchupStart(t)) == t - t % 60
  {
    var tm := Gmtime(t);
    YearAfterEpoch(t);
    assert FormatCatchupStart(t) == StampText(tm.date, tm.hour, tm.min);
    StampTextReadsBack(tm.date, tm.hour, tm.min);
    TimegmInRange(tm.date, tm.hour, tm.min, 0);
    GmtimeDays(t);
    MinuteFloor(DaysFromCivil(tm.date), tm.hour, tm.min, tm.sec, t);
  }
}
