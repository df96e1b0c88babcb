/**
 * UTC calendar arithmetic behind `isoDay`, `isoWeek` and `isoMonth`:
 * Unix seconds are mapped to a day number (days since 1970-01-01), the day
 * number to a proleptic Gregorian civil date, and the civil date to the
 * text `Date.prototype.toISOString` prints.  Week labels follow the ISO 8601
 * week calendar: a week runs Monday to Sunday and belongs to the year that
 * holds its Thursday.
 */
module Calendar {
  import opened Text

  const SecondsPerDay: int := 86400

  /** A JavaScript `Date` holds at most 8.64e15 ms either side of the epoch. */
  const MaxDateSeconds: int := 8_640_000_000_000

  /** `new Date(t * 1000)` is a valid date (otherwise `toISOString` throws a RangeError). */
  predicate ValidTime(t: int) {
    -MaxDateSeconds <= t <= MaxDateSeconds
  }

  /** The UTC day number of a Unix time: days since 1970-01-01, rounded down. */
  function DayNumber(t: int): int {
    t / SecondsPerDay
  }

  // ------------------------------------------------------------ years

  predicate IsLeap(y: int) {
    y % 4 == 0 && (y % 100 != 0 || y % 400 == 0)
  }

  /** Leap years in 1..n (counted from year 0 for negative n). */
  function Leaps(n: int): int {
    n / 4 - n / 100 + n / 400
  }

  /** Day number of January 1 of year `y`. */
  function DaysBeforeYear(y: int): int {
    365 * (y - 1970) + Leaps(y - 1) - Leaps(1969)
  }

  function YearLength(y: int): int {
    if IsLeap(y) then 366 else 365
  }

  lemma DivStep(a: int)
    ensures a / 4 - (a - 1) / 4 == (if a % 4 == 0 then 1 else 0)
    ensures a / 100 - (a - 1) / 100 == (if a % 100 == 0 then 1 else 0)
    ensures a / 400 - (a - 1) / 400 == (if a % 400 == 0 then 1 else 0)
  {
  }

  /** A multiple of 400 is a multiple of 100. */
  lemma Multiple400(y: int)
    requires y % 400 == 0
    ensures y % 100 == 0
  {
    var k := y / 400;
    assert y == 100 * (4 * k);
  }

  /** A multiple of 100 is a multiple of 4. */
  lemma Multiple100(y: int)
    requires y % 100 == 0
    ensures y % 4 == 0
  {
    var k := y / 100;
    assert y == 4 * (25 * k);
  }

  /** January 1 moves by one more day after a leap year. */
  lemma LeapStep(y: int)
    ensures Leaps(y) - Leaps(y - 1) == (if IsLeap(y) then 1 else 0)
  {
    DivStep(y);
    if y % 400 == 0 {
      Multiple400(y);
      Multiple100(y);
    } else if y % 100 == 0 {
      Multiple100(y);
    }
  }

  lemma YearSpan(y: int)
    ensures DaysBeforeYear(y + 1) - DaysBeforeYear(y) == YearLength(y)
  {
    LeapStep(y);
    assert DaysBeforeYear(y + 1) - DaysBeforeYear(y) == 365 + (Leaps(y) - Leaps(y - 1));
  }

  /** `400 * DaysBeforeYear(y)` stays within 1200 of `146097 * (y - 1970)`. */
  lemma DaysBeforeYearBounds(y: int)
    ensures 146097 * (y - 1970) - 1200 < 400 * DaysBeforeYear(y) < 146097 * (y - 1970) + 1200
  {
    var m := y - 1;
    assert 4 * (m / 4) <= m < 4 * (m / 4) + 4;
    assert 100 * (m / 100) <= m < 100 * (m / 100) + 100;
    assert 400 * (m / 400) <= m < 400 * (m / 400) + 400;
    assert Leaps(1969) == 477;
  }

  /** The year a mean Gregorian year of 365.2425 days puts day number `e` in. */
  function YearEstimate(e: int): int {
    1970 + (400 * e) / 146097
  }

  /** The estimate is off by at most one year either way. */
  lemma YearEstimateNear(e: int)
    ensures DaysBeforeYear(YearEstimate(e) - 1) <= e < DaysBeforeYear(YearEstimate(e) + 2)
  {
    var n0 := (400 * e) / 146097;
    assert 146097 * n0 <= 400 * e < 146097 * n0 + 146097;
    DaysBeforeYearBounds(1970 + n0 - 1);
    DaysBeforeYearBounds(1970 + n0 + 2);
  }

  /** The year holding day number `e`. */
  function YearOf(e: int): (y: int)
    ensures DaysBeforeYear(y) <= e < DaysBeforeYear(y + 1)
  {
    var y0 := YearEstimate(e);
    YearEstimateNear(e);
    if DaysBeforeYear(y0) > e then y0 - 1
    else if DaysBeforeYear(y0 + 1) <= e then y0 + 1
    else y0
  }

  // ----------------------------------------------------------- months

  /** Days of year `y` before the first of month `m` (1..12). */
  function MonthStart(m: int, leap: bool): (s: int)
    requires 1 <= m <= 12
    ensures 0 <= s <= 335
  {
    var table := [0, 31, 59, 90, 120, 151, 181, 212, 243, 273, 304, 334];
    table[m - 1] + (if leap && m > 2 then 1 else 0)
  }

  function MonthLength(m: int, leap: bool): (n: int)
    requires 1 <= m <= 12
    ensures 28 <= n <= 31
    ensures m < 12 ==> MonthStart(m, leap) + n == MonthStart(m + 1, leap)
    ensures m == 12 ==> MonthStart(m, leap) + n == (if leap then 366 else 365)
  {
    if m == 2 then (if leap then 29 else 28)
    else if m == 4 || m == 6 || m == 9 || m == 11 then 30
    else 31
  }

  /** The month (from `m` on) holding day-of-year `doy`. */
  function MonthFrom(doy: int, leap: bool, m: int): (r: int)
    requires 1 <= m <= 12 && MonthStart(m, leap) <= doy < (if leap then 366 else 365)
    ensures m <= r <= 12
    ensures MonthStart(r, leap) <= doy < MonthStart(r, leap) + MonthLength(r, leap)
    decreases 12 - m
  {
    if m == 12 || doy < MonthStart(m + 1, leap) then m else MonthFrom(doy, leap, m + 1)
  }

  // ------------------------------------------------------ civil dates

  datatype Date = Date(year: int, month: int, day: int)

  predicate ValidDate(d: Date) {
    1 <= d.month <= 12 && 1 <= d.day <= MonthLength(d.month, IsLeap(d.year))
  }

  /** The day number of a civil date. */
  function DaysFromCivil(d: Date): int
    requires ValidDate(d)
  {
    DaysBeforeYear(d.year) + MonthStart(d.month, IsLeap(d.year)) + d.day - 1
  }

  /** The civil date of a day number; `DaysFromCivil` undoes it. */
  function CivilFromDays(e: int): (d: Date)
    ensures ValidDate(d)
    ensures DaysFromCivil(d) == e
  {
    var y := YearOf(e);
    YearSpan(y);
    var doy := e - DaysBeforeYear(y);
    var m := MonthFrom(doy, IsLeap(y), 1);
    Date(y, m, doy - MonthStart(m, IsLeap(y)) + 1)
  }

  /** Two day numbers with the same civil date are the same day. */
  lemma CivilFromDaysInjective(e1: int, e2: int)
    requires CivilFromDays(e1) == CivilFromDays(e2)
    ensures e1 == e2
  {
  }

  /** Day of the week, 0 = Sunday … 6 = Saturday (`getUTCDay`); 1970-01-01 was a Thursday. */
  function WeekDay(e: int): (w: int)
    ensures 0 <= w < 7
  {
    (e + 4) % 7
  }

  // --------------------------------------------------------- ISO text

  /** The year as `toISOString` prints it: four digits for 0..9999, else a sign and six digits. */
  function YearText(y: int): (s: string)
    ensures 0 <= y <= 9999 ==> |s| == 4
    ensures !(0 <= y <= 9999) ==> |s| == 7
  {
    if 0 <= y <= 9999 then FixedDigits(y, 4)
    else (if y < 0 then "-" else "+") + FixedDigits(if y < 0 then -y else y, 6)
  }

  /** A civil date as `toISOString` begins: year, month and day joined by hyphens. */
  function DateText(d: Date): (s: string)
    requires ValidDate(d)
    ensures 0 <= d.year <= 9999 ==> |s| == 10
  {
    YearText(d.year) + "-" + FixedDigits(d.month, 2) + "-" + FixedDigits(d.day, 2)
  }

  /** For four-digit years the date text determines the date. */
  lemma DateTextInjective(d1: Date, d2: Date)
    requires ValidDate(d1) && ValidDate(d2)
    requires 0 <= d1.year <= 9999 && 0 <= d2.year <= 9999
    requires DateText(d1) == DateText(d2)
    ensures d1 == d2
  {
    var s := DateText(d1);
    assert s[..4] == FixedDigits(d1.year, 4) && s[..4] == FixedDigits(d2.year, 4);
    assert s[5..7] == FixedDigits(d1.month, 2) && s[5..7] == FixedDigits(d2.month, 2);
    assert s[8..10] == FixedDigits(d1.day, 2) && s[8..10] == FixedDigits(d2.day, 2);
    FixedDigitsInjective(d1.year, d2.year, 4);
    FixedDigitsInjective(d1.month, d2.month, 2);
    FixedDigitsInjective(d1.day, d2.day, 2);
  }

  /** The time of day of `secs` seconds after midnight, as HH:MM:SS. */
  function TimeText(secs: int): (s: string)
    requires 0 <= secs < SecondsPerDay
    ensures |s| == 8
  {
    FixedDigits(secs / 3600, 2) + ":" + FixedDigits(secs % 3600 / 60, 2) + ":" + FixedDigits(secs % 60, 2)
  }

  /** `new Date(t * 1000).toISOString()` for whole seconds `t`. */
  function IsoString(t: int): (s: string)
    requires ValidTime(t)
    ensures |s| >= 24
    ensures s[..|DateText(CivilFromDays(DayNumber(t)))|] == DateText(CivilFromDays(DayNumber(t)))
  {
    DateText(CivilFromDays(DayNumber(t))) + "T" + TimeText(t % SecondsPerDay) + ".000Z"
  }

  /** `isoDay(t)`: the first ten characters of the ISO string. */
  function IsoDay(t: int): (s: string)
    requires ValidTime(t)
    ensures |s| == 10
  {
    IsoString(t)[..10]
  }

  /** `isoMonth(t)`: the first seven characters of the ISO string. */
  function IsoMonth(t: int): (s: string)
    requires ValidTime(t)
    ensures |s| == 7
    ensures s == IsoDay(t)[..7]
  {
    IsoString(t)[..7]
  }

  /** The civil date of `t` lies in a year `toISOString` prints with four digits. */
  predicate FourDigitYear(t: int) {
    0 <= CivilFromDays(DayNumber(t)).year <= 9999
  }

  /** For four-digit years `isoDay` is the UTC date written YYYY-MM-DD. */
  lemma IsoDayIsCivilDate(t: int)
    requires ValidTime(t) && FourDigitYear(t)
    ensures IsoDay(t) == DateText(CivilFromDays(DayNumber(t)))
  {
  }

  /** `isoDay` is constant within a UTC day. */
  lemma IsoDaySameDay(t1: int, t2: int)
    requires ValidTime(t1) && ValidTime(t2)
    requires DayNumber(t1) == DayNumber(t2)
    ensures IsoDay(t1) == IsoDay(t2)
  {
  }

  /** For four-digit years, equal `isoDay` texts mean the same UTC day. */
  lemma IsoDayInjective(t1: int, t2: int)
    requires ValidTime(t1) && ValidTime(t2) && FourDigitYear(t1) && FourDigitYear(t2)
    requires IsoDay(t1) == IsoDay(t2)
    ensures DayNumber(t1) == DayNumber(t2)
  {
    IsoDayIsCivilDate(t1);
    IsoDayIsCivilDate(t2);
    DateTextInjective(CivilFromDays(DayNumber(t1)), CivilFromDays(DayNumber(t2)));
    CivilFromDaysInjective(DayNumber(t1), DayNumber(t2));
  }

  // ------------------------------------------------------------ weeks

  /** Math.ceil(a / b) for a positive divisor. */
  function CeilDiv(a: int, b: int): (q: int)
    requires b > 0
    ensures b * (q - 1) < a <= b * q
  {
    -((-a) / b)
  }

  /** The day number of the Thursday of the ISO week holding day `e`. */
  function WeekThursday(e: int): int {
    var dn := if WeekDay(e) == 0 then 7 else WeekDay(e);
    e + 4 - dn
  }

  /** The week-numbering year and week number of the week whose Thursday is day `th`. */
  function ThursdayWeek(th: int): (yw: (int, int))
    ensures 1 <= yw.1 <= 53
  {
    var y := YearOf(th);
    YearSpan(y);
    (y, CeilDiv(th - DaysBeforeYear(y) + 1, 7))
  }

  /** The ISO week-numbering year and week number of day `e`. */
  function IsoWeekOf(e: int): (yw: (int, int))
    ensures 1 <= yw.1 <= 53
  {
    ThursdayWeek(WeekThursday(e))
  }

  /** Thursdays a week apart are in different weeks. */
  lemma ThursdayWeekShift(th: int)
    ensures ThursdayWeek(th) != ThursdayWeek(th + 7)
  {
    var y := YearOf(th);
    if YearOf(th + 7) == y {
      var a := th - DaysBeforeYear(y) + 1;
      assert CeilDiv(a + 7, 7) == CeilDiv(a, 7) + 1;
    }
  }

  function WeekLabel(year: int, week: int): string
    requires 1 <= week <= 53
  {
    IntToString(year) + "-W" + FixedDigits(week, 2)
  }

  /** `isoWeek(ts)`: "YYYY-Www", the week's Thursday year and its week number. */
  function IsoWeek(t: int): (s: string)
  {
    var yw := IsoWeekOf(DayNumber(t));
    WeekLabel(yw.0, yw.1)
  }

  lemma WeekLabelInjective(y1: int, w1: int, y2: int, w2: int)
    requires 1 <= w1 <= 53 && 1 <= w2 <= 53
    requires WeekLabel(y1, w1) == WeekLabel(y2, w2)
    ensures y1 == y2 && w1 == w2
  {
    var s := WeekLabel(y1, w1);
    assert s[|s| - 2..] == FixedDigits(w1, 2) && s[|s| - 2..] == FixedDigits(w2, 2);
    FixedDigitsInjective(w1, w2, 2);
    assert IntToString(y1) == s[..|s| - 4] == IntToString(y2);
    IntToStringInjective(y1, y2);
  }

  /** The week label names the year of the Thursday of the week and a week number 1..53. */
  lemma IsoWeekThursdayYear(t: int)
    ensures var th := WeekThursday(DayNumber(t));
      var y := CivilFromDays(th).year;
      exists w :: 1 <= w <= 53 && IsoWeek(t) == WeekLabel(y, w)
  {
    var th := WeekThursday(DayNumber(t));
    var yw := IsoWeekOf(DayNumber(t));
    assert YearOf(th) == CivilFromDays(th).year;
    assert IsoWeek(t) == WeekLabel(yw.0, yw.1);
  }

  /** Every day from a Monday to the following Sunday has the same Thursday. */
  lemma ThursdayOfWeek(monday: int, k: int)
    requires WeekDay(monday) == 1 && 0 <= k < 7
    ensures WeekThursday(monday + k) == monday + 3
  {
  }

  /** `isoWeek` is constant from Monday 00:00 through Sunday 23:59:59 UTC. */
  lemma IsoWeekConstantWithinWeek(t1: int, t2: int)
    requires WeekDay(DayNumber(t1)) == 1
    requires DayNumber(t1) <= DayNumber(t2) < DayNumber(t1) + 7
    ensures IsoWeek(t1) == IsoWeek(t2)
  {
    var e1, e2 := DayNumber(t1), DayNumber(t2);
    ThursdayOfWeek(e1, 0);
    ThursdayOfWeek(e1, e2 - e1);
    assert WeekThursday(e1) == WeekThursday(e2);
    assert IsoWeekOf(e1) == IsoWeekOf(e2);
  }

  /** Between a Sunday and the next Monday the week label changes. */
  lemma IsoWeekChangesOnMonday(t1: int, t2: int)
    requires WeekDay(DayNumber(t2)) == 1 && DayNumber(t1) == DayNumber(t2) - 1
    ensures IsoWeek(t1) != IsoWeek(t2)
  {
    var e2 := DayNumber(t2);
    var th1 := WeekThursday(e2 - 1);
    assert WeekThursday(e2) == th1 + 7;
    ThursdayWeekShift(th1);
    var yw1 := IsoWeekOf(e2 - 1);
    var yw2 := IsoWeekOf(e2);
    if IsoWeek(t1) == IsoWeek(t2) {
      WeekLabelInjective(yw1.0, yw1.1, yw2.0, yw2.1);
    }
  }

  lemma YearDigits(y: nat)
    requires 1000 <= y <= 9999
    ensures Digits(y) == FixedDigits(y, 4)
  {
    assert Digits(y / 1000) == FixedDigits(y / 1000, 1);
    assert Digits(y / 100) == FixedDigits(y / 100, 2);
    assert Digits(y / 10) == FixedDigits(y / 10, 3);
  }

  lemma Week2024W01()
    ensures IsoWeekOf(19723) == (2024, 1)
  {
    assert WeekDay(19723) == 1;
    assert WeekThursday(19723) == 19726;
    assert (400 * 19726) / 146097 == 54;
    assert DaysBeforeYear(2024) == 19723 && DaysBeforeYear(2025) == 20089;
    assert YearOf(19726) == 2024;
    assert CeilDiv(4, 7) == 1;
  }

  lemma Label2024W01()
    ensures WeekLabel(2024, 1) == "2024-W01"
  {
    YearDigits(2024);
    assert IntToString(2024) == "2024";
    assert FixedDigits(1, 2) == "01";
  }

  /** 2024-01-01 00:00 UTC (a Monday) is in week 1 of 2024. */
  lemma IsoWeekNewYear2024()
    ensures IsoWeek(1704067200) == "2024-W01"
  {
    assert DayNumber(1704067200) == 19723;
    Week2024W01();
    Label2024W01();
  }

  lemma Week2022W52()
    ensures IsoWeekOf(19358) == (2022, 52)
  {
    assert WeekDay(19358) == 0;
    assert WeekThursday(19358) == 19355;
    assert (400 * 19355) / 146097 == 52;
    assert DaysBeforeYear(2022) == 18993 && DaysBeforeYear(2023) == 19358;
    assert YearOf(19355) == 2022;
    assert CeilDiv(363, 7) == 52;
  }

  lemma Label2022W52()
    ensures WeekLabel(2022, 52) == "2022-W52"
  {
    YearDigits(2022);
    assert IntToString(2022) == "2022";
    assert FixedDigits(52, 2) == "52";
  }

  /** 2023-01-01 00:00 UTC (a Sunday) is in week 52 of 2022. */
  lemma IsoWeekNewYear2023()
    ensures IsoWeek(1672531200) == "2022-W52"
  {
    assert DayNumber(1672531200) == 19358;
    Week2022W52();
    Label2022W52();
  }

  /** The week label is a function of the day, hence of the `isoDay` text for four-digit years. */
  lemma IsoWeekFollowsIsoDay(t1: int, t2: int)
    requires ValidTime(t1) && ValidTime(t2) && FourDigitYear(t1) && FourDigitYear(t2)
    requires IsoDay(t1) == IsoDay(t2)
    ensures IsoWeek(t1) == IsoWeek(t2)
  {
    IsoDayInjective(t1, t2);
  }
}
