/**
 * The Onchain Lifestyle card: six calendar events read off the transaction
 * timestamps.  Timestamps that do not parse are dropped first; hours, days
 * and month-days are taken in UTC.
 */
module LifestyleBadge {
  import opened Wrappers
  import opened Text
  import opened Collections
  import opened Instants
  import opened Badges

  /** The default `mainnetLaunchUTC`. */
  const DefaultLaunch: string := "2023-08-09T00:00:00Z"

  /** The card's props; an absent launch date takes the default, absent lists are empty. */
  datatype LifestyleProps = LifestyleProps(
    txTimestampsUTC: seq<string>, mainnetLaunchUTC: Option<string>, holidayDatesUTC: seq<string>)

  /** `ymdUTC(d)` on the instants that reach it; every one of them is a valid date. */
  function UtcDay(ms: int): (day: string)
    ensures ValidMs(ms) ==> day == Ymd(ms)
  {
    if ValidMs(ms) then Ymd(ms) else ""
  }

  /** `new Set(holidayDatesUTC.map(s => String(s).slice(0, 10)))` */
  function Holidays(holidayDatesUTC: seq<string>): (h: set<string>)
    ensures forall d :: d in h <==> exists s :: s in holidayDatesUTC && SliceTo(s, 10) == d
  {
    Image(holidayDatesUTC, (s: string) => SliceTo(s, 10))
  }

  /**
   * First Admission: the launch date parses and some instant lies in the
   * week that starts there.  A week end past the last representable date is
   * itself an invalid date, and no comparison with it holds.
   */
  predicate FirstAdmission(launch: Option<int>, ms: seq<int>) {
    && launch.Some?
    && ValidMs(launch.value + MsPerWeek)
    && exists m :: m in ms && launch.value <= m < launch.value + MsPerWeek
  }

  /** Doctor's Day Rounds: some instant falls on 30 March, any year. */
  predicate DoctorsDay(ms: seq<int>) {
    exists m :: m in ms && ValidMs(m) && MonthDay(m) == "03-30"
  }

  /** Emergency Case: some active UTC date is a holiday. */
  predicate HolidayHit(ms: seq<int>, holidays: set<string>) {
    exists m :: m in ms && UtcDay(m) in holidays
  }

  /** Intensive Care: some UTC date carries ten instants or more. */
  predicate IntensiveCare(ms: seq<int>) {
    exists m :: m in ms && KeyCount(ms, UtcDay, UtcDay(m)) >= 10
  }

  /** The six events in display order, given whether some day reached ten transactions. */
  function LifestyleItems(parse: string -> Option<int>, p: LifestyleProps, intensive: bool): (items: seq<bool>)
    ensures |items| == 6
  {
    var ms := ValidDates(parse, p.txTimestampsUTC);
    var launch := DateOf(parse, p.mainnetLaunchUTC.GetOr(DefaultLaunch));
    [AnyHourIn(ms, 6, 9), AnyHourIn(ms, 0, 6), FirstAdmission(launch, ms), DoctorsDay(ms),
     HolidayHit(ms, Holidays(p.holidayDatesUTC)), intensive]
  }

  /** What the card shows. */
  function LifestyleCard(parse: string -> Option<int>, p: LifestyleProps): (c: Card)
    ensures |c.items| == 6 && c.progress.total == 6 && c.progress.done <= 6
    ensures c.progress.pct == SixPercent[c.progress.done]
  {
    var items := LifestyleItems(parse, p, IntensiveCare(ValidDates(parse, p.txTimestampsUTC)));
    ProgressOfSix(items);
    CardOf(items)
  }

  /** Some valid instant satisfies `P` exactly when some timestamp text parses to one that does. */
  lemma SomeValidDate(parse: string -> Option<int>, ts: seq<string>, P: int -> bool)
    ensures (exists m :: m in ValidDates(parse, ts) && P(m))
        <==> (exists s, m :: s in ts && DateOf(parse, s) == Some(m) && P(m))
  {
    var ms := ValidDates(parse, ts);
    if exists s, m :: s in ts && DateOf(parse, s) == Some(m) && P(m) {
      var s, m :| s in ts && DateOf(parse, s) == Some(m) && P(m);
      assert m in ms;
    }
  }

  // Each event in terms of the timestamp texts: only text that parses to a valid date takes part.

  /** Morning Checkup: some parseable timestamp has its UTC hour in [6, 9). */
  lemma MorningEvent(parse: string -> Option<int>, p: LifestyleProps, intensive: bool)
    ensures LifestyleItems(parse, p, intensive)[0] <==>
      exists s, m :: s in p.txTimestampsUTC && DateOf(parse, s) == Some(m) && 6 <= UtcHour(m) < 9
  {
    SomeValidDate(parse, p.txTimestampsUTC, (m: int) => 6 <= UtcHour(m) < 9);
  }

  /** Night Shift: some parseable timestamp has its UTC hour in [0, 6). */
  lemma NightEvent(parse: string -> Option<int>, p: LifestyleProps, intensive: bool)
    ensures LifestyleItems(parse, p, intensive)[1] <==>
      exists s, m :: s in p.txTimestampsUTC && DateOf(parse, s) == Some(m) && 0 <= UtcHour(m) < 6
  {
    SomeValidDate(parse, p.txTimestampsUTC, (m: int) => 0 <= UtcHour(m) < 6);
  }

  /** First Admission: the launch date parses and a parseable timestamp falls in its first week. */
  lemma FirstAdmissionEvent(parse: string -> Option<int>, p: LifestyleProps, intensive: bool)
    ensures var launch := DateOf(parse, p.mainnetLaunchUTC.GetOr(DefaultLaunch));
      LifestyleItems(parse, p, intensive)[2] <==>
        && launch.Some? && ValidMs(launch.value + MsPerWeek)
        && exists s, m :: s in p.txTimestampsUTC && DateOf(parse, s) == Some(m)
                         && launch.value <= m < launch.value + MsPerWeek
  {
    var launch := DateOf(parse, p.mainnetLaunchUTC.GetOr(DefaultLaunch));
    assert LifestyleItems(parse, p, intensive)[2] == FirstAdmission(launch, ValidDates(parse, p.txTimestampsUTC));
    if launch.Some? {
      SomeValidDate(parse, p.txTimestampsUTC, (m: int) => launch.value <= m < launch.value + MsPerWeek);
    }
  }

  /** Doctor's Day Rounds: some parseable timestamp falls on 30 March (UTC). */
  lemma DoctorsDayEvent(parse: string -> Option<int>, p: LifestyleProps, intensive: bool)
    ensures LifestyleItems(parse, p, intensive)[3] <==>
      exists s, m :: s in p.txTimestampsUTC && DateOf(parse, s) == Some(m) && MonthDay(m) == "03-30"
  {
    SomeValidDate(parse, p.txTimestampsUTC, (m: int) => ValidMs(m) && MonthDay(m) == "03-30");
  }

  /**
   * Emergency Case: some parseable timestamp's UTC date (`UtcDay`, which is
   * `Ymd` on every parsed instant) is the first ten characters of a holiday entry.
   */
  lemma HolidayEvent(parse: string -> Option<int>, p: LifestyleProps, intensive: bool)
    ensures LifestyleItems(parse, p, intensive)[4] <==>
      exists s, m, h :: s in p.txTimestampsUTC && DateOf(parse, s) == Some(m)
                        && h in p.holidayDatesUTC && SliceTo(h, 10) == UtcDay(m)
  {
    var hs := Holidays(p.holidayDatesUTC);
    assert LifestyleItems(parse, p, intensive)[4] == HolidayHit(ValidDates(parse, p.txTimestampsUTC), hs);
    SomeValidDate(parse, p.txTimestampsUTC, (m: int) => UtcDay(m) in hs);
  }

  /** Intensive Care: some parseable timestamp's UTC date carries ten parseable timestamps or more. */
  lemma IntensiveEvent(parse: string -> Option<int>, p: LifestyleProps)
    ensures var ms := ValidDates(parse, p.txTimestampsUTC);
      LifestyleCard(parse, p).items[5] <==>
        exists s, m :: s in p.txTimestampsUTC && DateOf(parse, s) == Some(m) && KeyCount(ms, UtcDay, Ymd(m)) >= 10
  {
    var ms := ValidDates(parse, p.txTimestampsUTC);
    SomeValidDate(parse, p.txTimestampsUTC, (m: int) => KeyCount(ms, UtcDay, UtcDay(m)) >= 10);
  }

  /** Without a single parseable timestamp nothing is unlocked. */
  lemma NoDatesNoEvents(parse: string -> Option<int>, p: LifestyleProps)
    requires forall s :: s in p.txTimestampsUTC ==> DateOf(parse, s).None?
    ensures LifestyleCard(parse, p).progress.done == 0
    ensures LifestyleCard(parse, p).progress.pct == 0
  {
  }

  /** `OnchainLifestyle(props)`: the per-day counter map is filled in a loop. */
  method OnchainLifestyle(parse: string -> Option<int>, p: LifestyleProps) returns (c: Card)
    ensures c == LifestyleCard(parse, p)
  {
    var dates := ValidDates(parse, p.txTimestampsUTC);
    var perDayCount := CountByKey(dates, UtcDay);
    var intensive := exists d :: d in perDayCount && perDayCount[d] >= 10;
    assert intensive == IntensiveCare(dates) by {
      SomeKeyReaches(dates, UtcDay, perDayCount, 10);
    }
    var items := LifestyleItems(parse, p, intensive);
    c := CardOf(items);
  }
}
