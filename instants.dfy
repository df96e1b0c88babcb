/**
 * JavaScript `Date` values as the badge and scoring code uses them: a date is
 * a millisecond count since the epoch, or invalid (NaN).  Parsing a string
 * (`new Date(s)`) is a parameter of the model; the UTC hour, the
 * `toISOString().slice(0, 10)` day and the `slice(5, 10)` month-day follow
 * from the calendar arithmetic of `Calendar`.
 */
module Instants {
  import opened Wrappers
  import opened Calendar

  const MsPerHour: int := 3_600_000
  const MsPerDay: int := 86_400_000
  const MsPerWeek: int := 7 * 86_400_000

  /** A `Date` holds at most 8.64e15 ms either side of the epoch; beyond that it is invalid. */
  const MaxDateMs: int := 8_640_000_000_000_000

  predicate ValidMs(ms: int) {
    -MaxDateMs <= ms <= MaxDateMs
  }

  /**
   * `new Date(s)`: `parse` says which instant the text names, if any; an
   * instant outside the representable range is an invalid date too.
   */
  function DateOf(parse: string -> Option<int>, s: string): (d: Option<int>)
    ensures d.Some? ==> ValidMs(d.value)
  {
    if parse(s).Some? && ValidMs(parse(s).value) then parse(s) else None
  }

  /** `ts.map(s => new Date(s)).filter(isValidDate)`: the valid instants, in order. */
  function ValidDates(parse: string -> Option<int>, ts: seq<string>): (ms: seq<int>)
    ensures |ms| <= |ts|
    ensures forall m :: m in ms ==> ValidMs(m)
    ensures forall m :: m in ms <==> exists s :: s in ts && DateOf(parse, s) == Some(m)
    decreases |ts|
  {
    if |ts| == 0 then []
    else
      var init := ts[..|ts| - 1];
      var last := ts[|ts| - 1];
      assert forall s :: s in ts <==> s in init || s == last;
      ValidDates(parse, init) + (if DateOf(parse, last).Some? then [DateOf(parse, last).value] else [])
  }

  /** `d.getUTCHours()` */
  function UtcHour(ms: int): (h: int)
    ensures 0 <= h < 24
  {
    (ms / MsPerHour) % 24
  }

  /** The whole second of a millisecond instant, as `Calendar` counts time. */
  function Seconds(ms: int): (t: int)
    requires ValidMs(ms)
    ensures ValidTime(t)
  {
    ms / 1000
  }

  /** `dates.some(d => inRangeUTC(d, h0, h1))`: some instant's UTC hour lies in [h0, h1). */
  predicate AnyHourIn(ms: seq<int>, h0: int, h1: int) {
    exists m :: m in ms && h0 <= UtcHour(m) < h1
  }

  /** `d.toISOString().slice(0, 10)` */
  function Ymd(ms: int): (s: string)
    requires ValidMs(ms)
    ensures |s| == 10
    ensures s == IsoDay(Seconds(ms))
  {
    IsoString(Seconds(ms))[..10]
  }

  /** `d.toISOString().slice(5, 10)` */
  function MonthDay(ms: int): (s: string)
    requires ValidMs(ms)
    ensures |s| == 5
    ensures s == Ymd(ms)[5..]
  {
    IsoString(Seconds(ms))[5..10]
  }

  /** Two instants of the same UTC day have the same `ymdUTC`. */
  lemma YmdSameDay(a: int, b: int)
    requires ValidMs(a) && ValidMs(b)
    requires a / MsPerDay == b / MsPerDay
    ensures Ymd(a) == Ymd(b)
  {
    assert Seconds(a) / SecondsPerDay == a / MsPerDay;
    assert Seconds(b) / SecondsPerDay == b / MsPerDay;
    IsoDaySameDay(Seconds(a), Seconds(b));
  }
}
