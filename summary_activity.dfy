/**
 * Activity statistics of the summary route: the wallet's age in days and the
 * distinct UTC days, ISO weeks and months in which it made a successful
 * transaction.
 */
module SummaryActivity {
  import opened Wrappers
  import opened Collections
  import opened Calendar
  import opened Ledger

  /**
   * `walletAgeDays`: whole days from the first successful transaction to
   * `now`, rounded down; 0 when there is none or its timestamp is 0 (falsy).
   */
  function WalletAgeDays(ok: seq<NormalTx>, now: int): (age: int)
    ensures |ok| == 0 ==> age == 0
    ensures |ok| > 0 && ok[0].timeStamp == 0 ==> age == 0
    ensures |ok| > 0 && ok[0].timeStamp != 0 ==>
      SecondsPerDay * age <= now - ok[0].timeStamp < SecondsPerDay * (age + 1)
    ensures |ok| > 0 && ok[0].timeStamp != 0 && now >= ok[0].timeStamp ==> age >= 0
  {
    if |ok| == 0 || ok[0].timeStamp == 0 then 0
    else (now - ok[0].timeStamp) / SecondsPerDay
  }

  /** Every timestamp is one `toISOString` accepts. */
  predicate AllDated(ok: seq<NormalTx>) {
    forall t :: t in ok ==> ValidTime(t.timeStamp)
  }

  /** The bucket keys of one transaction ("" stands for a timestamp `Date` rejects). */
  function DayKey(t: NormalTx): string {
    if ValidTime(t.timeStamp) then IsoDay(t.timeStamp) else ""
  }

  function WeekKey(t: NormalTx): string {
    IsoWeek(t.timeStamp)
  }

  function MonthKey(t: NormalTx): string {
    if ValidTime(t.timeStamp) then IsoMonth(t.timeStamp) else ""
  }

  datatype Buckets = Buckets(days: set<string>, weeks: set<string>, months: set<string>)

  const InvalidTime: string := "Invalid time value"

  /**
   * The loop that fills `days`, `weeks` and `months`.  `isoDay` runs first on
   * each transaction, so a timestamp outside the `Date` range throws the
   * RangeError before anything else.
   */
  method CollectBuckets(ok: seq<NormalTx>) returns (r: Result<Buckets, string>)
    ensures r.Success? <==> AllDated(ok)
    ensures r.Failure? ==> r.error == InvalidTime
    ensures r.Success? ==> r.value == Buckets(Image(ok, DayKey), Image(ok, WeekKey), Image(ok, MonthKey))
  {
    var days: set<string> := {};
    var weeks: set<string> := {};
    var months: set<string> := {};
    var i := 0;
    while i < |ok|
      invariant 0 <= i <= |ok|
      invariant AllDated(ok[..i])
      invariant days == Image(ok[..i], DayKey)
      invariant weeks == Image(ok[..i], WeekKey)
      invariant months == Image(ok[..i], MonthKey)
    {
      var ts := ok[i].timeStamp;
      if !ValidTime(ts) {
        assert ok[i] in ok;
        return Failure(InvalidTime);
      }
      days := days + {IsoDay(ts)};
      weeks := weeks + {IsoWeek(ts)};
      months := months + {IsoMonth(ts)};
      PrefixSnoc(ok, i);
      ImageSnoc(ok[..i], ok[i], DayKey);
      ImageSnoc(ok[..i], ok[i], WeekKey);
      ImageSnoc(ok[..i], ok[i], MonthKey);
      i := i + 1;
    }
    assert ok[..i] == ok;
    return Success(Buckets(days, weeks, months));
  }

  /** `uniqueDays <= nativeTxs`: each transaction adds at most one day. */
  lemma DaysAtMostTxs(ok: seq<NormalTx>)
    ensures |Image(ok, DayKey)| <= |ok|
  {
    ImageSize(ok, DayKey);
  }

  /** `uniqueMonths <= uniqueDays`: the month key is the first seven characters of the day key. */
  lemma MonthsAtMostDays(ok: seq<NormalTx>)
    requires AllDated(ok)
    ensures |Image(ok, MonthKey)| <= |Image(ok, DayKey)|
  {
    forall x, y | x in ok && y in ok && DayKey(x) == DayKey(y)
      ensures MonthKey(x) == MonthKey(y)
    {
      assert MonthKey(x) == DayKey(x)[..7];
      assert MonthKey(y) == DayKey(y)[..7];
    }
    CoarserImage(ok, DayKey, MonthKey);
  }

  /**
   * `uniqueWeeks <= uniqueDays` when every date has a four-digit year (for
   * other years `isoDay`'s ten characters stop short of the day of month).
   */
  lemma WeeksAtMostDays(ok: seq<NormalTx>)
    requires forall t :: t in ok ==> ValidTime(t.timeStamp) && FourDigitYear(t.timeStamp)
    ensures |Image(ok, WeekKey)| <= |Image(ok, DayKey)|
  {
    forall x, y | x in ok && y in ok && DayKey(x) == DayKey(y)
      ensures WeekKey(x) == WeekKey(y)
    {
      IsoWeekFollowsIsoDay(x.timeStamp, y.timeStamp);
    }
    CoarserImage(ok, DayKey, WeekKey);
  }
}
