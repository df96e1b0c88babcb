/**
 * `computeHealth`: six area scores, each a rounded percentage of a weighted
 * mix of saturating curves, their weighted sum as the overall score, the
 * level and emoji it falls in, and the strongest and weakest areas.
 * Numbers are reals; a field the caller leaves out is passed as 0 (as `?? 0`
 * does), an absent timestamp list as the empty list.
 */
module HealthScore {
  import opened Wrappers
  import opened Text
  import opened Collections
  import opened Numbers
  import opened Instants

  // ------------------------------------------------------------ curves

  /** `cap(v, target)`: the share of the target reached, at most 1. */
  function Cap(v: real, target: real): (r: real)
    ensures 0.0 <= r <= 1.0
  {
    Clamp01(v / MaxReal(target, 0.000000001))
  }

  /** `cap` is full exactly when the target is reached. */
  lemma CapFull(v: real, target: real)
    requires target >= 0.000000001
    ensures Cap(v, target) == 1.0 <==> v >= target
    ensures 0.0 <= v <= target ==> Cap(v, target) == v / target
  {
    QuotientCompare(v, target, 1.0);
    QuotientCompare(v, target, 0.0);
  }

  /**
   * `smooth(v, target)`: `v / (v + target / 2)`, clamped.  Every caller
   * passes a positive constant target; a zero denominator (only for a
   * negative `v`) divides a negative number by zero, which clamps to 0.
   */
  function Smooth(v: real, target: real): (r: real)
    requires target > 0.0
    ensures 0.0 <= r <= 1.0
  {
    if v + target * 0.5 == 0.0 then 0.0 else Clamp01(v / (v + target * 0.5))
  }

  /** At its target the smooth curve stands at two thirds. */
  lemma SmoothAtTarget(t: real)
    requires t > 0.0
    ensures Smooth(t, t) == 2.0 / 3.0
  {
    assert t / (t + t * 0.5) == 2.0 / 3.0 by {
      assert (2.0 / 3.0) * (t + t * 0.5) == t;
    }
  }

  // ------------------------------------------------------------ targets

  const AgeTarget: real := 600.0
  const TxsTarget: real := 2000.0
  const ActiveDaysTarget: real := 150.0
  const UniqContractsTarget: real := 100.0
  const Erc20Target: real := 50.0
  const NftTarget: real := 50.0
  const SwapsTarget: real := 50.0
  const StableTxsTarget: real := 10.0
  const StableTypesTarget: real := 3.0
  const UsdcTarget: real := 3.0
  const BigSwapUsdTarget: real := 10000.0
  const VolumeTargetEth: real := 10.0
  const DeployTarget: real := 20.0

  // ------------------------------------------------------------ input

  datatype HealthInput = HealthInput(
    walletAgeDays: real, nativeTxs: real, tokenTxs: real,
    timestamps: seq<string>, fallbackActiveDays: real,
    uniqueInteractions: real, erc20Count: real, nftCount: real,
    swaps: real, stablecoinTxs: real, usdcTrades: real, stablecoinTypes: real, maxSwapUsd: real,
    volumeEth: real, deployedContracts: real,
    uniswap: real, aerodrome: real, aave: real, stargate: real, metamask: real, matcha: real,
    lendingAny: bool)

  /** `iso.slice(0, 10)` */
  function DayPrefix(iso: string): string {
    SliceTo(iso, 10)
  }

  /** The number of distinct date prefixes among the timestamps. */
  function DistinctDays(ts: seq<string>): nat {
    |Image(ts, DayPrefix)|
  }

  /** `activeDays`: the distinct date prefixes, or the caller's fallback when that is larger. */
  function ActiveDays(i: HealthInput): (d: real)
    ensures d >= DistinctDays(i.timestamps) as real && d >= i.fallbackActiveDays
    ensures d == DistinctDays(i.timestamps) as real || d == i.fallbackActiveDays
  {
    MaxReal(DistinctDays(i.timestamps) as real, i.fallbackActiveDays)
  }

  // ------------------------------------------------------------ areas

  datatype Area = Activity | Diversity | Usage | Volume | Lifestyle | Deployment

  /** The key order of the areas record. */
  const AreaOrder: seq<Area> := [Activity, Diversity, Usage, Volume, Lifestyle, Deployment]

  datatype AreaScores = AreaScores(
    activity: int, diversity: int, usage: int, volume: int, lifestyle: int, deployment: int)
  {
    function Get(a: Area): int {
      match a
      case Activity => activity
      case Diversity => diversity
      case Usage => usage
      case Volume => volume
      case Lifestyle => lifestyle
      case Deployment => deployment
    }

    /** The scores in key order. */
    function Values(): (v: seq<int>)
      ensures |v| == |AreaOrder| && forall j :: 0 <= j < |v| ==> v[j] == Get(AreaOrder[j])
    {
      [activity, diversity, usage, volume, lifestyle, deployment]
    }

    predicate InRange() {
      && 0 <= activity <= 100 && 0 <= diversity <= 100 && 0 <= usage <= 100
      && 0 <= volume <= 100 && 0 <= lifestyle <= 100 && 0 <= deployment <= 100
    }
  }

  /** A weighted mix of [0, 1] parts whose weights sum to 1, as a rounded percentage. */
  function Percentage(x: real): (p: int)
    requires 0.0 <= x <= 1.0
    ensures 0 <= p <= 100
  {
    RoundBetween(x * 100.0, 0, 100);
    Round(x * 100.0)
  }

  /** The activity area, given `activeDays`. */
  function ActivityScore(i: HealthInput, activeDays: real): (p: int)
    ensures 0 <= p <= 100
  {
    var ageS := Cap(i.walletAgeDays, AgeTarget);
    var txsS := Smooth(i.nativeTxs + i.tokenTxs, TxsTarget);
    var daysS := Cap(activeDays, ActiveDaysTarget);
    Percentage(0.30 * ageS + 0.55 * txsS + 0.15 * daysS)
  }

  function DiversityScore(i: HealthInput): (p: int)
    ensures 0 <= p <= 100
  {
    Percentage(0.5 * Cap(i.uniqueInteractions, UniqContractsTarget)
               + 0.3 * Cap(i.erc20Count, Erc20Target) + 0.2 * Cap(i.nftCount, NftTarget))
  }

  /** The special-clinic bonus: six counters against 3 and `lendingAny`, averaged. */
  function ClinicBonus(i: HealthInput): (b: real)
    ensures 0.0 <= b <= 1.0
  {
    (Cap(i.uniswap, 3.0) + Cap(i.aerodrome, 3.0) + Cap(i.aave, 3.0) + Cap(i.stargate, 3.0)
     + Cap(i.metamask, 3.0) + Cap(i.matcha, 3.0) + (if i.lendingAny then 1.0 else 0.0)) / 7.0
  }

  function UsageScore(i: HealthInput): (p: int)
    ensures 0 <= p <= 100
  {
    Percentage(0.50 * Cap(i.swaps, SwapsTarget) + 0.18 * Cap(i.stablecoinTxs, StableTxsTarget)
               + 0.08 * Cap(i.stablecoinTypes, StableTypesTarget) + 0.04 * Cap(i.usdcTrades, UsdcTarget)
               + 0.10 * Cap(i.maxSwapUsd, BigSwapUsdTarget) + 0.10 * ClinicBonus(i))
  }

  function VolumeScore(i: HealthInput): (p: int)
    ensures 0 <= p <= 100
  {
    Percentage(Smooth(i.volumeEth, VolumeTargetEth))
  }

  function DeploymentScore(i: HealthInput): (p: int)
    ensures 0 <= p <= 100
  {
    Percentage(Cap(i.deployedContracts, DeployTarget))
  }

  // ------------------------------------------------------------ lifestyle

  /** `day10`: some date prefix carries at least ten timestamps. */
  predicate TenOnOneDay(ts: seq<string>) {
    exists s :: s in ts && KeyCount(ts, DayPrefix, DayPrefix(s)) >= 10
  }

  /** The earliest instant. */
  function Earliest(ms: seq<int>): (m: int)
    requires |ms| > 0
    ensures m in ms && forall x :: x in ms ==> m <= x
    decreases |ms|
  {
    if |ms| == 1 then ms[0]
    else
      var m := Earliest(ms[..|ms| - 1]);
      assert forall x :: x in ms ==> x in ms[..|ms| - 1] || x == ms[|ms| - 1];
      if ms[|ms| - 1] < m then ms[|ms| - 1] else m
  }

  /**
   * `firstWeek`: after sorting, some date lies in the week that starts at the
   * first date.
   */
  predicate FirstWeek(ms: seq<int>) {
    |ms| > 0 && exists m :: m in ms && Earliest(ms) <= m < Earliest(ms) + MsPerWeek
  }

  /** The earliest date itself lies in its own week, so `firstWeek` only asks for a valid date. */
  lemma FirstWeekIffAny(ms: seq<int>)
    ensures FirstWeek(ms) <==> |ms| > 0
  {
    if |ms| > 0 {
      var e := Earliest(ms);
      assert e in ms && e <= e < e + MsPerWeek;
    }
  }

  /**
   * The four lifestyle checks in source order: morning, night, ten-in-a-day
   * (`day10`, counted separately), first week.
   */
  function LifestyleChecks(parse: string -> Option<int>, ts: seq<string>, day10: bool): (c: seq<bool>)
    ensures |c| == 4
  {
    var ms := ValidDates(parse, ts);
    [AnyHourIn(ms, 6, 9), AnyHourIn(ms, 0, 6), day10, FirstWeek(ms)]
  }

  function LifestyleScore(parse: string -> Option<int>, ts: seq<string>, day10: bool): (p: int)
    ensures 0 <= p <= 100
  {
    var hits := CountTrue(LifestyleChecks(parse, ts, day10));
    Percentage(Clamp01(hits as real / 4.0))
  }

  /**
   * The lifestyle area is 25 per check that holds, and a single valid
   * timestamp already earns the first-week check.
   */
  lemma LifestyleQuarters(parse: string -> Option<int>, ts: seq<string>, day10: bool)
    ensures LifestyleScore(parse, ts, day10) == 25 * CountTrue(LifestyleChecks(parse, ts, day10))
    ensures (exists s :: s in ts && DateOf(parse, s).Some?) ==> LifestyleScore(parse, ts, day10) >= 25
  {
    var checks := LifestyleChecks(parse, ts, day10);
    var hits := CountTrue(checks);
    RoundOfInt(25 * hits);
    assert hits as real / 4.0 * 100.0 == (25 * hits) as real;
    if exists s :: s in ts && DateOf(parse, s).Some? {
      var s :| s in ts && DateOf(parse, s).Some?;
      var ms := ValidDates(parse, ts);
      assert DateOf(parse, s).value in ms;
      FirstWeekIffAny(ms);
      assert checks[3];
    }
  }

  // ------------------------------------------------------------ total

  /** `W`: the weight of each area in the overall score. */
  function Weight(a: Area): nat {
    match a
    case Activity => 25
    case Diversity => 20
    case Usage => 20
    case Volume => 15
    case Lifestyle => 10
    case Deployment => 10
  }

  lemma WeightsSumTo100()
    ensures Weight(Activity) + Weight(Diversity) + Weight(Usage) + Weight(Volume)
            + Weight(Lifestyle) + Weight(Deployment) == 100
  {
  }

  function OverallScore(areas: AreaScores): int {
    Round((areas.activity * 25 + areas.diversity * 20 + areas.usage * 20
           + areas.volume * 15 + areas.lifestyle * 10 + areas.deployment * 10) as real / 100.0)
  }

  /** With every area in [0, 100] the weighted mean is in [0, 100] too. */
  lemma OverallScoreBounds(areas: AreaScores)
    requires areas.InRange()
    ensures 0 <= OverallScore(areas) <= 100
  {
    var sum := areas.activity * 25 + areas.diversity * 20 + areas.usage * 20
               + areas.volume * 15 + areas.lifestyle * 10 + areas.deployment * 10;
    assert 0 <= sum <= 10000;
    RoundBetween(sum as real / 100.0, 0, 100);
  }

  // ------------------------------------------------------------ level

  datatype Level = Critical | Weak | Fair | Healthy | Elite

  function LevelOf(score: int): Level {
    if score < 40 then Critical
    else if score < 60 then Weak
    else if score < 75 then Fair
    else if score < 90 then Healthy
    else Elite
  }

  function Rank(l: Level): nat {
    match l
    case Critical => 0
    case Weak => 1
    case Fair => 2
    case Healthy => 3
    case Elite => 4
  }

  /** A higher score never gets a lower level; the cut-offs are 40, 60, 75 and 90. */
  lemma LevelMonotone(s1: int, s2: int)
    requires s1 <= s2
    ensures Rank(LevelOf(s1)) <= Rank(LevelOf(s2))
  {
  }

  lemma LevelCutoffs(s: int)
    ensures LevelOf(s) == Critical <==> s < 40
    ensures LevelOf(s) == Elite <==> s >= 90
    ensures LevelOf(s) == Weak <==> 40 <= s < 60
    ensures LevelOf(s) == Fair <==> 60 <= s < 75
    ensures LevelOf(s) == Healthy <==> 75 <= s < 90
  {
  }

  /** The emoji of each level: purple, green, yellow, orange, red. */
  function Emoji(l: Level): (e: string)
    ensures |e| == 1
  {
    match l
    case Elite => "\U{1F7E3}"
    case Healthy => "\U{1F7E2}"
    case Fair => "\U{1F7E1}"
    case Weak => "\U{1F7E0}"
    case Critical => "\U{1F534}"
  }

  lemma EmojiDistinct(l1: Level, l2: Level)
    ensures Emoji(l1) == Emoji(l2) <==> l1 == l2
  {
  }

  // ------------------------------------------------------------ result

  datatype HealthResult = HealthResult(
    score: int, level: Level, emoji: string, areas: AreaScores, strongest: Area, weakest: Area)

  /**
   * The ends of the entries after the stable descending sort: the first
   * largest area in key order is first, the last smallest is last.
   */
  function Strongest(areas: AreaScores): Area {
    AreaOrder[FirstMaxIndex(areas.Values())]
  }

  function Weakest(areas: AreaScores): Area {
    AreaOrder[LastMinIndex(areas.Values())]
  }

  /** The result, given `activeDays` and the ten-a-day check. */
  function HealthFrom(i: HealthInput, parse: string -> Option<int>, activeDays: real, day10: bool): HealthResult {
    var areas := AreaScores(ActivityScore(i, activeDays), DiversityScore(i), UsageScore(i), VolumeScore(i),
                            LifestyleScore(parse, i.timestamps, day10), DeploymentScore(i));
    var score := OverallScore(areas);
    HealthResult(score, LevelOf(score), Emoji(LevelOf(score)), areas, Strongest(areas), Weakest(areas))
  }

  /** What `computeHealth` answers. */
  function HealthOf(i: HealthInput, parse: string -> Option<int>): HealthResult {
    HealthFrom(i, parse, ActiveDays(i), TenOnOneDay(i.timestamps))
  }

  /** Each area has one position in the key order. */
  lemma AreaPositionUnique(j: int, k: int)
    requires 0 <= j < |AreaOrder| && 0 <= k < |AreaOrder| && AreaOrder[j] == AreaOrder[k]
    ensures j == k
  {
  }

  /** The strongest area has the largest score and no earlier area ties it. */
  lemma StrongestArea(areas: AreaScores)
    ensures forall a :: a in AreaOrder ==> areas.Get(a) <= areas.Get(Strongest(areas))
    ensures forall j, k :: 0 <= j < k < |AreaOrder| && AreaOrder[k] == Strongest(areas) ==>
              areas.Get(AreaOrder[j]) < areas.Get(Strongest(areas))
  {
    var v := areas.Values();
    var top := FirstMaxIndex(v);
    forall a | a in AreaOrder ensures areas.Get(a) <= areas.Get(Strongest(areas)) {
      var j :| 0 <= j < |AreaOrder| && AreaOrder[j] == a;
      assert v[j] <= v[top];
    }
    forall j, k | 0 <= j < k < |AreaOrder| && AreaOrder[k] == Strongest(areas)
      ensures areas.Get(AreaOrder[j]) < areas.Get(Strongest(areas))
    {
      AreaPositionUnique(k, top);
      assert v[j] < v[top];
    }
  }

  /** The weakest area has the smallest score and no later area ties it. */
  lemma WeakestArea(areas: AreaScores)
    ensures forall a :: a in AreaOrder ==> areas.Get(Weakest(areas)) <= areas.Get(a)
    ensures forall j, k :: 0 <= j < k < |AreaOrder| && AreaOrder[j] == Weakest(areas) ==>
              areas.Get(AreaOrder[k]) > areas.Get(Weakest(areas))
  {
    var v := areas.Values();
    var low := LastMinIndex(v);
    forall a | a in AreaOrder ensures areas.Get(Weakest(areas)) <= areas.Get(a) {
      var j :| 0 <= j < |AreaOrder| && AreaOrder[j] == a;
      assert v[low] <= v[j];
    }
    forall j, k | 0 <= j < k < |AreaOrder| && AreaOrder[j] == Weakest(areas)
      ensures areas.Get(AreaOrder[k]) > areas.Get(Weakest(areas))
    {
      AreaPositionUnique(j, low);
      assert v[low] < v[k];
    }
  }

  /**
   * The strongest area has the largest score and no earlier area ties it;
   * the weakest has the smallest and no later area ties it.
   */
  lemma ExtremeAreas(areas: AreaScores)
    ensures forall a :: a in AreaOrder ==> areas.Get(a) <= areas.Get(Strongest(areas))
    ensures forall a :: a in AreaOrder ==> areas.Get(Weakest(areas)) <= areas.Get(a)
    ensures forall j, k :: 0 <= j < k < |AreaOrder| && AreaOrder[k] == Strongest(areas) ==>
              areas.Get(AreaOrder[j]) < areas.Get(Strongest(areas))
    ensures forall j, k :: 0 <= j < k < |AreaOrder| && AreaOrder[j] == Weakest(areas) ==>
              areas.Get(AreaOrder[k]) > areas.Get(Weakest(areas))
  {
    StrongestArea(areas);
    WeakestArea(areas);
  }

  /** Every area and the score lie in [0, 100], and the level and emoji follow the score. */
  lemma HealthMeaning(i: HealthInput, parse: string -> Option<int>)
    ensures var r := HealthOf(i, parse);
      && r.areas.InRange() && 0 <= r.score <= 100
      && r.level == LevelOf(r.score) && r.emoji == Emoji(r.level)
      && r.strongest == Strongest(r.areas) && r.weakest == Weakest(r.areas)
  {
    OverallScoreBounds(HealthOf(i, parse).areas);
  }

  // ------------------------------------------------------------ computation

  /** The `Set` of date prefixes filled in a loop. */
  method CountActiveDays(ts: seq<string>) returns (n: nat)
    ensures n == DistinctDays(ts)
  {
    var days: set<string> := {};
    for j := 0 to |ts|
      invariant days == Image(ts[..j], DayPrefix)
    {
      PrefixSnoc(ts, j);
      ImageSnoc(ts[..j], ts[j], DayPrefix);
      days := days + {DayPrefix(ts[j])};
    }
    assert ts[..|ts|] == ts;
    n := |days|;
  }

  /** `computeHealth(i)` */
  method ComputeHealth(i: HealthInput, parse: string -> Option<int>) returns (r: HealthResult)
    ensures r == HealthOf(i, parse)
  {
    var distinct := CountActiveDays(i.timestamps);
    var activeDays := MaxReal(distinct as real, i.fallbackActiveDays);
    var byDay := CountByKey(i.timestamps, DayPrefix);
    var day10 := exists d :: d in byDay && byDay[d] >= 10;
    SomeKeyReaches(i.timestamps, DayPrefix, byDay, 10);
    r := HealthFrom(i, parse, activeDays, day10);
  }
}
