/**
 * `computeDimensions` and `computeWalletScore`: six radar dimensions, each
 * the best of a ladder of linear scales clamped to [0, 100], their rounded
 * mean as the wallet score with the same level cut-offs as the health score,
 * and the strongest and weakest dimension.  A field the caller leaves out is
 * passed as 0 (as `|| 0` does).
 */
module WalletScore {
  import opened Numbers
  import HealthScore

  /** `clamp(x)`: `Math.max(0, Math.min(100, x))` */
  function Clamp100(x: real): (r: real)
    ensures 0.0 <= r <= 100.0
    ensures 0.0 <= x <= 100.0 ==> r == x
    ensures x < 0.0 ==> r == 0.0
    ensures x > 100.0 ==> r == 100.0
  {
    if x < 0.0 then 0.0 else if x > 100.0 then 100.0 else x
  }

  /** `s(x, t)`: `x` as a percentage of the target `t`, clamped; every target is a positive constant. */
  function Scale(x: real, t: real): (r: real)
    requires t > 0.0
    ensures 0.0 <= r <= 100.0
  {
    Clamp100(x / t * 100.0)
  }

  predicate Ascending(ts: seq<real>) {
    |ts| > 0 && ts[0] > 0.0 && forall j :: 0 < j < |ts| ==> ts[j - 1] < ts[j]
  }

  predicate Positive(ts: seq<real>) {
    |ts| > 0 && forall j :: 0 <= j < |ts| ==> ts[j] > 0.0
  }

  /** `Math.max(s(x, t1), ..., s(x, tn))` */
  function Ladder(x: real, ts: seq<real>): (r: real)
    requires Positive(ts)
    ensures 0.0 <= r <= 100.0
    decreases |ts|
  {
    if |ts| == 1 then Scale(x, ts[0])
    else MaxReal(Ladder(x, ts[..|ts| - 1]), Scale(x, ts[|ts| - 1]))
  }

  /** A larger target never scores higher. */
  lemma ScaleAntitone(x: real, t: real, u: real)
    requires 0.0 < t <= u
    ensures Scale(x, u) <= Scale(x, t)
  {
    if x > 0.0 {
      var q := x / t;
      QuotientCompare(x, t, 0.0);
      assert q * t == x;
      ScaleMono(t, u, q);
      QuotientCompare(x, u, q);
    } else {
      QuotientCompare(x, u, 0.0);
    }
  }

  /** Over ascending targets the ladder is decided by its smallest target. */
  lemma {:induction false} LadderIsFirst(x: real, ts: seq<real>)
    requires Ascending(ts)
    requires Positive(ts)
    ensures Ladder(x, ts) == Scale(x, ts[0])
    decreases |ts|
  {
    if |ts| > 1 {
      var init := ts[..|ts| - 1];
      LadderBase(ts);
      assert Ascending(init);
      LadderIsFirst(x, init);
      assert ts[0] <= ts[|ts| - 1] by {
        LadderBase(ts);
      }
      ScaleAntitone(x, ts[0], ts[|ts| - 1]);
    }
  }

  /** The first target of an ascending ladder is its smallest. */
  lemma {:induction false} LadderBase(ts: seq<real>)
    requires Ascending(ts)
    ensures forall j :: 0 <= j < |ts| ==> ts[0] <= ts[j]
    decreases |ts|
  {
    if |ts| > 1 {
      var init := ts[..|ts| - 1];
      assert Ascending(init);
      LadderBase(init);
      assert ts[0] <= ts[|ts| - 2] < ts[|ts| - 1];
    }
  }

  const HistoryTargets: seq<real> := [10.0, 50.0, 150.0, 300.0, 600.0, 1000.0]
  const ActivityTargets: seq<real> := [50.0, 100.0, 200.0, 500.0, 1000.0, 5000.0]
  const ConsistencyTargets: seq<real> := [10.0, 20.0, 30.0, 50.0, 100.0, 200.0]
  const ContractTargets: seq<real> := [10.0, 20.0, 50.0, 100.0, 500.0, 1000.0]
  const Erc20Targets: seq<real> := [5.0, 10.0, 20.0, 50.0, 100.0, 200.0]
  const NftTargets: seq<real> := [5.0, 10.0, 20.0, 50.0, 100.0, 500.0]
  const VolumeTargets: seq<real> := [0.1, 0.5, 1.0, 5.0, 10.0, 25.0]
  const ProtocolTargets: seq<real> := [3.0, 6.0, 12.0, 20.0]

  lemma TargetsAscend()
    ensures Ascending(HistoryTargets) && Ascending(ActivityTargets) && Ascending(ConsistencyTargets)
    ensures Ascending(ContractTargets) && Ascending(Erc20Targets) && Ascending(NftTargets)
    ensures Ascending(VolumeTargets) && Ascending(ProtocolTargets)
    ensures Positive(HistoryTargets) && Positive(ActivityTargets) && Positive(ConsistencyTargets)
    ensures Positive(ContractTargets) && Positive(Erc20Targets) && Positive(NftTargets)
    ensures Positive(VolumeTargets) && Positive(ProtocolTargets)
  {
    LadderOfSix(HistoryTargets);
    LadderOfSix(ActivityTargets);
    LadderOfSix(ConsistencyTargets);
    LadderOfSix(ContractTargets);
    LadderOfSix(Erc20Targets);
    LadderOfSix(NftTargets);
    LadderOfSix(VolumeTargets);
    LadderOfFour(ProtocolTargets);
  }

  lemma LadderOfSix(ts: seq<real>)
    requires |ts| == 6 && 0.0 < ts[0] < ts[1] < ts[2] < ts[3] < ts[4] < ts[5]
    ensures Ascending(ts) && Positive(ts)
  {
  }

  lemma LadderOfFour(ts: seq<real>)
    requires |ts| == 4 && 0.0 < ts[0] < ts[1] < ts[2] < ts[3]
    ensures Ascending(ts) && Positive(ts)
  {
  }

  datatype SummaryLike = SummaryLike(
    walletAgeDays: real, nativeTxs: real, tokenTxs: real, uniqueDays: real,
    uniqueInteractions: real, erc20Count: real, nftCount: real, totalVolumeEth: real,
    uniswap: real, aerodrome: real, aave: real, stargate: real, metamask: real, matcha: real,
    lendingAny: bool)

  datatype Dimension = History | TxActivity | Consistency | Variety | EthVolume | Protocols

  /** The keys of the returned array, in order. */
  const DimensionOrder: seq<Dimension> := [History, TxActivity, Consistency, Variety, EthVolume, Protocols]

  /** The name each entry carries. */
  function KeyName(d: Dimension): string {
    match d
    case History => "History"
    case TxActivity => "Activity"
    case Consistency => "Consistency"
    case Variety => "Diversity"
    case EthVolume => "Volume"
    case Protocols => "Protocols"
  }

  datatype Entry = Entry(key: Dimension, value: int)

  /** The sum of the six protocol counters. */
  function ProtocolCount(s: SummaryLike): real {
    s.uniswap + s.aerodrome + s.aave + s.stargate + s.metamask + s.matcha
  }

  /** The protocol ladder plus 10 for lending, clamped. */
  function ProtocolsRaw(s: SummaryLike): (r: real)
    ensures 0.0 <= r <= 100.0
  {
    TargetsAscend();
    Clamp100(Ladder(ProtocolCount(s), ProtocolTargets) + (if s.lendingAny then 10.0 else 0.0))
  }

  /** The unrounded value of each dimension. */
  function Raw(s: SummaryLike, d: Dimension): (r: real)
    ensures 0.0 <= r <= 100.0
  {
    TargetsAscend();
    match d
    case History => Clamp100(Ladder(s.walletAgeDays, HistoryTargets))
    case TxActivity => Clamp100(Ladder(s.nativeTxs + s.tokenTxs, ActivityTargets))
    case Consistency => Clamp100(Ladder(s.uniqueDays, ConsistencyTargets))
    case Variety =>
      Clamp100(Ladder(s.uniqueInteractions, ContractTargets) * 0.5
               + Ladder(s.erc20Count, Erc20Targets) * 0.3 + Ladder(s.nftCount, NftTargets) * 0.2)
    case EthVolume => Clamp100(Ladder(s.totalVolumeEth, VolumeTargets))
    case Protocols => ProtocolsRaw(s)
  }

  /** `computeDimensions(summary)`: six entries in key order, each an integer in [0, 100]. */
  function Dimensions(s: SummaryLike): (dims: seq<Entry>)
    ensures |dims| == 6
    ensures forall j :: 0 <= j < 6 ==> dims[j].key == DimensionOrder[j]
    ensures forall j :: 0 <= j < 6 ==> 0 <= dims[j].value <= 100
    ensures forall j :: 0 <= j < 6 ==> dims[j].value == Round(Raw(s, dims[j].key))
  {
    var dims := seq(6, j requires 0 <= j < 6 => Entry(DimensionOrder[j], Round(Raw(s, DimensionOrder[j]))));
    forall j | 0 <= j < 6 ensures 0 <= dims[j].value <= 100 {
      RoundBetween(Raw(s, DimensionOrder[j]), 0, 100);
    }
    dims
  }

  /** Each ladder is its first rung: e.g. the volume dimension is full from 0.1 ETH on. */
  lemma LaddersAreFirstRung(s: SummaryLike)
    ensures Raw(s, History) == Scale(s.walletAgeDays, 10.0)
    ensures Raw(s, TxActivity) == Scale(s.nativeTxs + s.tokenTxs, 50.0)
    ensures Raw(s, Consistency) == Scale(s.uniqueDays, 10.0)
    ensures Raw(s, EthVolume) == Scale(s.totalVolumeEth, 0.1)
    ensures s.totalVolumeEth >= 0.1 ==> Raw(s, EthVolume) == 100.0
    ensures s.walletAgeDays >= 10.0 ==> Raw(s, History) == 100.0
  {
    TargetsAscend();
    LadderIsFirst(s.walletAgeDays, HistoryTargets);
    LadderIsFirst(s.nativeTxs + s.tokenTxs, ActivityTargets);
    LadderIsFirst(s.uniqueDays, ConsistencyTargets);
    LadderIsFirst(s.totalVolumeEth, VolumeTargets);
    QuotientCompare(s.totalVolumeEth, 0.1, 1.0);
    QuotientCompare(s.walletAgeDays, 10.0, 1.0);
  }

  /** Lending adds 10 to the protocol dimension, which stays clamped at 100. */
  lemma LendingBonus(s: SummaryLike)
    requires s.lendingAny
    ensures ProtocolsRaw(s) == ProtocolsRaw(s.(lendingAny := false)) + 10.0
            || (ProtocolsRaw(s) == 100.0 && ProtocolsRaw(s.(lendingAny := false)) > 90.0)
  {
  }

  // ------------------------------------------------------------ score

  /** The sum of the entry values. */
  function ValueSum(dims: seq<Entry>): int
    decreases |dims|
  {
    if |dims| == 0 then 0 else ValueSum(dims[..|dims| - 1]) + dims[|dims| - 1].value
  }

  lemma {:induction false} ValueSumBounds(dims: seq<Entry>)
    requires forall j :: 0 <= j < |dims| ==> 0 <= dims[j].value <= 100
    ensures 0 <= ValueSum(dims) <= 100 * |dims|
    decreases |dims|
  {
    if |dims| > 0 {
      ValueSumBounds(dims[..|dims| - 1]);
    }
  }

  /** The entry values in order. */
  function ValuesOf(dims: seq<Entry>): (v: seq<int>)
    ensures |v| == |dims| && forall j :: 0 <= j < |v| ==> v[j] == dims[j].value
  {
    seq(|dims|, j requires 0 <= j < |dims| => dims[j].value)
  }

  datatype WalletResult = WalletResult(
    score: int, level: HealthScore.Level, dims: seq<Entry>, strongest: Dimension, weakest: Dimension)

  /**
   * `computeWalletScore(summary)`: the rounded mean, its level, and the first
   * entries of the two stable sorts (descending for strongest, ascending for
   * weakest); the fallback keys are never needed since there are six entries.
   */
  function WalletScoreOf(s: SummaryLike): WalletResult {
    var dims := Dimensions(s);
    var score := Round(ValueSum(dims) as real / 6.0);
    WalletResult(score, HealthScore.LevelOf(score), dims,
                 dims[FirstMaxIndex(ValuesOf(dims))].key, dims[FirstMinIndex(ValuesOf(dims))].key)
  }

  /** The mean of six values in [0, 100], rounded, lies in [0, 100]. */
  lemma ScoreBounds(s: SummaryLike)
    ensures 0 <= WalletScoreOf(s).score <= 100
  {
    var dims := Dimensions(s);
    ValueSumBounds(dims);
    var sum := ValueSum(dims);
    RoundBetween(sum as real / 6.0, 0, 100);
  }

  /**
   * The score lies in [0, 100] with the health score's level cut-offs; the
   * strongest dimension is the first with the largest value, the weakest the
   * first with the smallest.
   */
  lemma WalletScoreMeaning(s: SummaryLike)
    ensures var r := WalletScoreOf(s);
      && 0 <= r.score <= 100 && r.level == HealthScore.LevelOf(r.score)
      && r.dims == Dimensions(s)
      && (exists k :: 0 <= k < 6 && r.dims[k].key == r.strongest
            && (forall j :: 0 <= j < 6 ==> r.dims[j].value <= r.dims[k].value)
            && (forall j :: 0 <= j < k ==> r.dims[j].value < r.dims[k].value))
      && (exists k :: 0 <= k < 6 && r.dims[k].key == r.weakest
            && (forall j :: 0 <= j < 6 ==> r.dims[k].value <= r.dims[j].value)
            && (forall j :: 0 <= j < k ==> r.dims[k].value < r.dims[j].value))
  {
    ScoreBounds(s);
    var dims := Dimensions(s);
    var v := ValuesOf(dims);
    var top := FirstMaxIndex(v);
    var low := FirstMinIndex(v);
    assert dims[top].key == WalletScoreOf(s).strongest;
    assert dims[low].key == WalletScoreOf(s).weakest;
  }
}
