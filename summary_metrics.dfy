/**
 * The remaining figures of the summary report: volume and balance, gas,
 * token variety, the per-protocol counters and the lending flag, the
 * threshold flags, and the sorted timestamps with the holiday dates drawn
 * from them.  Prices come in as a `Prices` value.
 */
module SummaryMetrics {
  import opened Wrappers
  import opened Text
  import opened Collections
  import opened Calendar
  import opened Ledger
  import opened Protocols
  import opened Bridges
  import opened SharedUtils
  import opened Swaps

  // ------------------------------------------------------------ volume

  /** `volumeEth`: the ether moved by the successful transactions. */
  function VolumeEth(ok: seq<NormalTx>): (v: real)
    ensures v >= 0.0
  {
    SumOfNonNegative(ok, TxEth);
    SumOf(ok, TxEth)
  }

  /** The native deposits are some of the successful transactions, so they are at most the volume. */
  lemma DepositedAtMostVolume(ok: seq<NormalTx>, address: string)
    ensures 0.0 <= Deposited(ok, address) <= VolumeEth(ok)
  {
    SumOfFilterLe(ok, IsDeposit(address), TxEth);
    DepositedNonNegative(ok, address);
  }

  /** An amount valued at a unit price. */
  function UsdAt(amount: real, price: real): real {
    amount * price
  }

  /** USDC on Base. */
  const UsdcContract: string := "0x833589fcd6edb6e08f4c7c32d4f71b54bda02913"

  predicate IsUsdcTransfer(tr: TokenTransfer) {
    Lower(tr.contractAddress) == Lower(UsdcContract)
  }

  /** `usdcAmount`: the USDC moved, in whole tokens. */
  function UsdcAmount(erc20: seq<TokenTransfer>): (v: real)
    ensures v >= 0.0
  {
    SumOfNonNegative(Filter(erc20, IsUsdcTransfer), TokenUnits);
    SumOf(Filter(erc20, IsUsdcTransfer), TokenUnits)
  }

  /** `px.usdc || 1` */
  function UsdcRate(px: Prices): real {
    if px.usdc == 0.0 then 1.0 else px.usdc
  }

  datatype Volume = Volume(eth: real, ethUsd: real, usdTotal: real, usdcAmount: real)

  /** The `volume` block of the report. */
  function ComputeVolume(ok: seq<NormalTx>, erc20: seq<TokenTransfer>, px: Prices): (v: Volume)
    ensures v.eth == VolumeEth(ok) && v.usdcAmount == UsdcAmount(erc20)
    ensures v.ethUsd == v.eth * px.eth
    ensures v.usdTotal - v.ethUsd == v.usdcAmount * UsdcRate(px)
  {
    var eth := VolumeEth(ok);
    var usdc := UsdcAmount(erc20);
    Volume(eth, eth * px.eth, eth * px.eth + usdc * UsdcRate(px), usdc)
  }

  /** With non-negative prices the USD total is at least the ether part, which is non-negative. */
  lemma VolumeBounds(ok: seq<NormalTx>, erc20: seq<TokenTransfer>, px: Prices)
    requires px.eth >= 0.0 && px.usdc >= 0.0
    ensures var v := ComputeVolume(ok, erc20, px);
      0.0 <= v.ethUsd <= v.usdTotal
  {
  }

  /** Without a price answer the ether is worth nothing and USDC counts at par. */
  lemma VolumeAtDefaultPrices(ok: seq<NormalTx>, erc20: seq<TokenTransfer>)
    ensures var v := ComputeVolume(ok, erc20, DefaultPrices);
      v.ethUsd == 0.0 && v.usdTotal == v.usdcAmount
  {
  }

  // ------------------------------------------------------------ balance

  /** The `result` field of the balance call: a string, a record with a `balance` string, or anything else. */
  datatype BalanceResult = BalanceText(text: string) | BalanceRecord(balance: string) | BalanceOther

  /** The wei string the route reads, "0" when there is none. */
  function WeiText(r: BalanceResult): (w: string)
    ensures r.BalanceText? ==> w == r.text
    ensures r.BalanceRecord? && r.balance != "" ==> w == r.balance
    ensures r.BalanceOther? || (r.BalanceRecord? && r.balance == "") ==> w == "0"
  {
    match r
    case BalanceText(s) => s
    case BalanceRecord(b) => if b != "" then b else "0"
    case BalanceOther => "0"
  }

  predicate AllDigits(s: string) {
    forall i :: 0 <= i < |s| ==> IsDigit(s[i])
  }

  /** `balanceEth = Number(wei) / 1e18` for decimal wei strings; None is NaN. */
  function BalanceEth(r: BalanceResult): (b: Option<real>)
    ensures AllDigits(WeiText(r)) <==> b.Some?
    ensures b.Some? ==> b.value == WeiToEth(DigitsValue(WeiText(r))) && b.value >= 0.0
  {
    var w := WeiText(r);
    if AllDigits(w) then Some(WeiToEth(DigitsValue(w))) else None
  }

  /** A missing balance reads as zero ether. */
  lemma BalanceMissingIsZero()
    ensures BalanceEth(BalanceOther) == Some(0.0)
    ensures BalanceEth(BalanceRecord("")) == Some(0.0)
  {
    assert DigitsValue("0") == 10 * DigitsValue("") + 0;
  }

  // ------------------------------------------------------------ gas

  /** `Number(t.gasUsed ?? t.gas ?? 0)` */
  function GasUnits(t: NormalTx): nat {
    if t.gasUsed.Some? then t.gasUsed.value else t.gas.GetOr(0)
  }

  /** One transaction's fee in ether; a zero amount or price adds nothing. */
  function GasFee(t: NormalTx): (fee: real)
    ensures fee >= 0.0
    ensures GasUnits(t) == 0 || t.gasPrice.GetOr(0) == 0 ==> fee == 0.0
  {
    var gu := GasUnits(t);
    var gp := t.gasPrice.GetOr(0);
    if gu != 0 && gp != 0 then WeiToEth(gu * gp) else 0.0
  }

  /** `gasEth` */
  function GasEth(ok: seq<NormalTx>): (g: real)
    ensures g >= 0.0
  {
    SumOfNonNegative(ok, GasFee);
    SumOf(ok, GasFee)
  }

  /** Transactions without a gas price cost nothing in the report. */
  lemma {:induction false} GasEthWithoutPrices(ok: seq<NormalTx>)
    requires forall t :: t in ok ==> t.gasPrice.GetOr(0) == 0
    ensures GasEth(ok) == 0.0
    decreases |ok|
  {
    if |ok| > 0 {
      GasEthWithoutPrices(ok[..|ok| - 1]);
      assert ok[|ok| - 1] in ok;
    }
  }

  // ------------------------------------------------------------ variety

  function ContractOf(tr: TokenTransfer): string {
    Lower(tr.contractAddress)
  }

  /** `erc20Count` and `nftCount`: the distinct token contracts of a transfer list. */
  function TokenKinds(transfers: seq<TokenTransfer>): (n: nat)
    ensures n <= |transfers|
    ensures |transfers| > 0 ==> n > 0
  {
    ImageSize(transfers, ContractOf);
    assert |transfers| > 0 ==> ContractOf(transfers[0]) in Image(transfers, ContractOf);
    |Image(transfers, ContractOf)|
  }

  // ------------------------------------------------------------ protocols

  /** An entry of `allTxsForProto`: lower-cased counterparties and function name. */
  datatype ProtoEntry = ProtoEntry(to: string, from: string, fn: string)

  function TxEntry(t: NormalTx): ProtoEntry {
    ProtoEntry(Lower(t.to), Lower(t.from), Lower(t.functionName))
  }

  function TransferEntry(tr: TokenTransfer): ProtoEntry {
    ProtoEntry(Lower(tr.to), Lower(tr.from), "")
  }

  /** `allTxsForProto`: the transactions, then the ERC-20 and ERC-721 transfers without a function name. */
  function ProtoEntries(ok: seq<NormalTx>, erc20: seq<TokenTransfer>, erc721: seq<TokenTransfer>): (r: seq<ProtoEntry>)
    ensures |r| == |ok| + |erc20| + |erc721|
    ensures forall i :: 0 <= i < |ok| ==> r[i] == TxEntry(ok[i])
    ensures forall i :: |ok| <= i < |r| ==> r[i].fn == ""
  {
    Map(ok, TxEntry) + Map(erc20, TransferEntry) + Map(erc721, TransferEntry)
  }

  /** The address set of `countProto(k)`. */
  function ProtoAddrSet(k: ProtoKey): set<string> {
    set a | a in ProtocolAddrs(k) && Lower(a) != "" :: Lower(a)
  }

  /** The test of `countProto(k)` on one entry: a known address, or a keyword in the function name. */
  function ProtoHit(k: ProtoKey): ProtoEntry -> bool {
    (e: ProtoEntry) =>
      (ProtoAddrSet(k) != {} && (e.to in ProtoAddrSet(k) || e.from in ProtoAddrSet(k)))
      || exists w :: w in Keywords(k) && Includes(e.fn, w)
  }

  /** `countProto(k)` */
  function CountProto(k: ProtoKey, entries: seq<ProtoEntry>): (n: nat)
    ensures n <= |entries|
  {
    CountIf(entries, ProtoHit(k))
  }

  /** No keyword occurs in the empty string. */
  lemma NoKeywordInEmpty(k: ProtoKey, w: string)
    requires w in Keywords(k)
    ensures !Includes("", w)
  {
    assert |Lower(w)| == |w| > 0;
  }

  /** A token transfer counts for a protocol only through its addresses. */
  lemma TransferHitsByAddress(k: ProtoKey, tr: TokenTransfer)
    ensures ProtoHit(k)(TransferEntry(tr)) <==>
      ProtoAddrSet(k) != {} && (Lower(tr.to) in ProtoAddrSet(k) || Lower(tr.from) in ProtoAddrSet(k))
  {
    forall w | w in Keywords(k) ensures !Includes("", w) {
      NoKeywordInEmpty(k, w);
    }
  }

  function MentionsLimitless(e: ProtoEntry): bool {
    Includes(e.fn, "limitless")
  }

  /** Limitless has no known address, so only its keyword counts. */
  lemma LimitlessByKeyword(entries: seq<ProtoEntry>)
    ensures CountProto(Limitless, entries) == CountIf(entries, MentionsLimitless)
  {
    assert ProtocolAddrs(Limitless) == [];
    assert ProtoAddrSet(Limitless) == {};
    CountIfMono(entries, ProtoHit(Limitless), MentionsLimitless);
    CountIfMono(entries, MentionsLimitless, ProtoHit(Limitless));
  }

  /** A lending word in a function name. */
  predicate LendingWord(e: ProtoEntry) {
    Includes(e.fn, "borrow") || Includes(e.fn, "repay") || Includes(e.fn, "liquidate")
  }

  /** `lendingAny` */
  predicate LendingAny(aave: nat, entries: seq<ProtoEntry>) {
    aave > 0 || exists e :: e in entries && LendingWord(e)
  }

  /** A sequence with a hit has a positive count. */
  lemma CountIfPositive<T(!new)>(s: seq<T>, p: T -> bool, x: T)
    requires x in s && p(x)
    ensures CountIf(s, p) > 0
  {
    assert x in Filter(s, p);
  }

  /**
   * "borrow" and "repay" are Aave keywords, so beyond the Aave counter only a
   * liquidation adds anything to `lendingAny`.
   */
  lemma LendingAnyMeaning(entries: seq<ProtoEntry>)
    ensures LendingAny(CountProto(Aave, entries), entries) <==>
      CountProto(Aave, entries) > 0 || exists e :: e in entries && Includes(e.fn, "liquidate")
  {
    if e :| e in entries && (Includes(e.fn, "borrow") || Includes(e.fn, "repay")) {
      assert "borrow" in Keywords(Aave) && "repay" in Keywords(Aave);
      assert ProtoHit(Aave)(e);
      CountIfPositive(entries, ProtoHit(Aave), e);
    }
  }

  // ------------------------------------------------------------ thresholds

  datatype Thresholds = Thresholds(
    deposited10k: bool, deposited50k: bool, deposited250k: bool,
    volume10k: bool, volume50k: bool, volume100k: bool,
    months2: bool, months6: bool, months9: bool,
    contracts4: bool, contracts10: bool, contracts25: bool, contracts100: bool)

  /** The `thresholds` record. */
  function ComputeThresholds(depositedUsd: real, volumeUsd: real, uniqueMonths: nat, totalInteractions: nat)
    : (th: Thresholds)
    ensures th.deposited10k <==> depositedUsd >= 10000.0
    ensures th.volume10k <==> volumeUsd >= 10000.0
    ensures th.months2 <==> uniqueMonths >= 2
    ensures th.contracts4 <==> totalInteractions >= 4
  {
    Thresholds(
      depositedUsd >= 10000.0, depositedUsd >= 50000.0, depositedUsd >= 250000.0,
      volumeUsd >= 10000.0, volumeUsd >= 50000.0, volumeUsd >= 100000.0,
      uniqueMonths >= 2, uniqueMonths >= 6, uniqueMonths >= 9,
      totalInteractions >= 4, totalInteractions >= 10, totalInteractions >= 25, totalInteractions >= 100)
  }

  /** Each family of flags is a ladder: a higher flag implies every lower one. */
  lemma ThresholdLadders(depositedUsd: real, volumeUsd: real, uniqueMonths: nat, totalInteractions: nat)
    ensures var th := ComputeThresholds(depositedUsd, volumeUsd, uniqueMonths, totalInteractions);
      (th.deposited250k ==> th.deposited50k) && (th.deposited50k ==> th.deposited10k)
      && (th.volume100k ==> th.volume50k) && (th.volume50k ==> th.volume10k)
      && (th.months9 ==> th.months6) && (th.months6 ==> th.months2)
      && (th.contracts100 ==> th.contracts25) && (th.contracts25 ==> th.contracts10)
      && (th.contracts10 ==> th.contracts4)
  {
  }

  // ------------------------------------------------------------ timestamps

  /** `BASE_MAINNET_LAUNCH` */
  const MainnetLaunch: string := "2023-08-09T00:00:00Z"

  /** `HOLIDAYS_MM_DD` */
  const HolidaysMonthDay: set<string> := {"03-30", "01-01", "12-25"}

  /** The timestamps of the transactions, then of the ERC-20 and ERC-721 transfers. */
  function AllStamps(ok: seq<NormalTx>, erc20: seq<TokenTransfer>, erc721: seq<TokenTransfer>): (r: seq<int>)
    ensures |r| == |ok| + |erc20| + |erc721|
  {
    Map(ok, (t: NormalTx) => t.timeStamp)
    + Map(erc20, (tr: TokenTransfer) => tr.timeStamp)
    + Map(erc721, (tr: TokenTransfer) => tr.timeStamp)
  }

  /** `toISOString` of a valid time; "" stands in for the RangeError, which is never reached below. */
  function IsoOf(t: int): string {
    if ValidTime(t) then IsoString(t) else ""
  }

  predicate AllValid(stamps: seq<int>) {
    forall t :: t in stamps ==> ValidTime(t)
  }

  /** The ISO strings of valid stamps are exactly their `IsoString`s. */
  lemma IsosOfStamps(stamps: seq<int>)
    requires AllValid(stamps)
    ensures forall s :: s in Map(stamps, IsoOf) <==> exists t :: t in stamps && s == IsoString(t)
  {
    var isos := Map(stamps, IsoOf);
    forall s | s in isos ensures exists t :: t in stamps && s == IsoString(t) {
      var i :| 0 <= i < |isos| && isos[i] == s;
      assert stamps[i] in stamps;
    }
    forall t | t in stamps ensures IsoString(t) in isos {
      var i :| 0 <= i < |stamps| && stamps[i] == t;
      assert isos[i] == IsoString(t);
    }
  }

  /** Sorting keeps the elements and the absence of duplicates. */
  lemma SortKeeps(s: seq<string>)
    requires NoDuplicates(s)
    ensures NoDuplicates(SortStrings(s))
    ensures forall x :: x in SortStrings(s) <==> x in s
  {
    var sorted := SortStrings(s);
    NoDuplicatesPermutation(s, sorted);
    forall x ensures x in sorted <==> x in s {
      assert x in sorted <==> x in multiset(sorted);
      assert x in s <==> x in multiset(s);
    }
  }

  /**
   * `allTxTimestampsUTC`: the distinct ISO strings of all timestamps, sorted;
   * the RangeError of `toISOString` when one is out of range.
   */
  function TimestampsUtc(stamps: seq<int>): (r: Result<seq<string>, string>)
    ensures r.Success? <==> AllValid(stamps)
    ensures r.Failure? ==> r.error == "Invalid time value"
    ensures r.Success? ==> Sorted(r.value) && NoDuplicates(r.value)
    ensures r.Success? ==> forall s :: s in r.value <==> exists t :: t in stamps && s == IsoString(t)
  {
    if !AllValid(stamps) then Failure("Invalid time value")
    else
      var distinct := Distinct(Map(stamps, IsoOf));
      SortKeeps(distinct);
      IsosOfStamps(stamps);
      Success(SortStrings(distinct))
  }

  function DatePart(iso: string): string {
    SliceTo(iso, 10)
  }

  predicate OnHoliday(ymd: string) {
    SliceFrom(ymd, 5) in HolidaysMonthDay
  }

  /** `holidayDatesUTC`: the distinct dates among the stamps whose month-day is a holiday. */
  function HolidayDates(isos: seq<string>): (r: seq<string>)
    ensures NoDuplicates(r)
    ensures |r| <= |isos|
    ensures forall d :: d in r <==> OnHoliday(d) && exists s :: s in isos && DatePart(s) == d
  {
    var dates := Map(isos, DatePart);
    assert forall d :: d in dates <==> exists s :: s in isos && DatePart(s) == d by {
      forall d | d in dates ensures exists s :: s in isos && DatePart(s) == d {
        var i :| 0 <= i < |dates| && dates[i] == d;
        assert isos[i] in isos;
      }
      forall s | s in isos ensures DatePart(s) in dates {
        var i :| 0 <= i < |isos| && isos[i] == s;
        assert dates[i] == DatePart(s);
      }
    }
    Distinct(Filter(dates, OnHoliday))
  }

  /** The date part of a valid timestamp's ISO string is its `isoDay`. */
  lemma DatePartIsIsoDay(t: int)
    requires ValidTime(t)
    ensures DatePart(IsoString(t)) == IsoDay(t)
  {
  }
}
