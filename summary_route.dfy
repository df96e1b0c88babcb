/**
 * `GET /api/summary`: resolves the requested address or name, reads the
 * wallet's records, and assembles the report.  Every network answer is an
 * input (`Sources`); a failure that escapes becomes a 500 whose message is the
 * error's message, or "internal error" when it has none.
 */
module SummaryRoute {
  import opened Wrappers
  import opened Text
  import opened Collections
  import opened Calendar
  import opened Ledger
  import opened SharedUtils
  import opened Address
  import opened SummaryPaging
  import opened SummaryActivity
  import opened Deployments
  import opened ContractChecks
  import opened Bridges
  import opened Protocols
  import opened Swaps
  import opened SummaryMetrics

  /** The `result` of a token-transfer call: a JSON array, or anything else. */
  datatype TokenPage = TokenRows(items: seq<TokenTransfer>) | NoTokenRows

  /** `ensureArray(res?.result)` */
  function TokenBatch(p: TokenPage): seq<TokenTransfer> {
    if p.TokenRows? then p.items else []
  }

  /** What the network answers for the requested wallet. */
  datatype Sources = Sources(
    checksummed: string -> bool,                      // viem's `isAddress` on mixed-case input
    lookup: string -> NameReply,                      // the name-resolution API
    baseName: string -> Option<string>,               // `getBasenameFor`
    fetchPage: nat -> Result<Page, Option<string>>,   // `txlist`, page by page
    erc20Reply: Result<TokenPage, Option<string>>,    // `tokentx`
    erc721Reply: Result<TokenPage, Option<string>>,   // `tokennfttx`
    trace: string -> Option<seq<InternalTx>>,         // `txlistinternal` by hash
    receipt: string -> Option<string>,                // receipt `contractAddress` by hash
    code: string -> Option<string>,                   // `getCode`
    now: int,                                         // `nowSec()`
    priceReply: Option<PriceHttp>,                    // CoinGecko
    balanceReply: Result<BalanceResult, Option<string>>) // `balance`

  /** The query string: `debug` and `address`, None when absent. */
  datatype Request = Request(debug: Option<string>, address: Option<string>)

  /** `MAX_TRACE`, `MAX_RECEIPTS` and the two address checks of the summary route. */
  function SummarySampling(checksummed: string -> bool): Sampling {
    Sampling(400, 600,
             (a: string) => IsAddress(a, checksummed),
             (a: string) => IsAddress(a, checksummed))
  }

  /** `e?.message || "internal error"` */
  function ErrorMessage(e: Option<string>): (m: string)
    ensures m != ""
    ensures e.Some? && e.value != "" ==> m == e.value
  {
    if e.Some? && e.value != "" then e.value else "internal error"
  }

  // ------------------------------------------------------------ body

  /** The third-party counters the report lists (`bridgeCounts[k] || 0`). */
  function CountOf(counts: map<Provider, nat>, k: Provider): nat {
    if k in counts then counts[k] else 0
  }

  datatype BridgeFigures = BridgeFigures(
    depositedEth: real, depositedUsd: real, nativeBridgeUsed: bool, usedThirdPartyBridge: bool,
    relayCount: nat, jumperCount: nat, bungeeCount: nat, acrossCount: nat)

  /** The nine special-clinic counters and `lendingAny`. */
  datatype Clinics = Clinics(counts: map<ProtoKey, nat>, lendingAny: bool)

  /** The summary body, its fields grouped as the route computes them. */
  datatype SummaryBody = SummaryBody(
    address: string,
    baseEns: Option<string>,
    balanceEth: Option<real>,
    volume: Volume,
    nativeTxs: nat,
    tokenTxs: nat,
    walletAgeDays: int,
    uniqueDays: nat,
    uniqueWeeks: nat,
    uniqueMonths: nat,
    totalInteractions: nat,
    uniqueInteractions: nat,
    bridge: BridgeFigures,
    thresholds: Thresholds,
    allTxTimestampsUtc: seq<string>,
    mainnetLaunchUtc: string,
    holidayDatesUtc: seq<string>,
    swapFigures: SwapFigures,
    erc20Count: nat,
    nftCount: nat,
    totalVolumeEth: real,
    gasEth: real,
    deployedContracts: nat,
    clinics: Clinics)

  datatype Response =
    | Ping                      // `{ok: true, note: "alive"}`
    | BadRequest(error: string) // 400
    | ServerError(error: string) // 500
    | Report(body: SummaryBody) // 200

  // ------------------------------------------------------------ phases

  /** `baseEns`: a typed `.base.eth` name is kept, otherwise the reverse lookup answers. */
  function BaseEns(raw: string, address: string, baseName: string -> Option<string>): (r: Option<string>)
    ensures Contains(raw, ".") && EndsWith(Lower(raw), ".base.eth") ==> r == Some(Lower(raw))
    ensures !(Contains(raw, ".") && EndsWith(Lower(raw), ".base.eth")) ==> r == baseName(address)
  {
    if Contains(raw, ".") && EndsWith(Lower(raw), ".base.eth") then Some(Lower(raw)) else baseName(address)
  }

  /** The three lists the route reads, as a function of the answers. */
  datatype Records = Records(normal: seq<NormalTx>, erc20: seq<TokenTransfer>, erc721: seq<TokenTransfer>)

  /** The outcome of the three list reads: the first failure in program order, or the lists. */
  function ReadRecords(src: Sources, last: nat): Result<Records, Option<string>>
    requires 1 <= last && EndsAt(src.fetchPage, last)
  {
    match PagesFrom(src.fetchPage, 1, last)
    case Failure(e) => Failure(e)
    case Success(normal) =>
      if src.erc20Reply.Failure? then Failure(src.erc20Reply.error)
      else if src.erc721Reply.Failure? then Failure(src.erc721Reply.error)
      else Success(Records(normal, TokenBatch(src.erc20Reply.value), TokenBatch(src.erc721Reply.value)))
  }

  /** Reads the normal transactions page by page, then both transfer lists. */
  method FetchRecords(src: Sources, ghost last: nat) returns (r: Result<Records, Option<string>>)
    requires 1 <= last && EndsAt(src.fetchPage, last)
    ensures r == ReadRecords(src, last)
  {
    var normal := FetchAllNormalTxs(src.fetchPage, last);
    if normal.Failure? {
      return Failure(normal.error);
    }
    if src.erc20Reply.Failure? {
      return Failure(src.erc20Reply.error);
    }
    if src.erc721Reply.Failure? {
      return Failure(src.erc721Reply.error);
    }
    return Success(Records(normal.value, TokenBatch(src.erc20Reply.value), TokenBatch(src.erc721Reply.value)));
  }

  /**
   * The bridge figures of the records: the deposits and their USD value at
   * `ethPrice`, the native flag, the four provider counters, and third-party
   * use exactly when some provider was seen.
   */
  ghost predicate BridgeFacts(b: BridgeFigures, ok: seq<NormalTx>, erc20: seq<TokenTransfer>, address: string, ethPrice: real) {
    && b.depositedEth == Deposited(ok, address) && b.depositedUsd == UsdAt(b.depositedEth, ethPrice)
    && b.nativeBridgeUsed == NativeBridgeUsed(ok, erc20, address)
    && b.relayCount == ProviderCount(ok, erc20, Relay) && b.jumperCount == ProviderCount(ok, erc20, Jumper)
    && b.bungeeCount == ProviderCount(ok, erc20, Bungee) && b.acrossCount == ProviderCount(ok, erc20, Across)
    && (b.usedThirdPartyBridge <==> exists k :: ProviderCount(ok, erc20, k) > 0)
  }

  /** The bridge block, with the USD value of the deposits at `ethPrice`. */
  method BridgeBlock(ok: seq<NormalTx>, erc20: seq<TokenTransfer>, address: string, ethPrice: real)
    returns (b: BridgeFigures)
    ensures BridgeFacts(b, ok, erc20, address, ethPrice)
    ensures b.depositedEth > 0.0 ==> b.nativeBridgeUsed
    ensures b.depositedEth <= VolumeEth(ok)
  {
    var depositedEth, nativeBridgeUsed, used, counts := BridgeActivity(ok, erc20, address);
    if depositedEth > 0.0 {
      DepositMeansNative(ok, erc20, address);
    }
    DepositedAtMostVolume(ok, address);
    AllProvidersListed();
    b := BridgeFigures(depositedEth, UsdAt(depositedEth, ethPrice), nativeBridgeUsed, used,
                       CountOf(counts, Relay), CountOf(counts, Jumper), CountOf(counts, Bungee), CountOf(counts, Across));
  }

  /** The special-clinic counters over `allTxsForProto`. */
  function ClinicCounts(entries: seq<ProtoEntry>): (c: Clinics)
    ensures c.counts.Keys == Elements(AddrKeys)
    ensures forall k :: k in c.counts ==> c.counts[k] == CountProto(k, entries) <= |entries|
    ensures c.lendingAny <==> CountProto(Aave, entries) > 0 || exists e :: e in entries && Includes(e.fn, "liquidate")
  {
    LendingAnyMeaning(entries);
    Clinics(map k | k in AddrKeys :: CountProto(k, entries), LendingAny(CountProto(Aave, entries), entries))
  }

  datatype Activity = Activity(walletAgeDays: int, uniqueDays: nat, uniqueWeeks: nat, uniqueMonths: nat)

  /** Wallet age and the day, week and month buckets; the RangeError of `isoDay` ends it. */
  method ActivityBlock(ok: seq<NormalTx>, now: int) returns (r: Result<Activity, string>)
    ensures r.Success? <==> AllDated(ok)
    ensures r.Failure? ==> r.error == InvalidTime
    ensures r.Success? ==>
      && r.value.walletAgeDays == WalletAgeDays(ok, now)
      && r.value.uniqueDays == |Image(ok, DayKey)|
      && r.value.uniqueWeeks == |Image(ok, WeekKey)|
      && r.value.uniqueMonths == |Image(ok, MonthKey)|
      && r.value.uniqueMonths <= r.value.uniqueDays <= |ok|
  {
    var walletAgeDays := WalletAgeDays(ok, now);
    var buckets := CollectBuckets(ok);
    if buckets.Failure? {
      return Failure(buckets.error);
    }
    DaysAtMostTxs(ok);
    MonthsAtMostDays(ok);
    var b := buckets.value;
    return Success(Activity(walletAgeDays, |b.days|, |b.weeks|, |b.months|));
  }

  /** `uniqueContractInteractions` and `totalContractInteractions`, every destination checked. */
  method InteractionBlock(ok: seq<NormalTx>, code: string -> Option<string>) returns (total: nat, unique: nat)
    ensures unique == |ConfirmedContracts(CheckedDestinations(ok, None), code)|
    ensures total == TotalInteractions(ok, ConfirmedContracts(CheckedDestinations(ok, None), code))
    ensures unique <= total <= |ok|
  {
    var cset;
    cset, unique, total := Interactions(ok, None, code);
  }

  /** `deployedContracts` with the summary route's caps and checks. */
  method DeployedBlock(ok: seq<NormalTx>, address: string, src: Sources) returns (n: nat)
    ensures n == |DeployedSet(ok, address, SummarySampling(src.checksummed), src.trace, src.receipt)|
  {
    var _, _, _, deployed := CollectDeployments(ok, address, SummarySampling(src.checksummed), src.trace, src.receipt);
    n := |deployed|;
  }

  /** The report can be built: every stamp is datable and the balance call answered. */
  predicate ReportReady(rec: Records, src: Sources) {
    var ok := OkTxs(rec.normal);
    AllDated(ok) && src.balanceReply.Success? && AllValid(AllStamps(ok, rec.erc20, rec.erc721))
  }

  /** The error that ends the report when it is not ready, in program order. */
  function BuildError(rec: Records, src: Sources): Option<string> {
    var ok := OkTxs(rec.normal);
    if !AllDated(ok) then Some(InvalidTime)
    else if src.balanceReply.Failure? then src.balanceReply.error
    else Some("Invalid time value")
  }

  /**
   * Everything after the three list reads, for the resolved `address`; the
   * RangeErrors and a failed balance call end it. The figures computed in
   * between cannot fail, so the three checks come first here and the
   * figures are assembled afterwards.
   */
  method BuildReport(address: string, baseEns: Option<string>, rec: Records, src: Sources)
    returns (r: Result<SummaryBody, Option<string>>)
    ensures r.Success? <==> ReportReady(rec, src)
    ensures r.Failure? ==> r.error == BuildError(rec, src)
    ensures r.Success? ==> r.value.baseEns == baseEns && ReportFacts(r.value, address, rec, src)
  {
    var ok := OkTxs(rec.normal);
    var activity := ActivityBlock(ok, src.now);
    if activity.Failure? {
      return Failure(Some(activity.error));
    }
    if src.balanceReply.Failure? {
      return Failure(src.balanceReply.error);
    }
    var stamps := TimestampsUtc(AllStamps(ok, rec.erc20, rec.erc721));
    if stamps.Failure? {
      return Failure(Some(stamps.error));
    }
    var body := AssembleReport(address, baseEns, rec, src, activity.value, src.balanceReply.value, stamps.value);
    return Success(body);
  }

  /** The report's figures once the activity buckets and the timestamps are known. */
  method AssembleReport(address: string, baseEns: Option<string>, rec: Records, src: Sources,
                        a: Activity, balance: BalanceResult, stamps: seq<string>)
    returns (body: SummaryBody)
    requires var ok := OkTxs(rec.normal);
      && a.walletAgeDays == WalletAgeDays(ok, src.now)
      && a.uniqueDays == |Image(ok, DayKey)| && a.uniqueWeeks == |Image(ok, WeekKey)|
      && a.uniqueMonths == |Image(ok, MonthKey)|
      && a.uniqueMonths <= a.uniqueDays <= |ok|
    requires src.balanceReply == Success(balance)
    requires TimestampsUtc(AllStamps(OkTxs(rec.normal), rec.erc20, rec.erc721)) == Success(stamps)
    ensures body.baseEns == baseEns && ReportFacts(body, address, rec, src)
  {
    var ok := OkTxs(rec.normal);
    var erc20, erc721 := rec.erc20, rec.erc721;
    var deployed := DeployedBlock(ok, address, src);
    var total, unique := InteractionBlock(ok, src.code);
    var bridge, volume, swapFigures := TradeBlock(ok, erc20, address, src.priceReply);
    body := ComposeBody(address, baseEns, rec, src, a, stamps, deployed, total, unique, bridge, volume, swapFigures);
  }

  /**
   * The summary body from the blocks computed before it; the clinics,
   * thresholds, token kinds, gas and holidays are computed here.
   */
  function ComposeBody(address: string, baseEns: Option<string>, rec: Records, src: Sources,
                       a: Activity, stamps: seq<string>, deployed: nat, total: nat, unique: nat,
                       bridge: BridgeFigures, volume: Volume, swapFigures: SwapFigures): (body: SummaryBody)
    requires var ok := OkTxs(rec.normal);
      && a.walletAgeDays == WalletAgeDays(ok, src.now)
      && a.uniqueDays == |Image(ok, DayKey)| && a.uniqueWeeks == |Image(ok, WeekKey)|
      && a.uniqueMonths == |Image(ok, MonthKey)|
      && a.uniqueMonths <= a.uniqueDays <= |ok|
    requires src.balanceReply.Success?
    requires TimestampsUtc(AllStamps(OkTxs(rec.normal), rec.erc20, rec.erc721)) == Success(stamps)
    requires deployed == |DeployedSet(OkTxs(rec.normal), address, SummarySampling(src.checksummed), src.trace, src.receipt)|
    requires var cset := ConfirmedContracts(CheckedDestinations(OkTxs(rec.normal), None), src.code);
      unique == |cset| && total == TotalInteractions(OkTxs(rec.normal), cset) && unique <= total <= |OkTxs(rec.normal)|
    requires TradeFacts(bridge, volume, swapFigures, OkTxs(rec.normal), rec.erc20, address, GetPrices(src.priceReply))
    requires bridge.depositedEth <= volume.eth && (bridge.depositedEth > 0.0 ==> bridge.nativeBridgeUsed)
    requires swapFigures.usdcTrades <= swapFigures.stablecoinTxs && swapFigures.stablecoinTypes <= 7
    ensures body.baseEns == baseEns && ReportFacts(body, address, rec, src)
  {
    var ok := OkTxs(rec.normal);
    SummaryBody(
      address, baseEns, BalanceEth(src.balanceReply.value), volume, |ok|, |rec.erc20| + |rec.erc721|,
      a.walletAgeDays, a.uniqueDays, a.uniqueWeeks, a.uniqueMonths, total, unique, bridge,
      ComputeThresholds(bridge.depositedUsd, volume.usdTotal, a.uniqueMonths, total),
      stamps, MainnetLaunch, HolidayDates(stamps), swapFigures,
      TokenKinds(rec.erc20), TokenKinds(rec.erc721), volume.eth, GasEth(ok), deployed,
      ClinicCounts(ProtoEntries(ok, rec.erc20, rec.erc721)))
  }

  /** The bridge, volume and swap blocks, all priced with the one price read. */
  method TradeBlock(ok: seq<NormalTx>, erc20: seq<TokenTransfer>, address: string, priceReply: Option<PriceHttp>)
    returns (bridge: BridgeFigures, volume: Volume, swapFigures: SwapFigures)
    ensures TradeFacts(bridge, volume, swapFigures, ok, erc20, address, GetPrices(priceReply))
    ensures bridge.depositedEth <= volume.eth
    ensures bridge.depositedEth > 0.0 ==> bridge.nativeBridgeUsed
    ensures swapFigures.usdcTrades <= swapFigures.stablecoinTxs && swapFigures.stablecoinTypes <= 7
  {
    var px := GetPrices(priceReply);
    bridge := BridgeBlock(ok, erc20, address, px.eth);
    volume := ComputeVolume(ok, erc20, px);
    swapFigures := DetectSwaps(ok, erc20, address, px.eth);
  }

  /** The bridge, volume and swap blocks, each as defined over the records at the prices `px`. */
  ghost predicate TradeFacts(bridge: BridgeFigures, volume: Volume, swapFigures: SwapFigures,
                             ok: seq<NormalTx>, erc20: seq<TokenTransfer>, address: string, px: Prices) {
    && volume == ComputeVolume(ok, erc20, px)
    && BridgeFacts(bridge, ok, erc20, address, px.eth)
    && SwapFiguresOf(swapFigures, ok, erc20, address, px.eth)
  }

  /** The activity figures: wallet age and the day, week and month buckets. */
  ghost predicate ActivityFacts(body: SummaryBody, ok: seq<NormalTx>, now: int) {
    && body.walletAgeDays == WalletAgeDays(ok, now)
    && body.uniqueDays == |Image(ok, DayKey)| && body.uniqueWeeks == |Image(ok, WeekKey)|
    && body.uniqueMonths == |Image(ok, MonthKey)|
  }

  /** The contract-interaction figures, every destination checked. */
  ghost predicate InteractionFacts(body: SummaryBody, ok: seq<NormalTx>, code: string -> Option<string>) {
    var cset := ConfirmedContracts(CheckedDestinations(ok, None), code);
    && body.uniqueInteractions == |cset|
    && body.totalInteractions == TotalInteractions(ok, cset)
  }

  /** The timestamp list and the holiday dates drawn from it. */
  ghost predicate StampFacts(body: SummaryBody, rec: Records) {
    && TimestampsUtc(AllStamps(OkTxs(rec.normal), rec.erc20, rec.erc721)) == Success(body.allTxTimestampsUtc)
    && body.holidayDatesUtc == HolidayDates(body.allTxTimestampsUtc)
    && body.mainnetLaunchUtc == MainnetLaunch
  }

  /**
   * What the report promises about its figures: each one equals its
   * definition over the records and the answers, with the bounds that follow.
   */
  ghost predicate ReportFacts(body: SummaryBody, address: string, rec: Records, src: Sources) {
    var ok := OkTxs(rec.normal);
    && body.address == address
    && body.nativeTxs == |ok| && body.tokenTxs == |rec.erc20| + |rec.erc721|
    && src.balanceReply.Success? && body.balanceEth == BalanceEth(src.balanceReply.value)
    && ActivityFacts(body, ok, src.now)
    && body.uniqueMonths <= body.uniqueDays <= body.nativeTxs
    && InteractionFacts(body, ok, src.code)
    && body.uniqueInteractions <= body.totalInteractions <= body.nativeTxs
    && TradeFacts(body.bridge, body.volume, body.swapFigures, ok, rec.erc20, address, GetPrices(src.priceReply))
    && body.totalVolumeEth == body.volume.eth
    && body.bridge.depositedEth <= body.totalVolumeEth
    && (body.bridge.depositedEth > 0.0 ==> body.bridge.nativeBridgeUsed)
    && body.swapFigures.usdcTrades <= body.swapFigures.stablecoinTxs
    && body.swapFigures.stablecoinTypes <= 7
    && body.thresholds == ComputeThresholds(body.bridge.depositedUsd, body.volume.usdTotal,
                                            body.uniqueMonths, body.totalInteractions)
    && body.clinics == ClinicCounts(ProtoEntries(ok, rec.erc20, rec.erc721))
    && body.deployedContracts == |DeployedSet(ok, address, SummarySampling(src.checksummed), src.trace, src.receipt)|
    && body.erc20Count == TokenKinds(rec.erc20) && body.nftCount == TokenKinds(rec.erc721)
    && body.erc20Count <= |rec.erc20| && body.nftCount <= |rec.erc721|
    && body.gasEth == GasEth(ok) && body.gasEth >= 0.0
    && StampFacts(body, rec)
    && Sorted(body.allTxTimestampsUtc) && NoDuplicates(body.allTxTimestampsUtc)
    && NoDuplicates(body.holidayDatesUtc)
  }

  /** The request as far as the address: ping, a 400, or the resolved address. */
  function Resolved(req: Request, src: Sources): Option<string> {
    ResolveAddressOrName(Trim(req.address.GetOr("")), src.checksummed, src.lookup)
  }

  /** `GET /api/summary` */
  method Summary(req: Request, src: Sources, ghost last: nat) returns (resp: Response)
    requires 1 <= last && EndsAt(src.fetchPage, last)
    ensures req.debug == Some("ping") ==> resp == Ping
    ensures req.debug != Some("ping") && Resolved(req, src).None? ==> resp == BadRequest("Invalid address or name")
    ensures req.debug != Some("ping") && Resolved(req, src).Some? && ReadRecords(src, last).Failure? ==>
      resp == ServerError(ErrorMessage(ReadRecords(src, last).error))
    ensures req.debug != Some("ping") && Resolved(req, src).Some? && ReadRecords(src, last).Success? ==>
      if ReportReady(ReadRecords(src, last).value, src) then resp.Report?
      else resp == ServerError(ErrorMessage(BuildError(ReadRecords(src, last).value, src)))
    ensures resp.Report? ==>
      && Resolved(req, src).Some? && ReadRecords(src, last).Success?
      && resp.body.baseEns == BaseEns(Trim(req.address.GetOr("")), Resolved(req, src).value, src.baseName)
      && ReportFacts(resp.body, Resolved(req, src).value, ReadRecords(src, last).value, src)
  {
    if req.debug == Some("ping") {
      return Ping;
    }
    var raw := Trim(req.address.GetOr(""));
    var address := ResolveAddressOrName(raw, src.checksummed, src.lookup);
    if address.None? {
      return BadRequest("Invalid address or name");
    }
    var baseEns := BaseEns(raw, address.value, src.baseName);
    var rec := FetchRecords(src, last);
    if rec.Failure? {
      return ServerError(ErrorMessage(rec.error));
    }
    var report := BuildReport(address.value, baseEns, rec.value, src);
    if report.Failure? {
      return ServerError(ErrorMessage(report.error));
    }
    return Report(report.value);
  }
}
