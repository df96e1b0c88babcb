# Onchain Clinic: a verified model of the wallet report

Onchain Clinic reads a Base wallet's public history and turns it into a
"medical report". The server side is the `GET /api/summary` route and its
lighter companion `GET /api/summary/details`, with their shared helpers. The
report is scored by a health score and a radar wallet score, and rendered as
badges and summary cards. Two offline tools come with it: a Python swap
counter and a protocol discovery script.

This project models that core in Dafny and proves what each part promises:

- **Records** (`ledger.dfy`): the successful transactions, sent hashes and
  contract destinations both routes derive from the Etherscan lists.
- **Shared helpers** (`shared_utils.dfy`, `calendar.dfy`, `instants.dfy`):
  - `toStr`, `lc`, `sIncludes`, `ensureArray`;
  - the `v2url` query and the retried `etherscanV2` call;
  - `prices()`;
  - the ISO day, week and month keys.
- **The summary route** (`summary_route.dfy` and the modules it imports):
  - address and name resolution;
  - paging through normal transactions;
  - activity buckets;
  - contract interactions and deployments (direct, traced, receipts);
  - bridge detection;
  - the swap heuristics;
  - volumes, gas, special-clinic counters and thresholds;
  - lifestyle timestamps;
  - the final response or error.
- **The details route** (`details_route.dfy`): the address guard, the capped
  code checks and the deployment patch.
- **Scores** (`health_score.dfy`, `wallet_score.dfy`): `computeHealth`,
  `computeDimensions` and `computeWalletScore`.
- **Basename lookup** (`basename.dfy`): `strToHex`, `labelhash`, `namehash`
  (EIP-137) and the three-strategy reverse lookup.
- **Protocol registry** (`protocols.dfy`): the lower-case, duplicate-free
  address lists built at module load.
- **Swap counter** (`swap_counter.dfy`): `count_swaps_base.py`.
- **Protocol discovery** (`discover_protocols.dfy`): `discover-protocols.ts`.
- **Badges** (`badges.dfy`, `lifestyle_badge.dfy`): nine badge cards and
  their progress.
- **UI helpers**:
  - Doctor's Summary (`doctor_summary.dfy`);
  - Final Diagnosis card (`final_diagnosis.dfy`);
  - Main Report table (`main_report_table.dfy`);
  - Verify panel (`verify_panel.dfy`).

`wrappers.dfy`, `text.dfy`, `collections.dfy` and `numbers.dfy` hold the
JavaScript built-ins the model needs: string case, search, trim and split;
array filter, map and slice; `Set`; `Math.round`.

Network answers are parameters of the model: Etherscan pages, receipts,
traces, `getCode`, the name services, CoinGecko and the clock. A step that
loops or mutates in the source is a Dafny method with loop invariants. Each
such method is proved equal to a specification function, and the
properties are proved about that function.

## Model

| member | source | states |
|---|---|---|
| Address.LowerAddress | app/api/summary/route.ts:264 | the lower-cased form of a hex address is still an address under any checksum rule, and is lower case |
| Address.LowerCaseAddress | app/api/summary/details/route.ts:61-62 | on lower-case text, passing the address check is exactly having the 0x + 40 hex digits shape |
| Address.ResolveAddressOrName | app/api/summary/route.ts:261-275 | a result is always a lower-case, valid address; empty input gives null; a 0x address is returned lower-cased; text that is neither an address nor dotted gives null; a dotted name with an ok reply gives its `address` (else `addr`) lower-cased when that is a valid address, and null otherwise |
| Address.ResolveHexIgnoresLookup | app/api/summary/route.ts:264 | a hex address resolves the same whatever the name service answers |
| Address.ResolveFailedLookup | app/api/summary/route.ts:265-274 | an unreachable name service or a non-ok reply resolves to null |
| DetailsRoute.RawAddress | app/api/summary/details/route.ts:61 | the normalised query parameter is lower case |
| DetailsRoute.AcceptsAddressShape | app/api/summary/details/route.ts:62 | the route's guard accepts exactly the 0x + 40 hex shape |
| DetailsRoute.Details | app/api/summary/details/route.ts:59-132 | 400 "invalid address" iff the guard rejects; an accepted address whose list read succeeds always gets a patch; a failed list read is unhandled; a patch holds the deployed count of the route's sampling, unique/total interactions over at most 300 checked destinations with unique <= total <= successful txs, and partial false |
| DetailsRoute.DetailsPatch | app/api/summary/details/route.ts:75-131 | the patch holds the deployed count under the route's 150/250 sampling, unique interactions = the confirmed contracts among at most 300 checked destinations, total = the transactions to them, unique <= total <= successful txs, and partial false |
| DetailsRoute.DetailsDeployedProvenance | app/api/summary/details/route.ts:75-100 | every counted deployment is a direct create, a successful create/create2 traced in the last 150 sent hashes, or a receipt address of the last 250 |
| Ledger.OkTxs | app/api/summary/route.ts:329 | keeps exactly the records whose isError reads "0" |
| Ledger.WeiToEth | app/api/summary/route.ts:428 | ether amounts are never negative |
| Ledger.TokenUnits | app/api/summary/route.ts:475 | token amounts in whole units are never negative |
| Ledger.SentHashes | app/api/summary/route.ts:332-335 | exactly the non-empty hashes of successful txs sent by the address, no more of them than txs |
| Ledger.Destinations | app/api/summary/route.ts:393-394 | exactly the lower-cased non-empty `to` fields of successful txs |
| Ledger.DestinationList | app/api/summary/route.ts:393-395 | lists each destination once and all of them |
| Ledger.TotalInteractions | app/api/summary/route.ts:400 | never exceeds the number of successful txs |
| Ledger.UniqueAtMostTotal | app/api/summary/route.ts:397-400 | for confirmed contracts among the destinations, unique interactions <= total interactions <= successful txs |
| SummaryActivity.WalletAgeDays | app/api/summary/route.ts:373-374 | 0 without a first tx or with a zero timestamp; otherwise the floor of the elapsed days |
| SummaryActivity.CollectBuckets | app/api/summary/route.ts:376-384 | succeeds iff every timestamp is in the Date range (otherwise the RangeError); the three sets are the images of isoDay, isoWeek, isoMonth |
| SummaryActivity.DaysAtMostTxs | app/api/summary/route.ts:379-385 | uniqueDays <= nativeTxs |
| SummaryActivity.MonthsAtMostDays | app/api/summary/route.ts:385-387 | uniqueMonths <= uniqueDays |
| SummaryActivity.WeeksAtMostDays | app/api/summary/route.ts:385-387 | uniqueWeeks <= uniqueDays for four-digit years |
| SummaryPaging.Batch | app/api/summary/route.ts:167 | a non-array result is an empty batch |
| SummaryPaging.PagesFromFull | app/api/summary/route.ts:153-175 | a successful read contains the first page; a failure comes from some failed page call; a failed first page is the failure |
| SummaryPaging.PagesFromBound | app/api/summary/route.ts:156-173 | the result does not depend on which ending page bounds the loop |
| SummaryPaging.FetchAllNormalTxs | app/api/summary/route.ts:153-175 | the paging loop equals the page-concatenation function up to the first short page |
| SummaryRoute.ErrorMessage | app/api/summary/route.ts:719-724 | the 500 message is never empty, and is the error's message when it has one |
| SummaryRoute.BaseEns | app/api/summary/route.ts:293-296 | a typed .base.eth name is kept lower-cased; otherwise the reverse lookup's answer |
| SummaryRoute.FetchRecords | app/api/summary/route.ts:301-327 | reading the three lists equals the read-records function |
| SummaryRoute.BridgeBlock | app/api/summary/route.ts:402-463 | deposits, native-bridge flag and per-provider counters equal their reference definitions; a deposit implies native use; deposits <= volume; third-party use iff some counter is positive |
| SummaryRoute.ClinicCounts | app/api/summary/route.ts:592-623 | one counter per protocol, each the countProto count and at most the number of entries; lendingAny iff aave > 0 or some entry calls borrow/repay/liquidate |
| SummaryRoute.ActivityBlock | app/api/summary/route.ts:372-387 | succeeds iff all timestamps are datable; the age and the three unique counts are their definitions, months <= days <= txs |
| SummaryRoute.InteractionBlock | app/api/summary/route.ts:392-400 | unique is the number of confirmed contracts among the checked destinations, total the interaction count over them, unique <= total <= txs |
| SummaryRoute.DeployedBlock | app/api/summary/route.ts:575-589 | the deployed count is the size of the union of direct, traced and receipt creations |
| SummaryRoute.BuildReport | app/api/summary/route.ts:371-696 | succeeds iff every timestamp is datable, the balance call succeeds and every stamp is a valid time; a failure is the first of these errors; a success satisfies every report figure's definition (each field equal to its reference function) |
| SummaryRoute.AssembleReport | app/api/summary/route.ts:389-696 | the assembled body equals, field by field, the reference definitions of the report figures |
| SummaryRoute.ComposeBody | app/api/summary/route.ts:625-690 | the body keeps baseEns and every field equals its definition: balance, bridge and volume at the one price read, swap figures, thresholds, clinic counters, token kinds, gas, sorted distinct timestamps and holiday dates |
| SummaryRoute.TradeBlock | app/api/summary/route.ts:402-563 | bridge, volume and swap blocks share the single price read: the volume equals its definition at that price; deposits, USD deposits, native flag and provider counters equal theirs; the swap figures equal theirs with maxSwapUsd bounding and attaining the estimates; deposits never exceed the volume and imply native-bridge use |
| SummaryRoute.Summary | app/api/summary/route.ts:278-726 | ping answers alive; unresolvable input is 400; a failed list read is a 500 with its message; a resolved, read request is a report iff its report is ready, otherwise a 500 with the build error's message; a report carries the resolved address's figures and the baseEns rule |
| SharedUtils.ToStr | app/api/summary/_shared/utils.ts:7 | null/undefined give "", a string is itself, a number its decimal text |
| SharedUtils.Lc | app/api/summary/_shared/utils.ts:8 | lower case, same length as toStr, "" for null/undefined |
| SharedUtils.EnsureArray | app/api/summary/_shared/utils.ts:10 | an array is kept, anything else becomes [] |
| SharedUtils.SIncludesIgnoresCase | app/api/summary/_shared/utils.ts:9 | sIncludes gives the same answer whatever the case of either argument |
| SharedUtils.SIncludesSubstring | app/api/summary/_shared/utils.ts:9 | a literal substring is always found |
| SharedUtils.IsHttpUrlOnlyHttp | app/api/summary/_shared/utils.ts:12-18 | true only for text whose protocol is http: or https:; null or "" is false |
| SharedUtils.WithRetry | app/api/summary/_shared/utils.ts:28-35 | at most `tries` calls; success is the first successful call after failures; failure means every call failed and rethrows the last error |
| SharedUtils.SetParam | app/api/summary/_shared/utils.ts:39-40 | after set, the key reads the new value, other keys are unchanged, keys stay distinct, the first other pair keeps its place |
| SharedUtils.V2Query | app/api/summary/_shared/utils.ts:37-43 | the built query has distinct keys |
| SharedUtils.V2QueryValues | app/api/summary/_shared/utils.ts:37-43 | apikey holds the key when configured; chainid holds 8453 unless overridden; every other key its last given value |
| SharedUtils.V2QueryChainFirst | app/api/summary/_shared/utils.ts:38-40 | chainid=8453 stays the first parameter unless the caller sets chainid |
| SharedUtils.EtherscanAttempt | app/api/summary/_shared/utils.ts:46-50 | a falsy body throws etherscan_v2_parse_error; a JSON body is returned; a network error is rethrown |
| SharedUtils.EtherscanV2 | app/api/summary/_shared/utils.ts:45-52 | succeeds iff one of the three attempts gets a JSON body, returning the body of the first attempt that does; otherwise the last attempt's error |
| SharedUtils.GetPrices | app/api/summary/_shared/utils.ts:55-72 | any failure gives eth 0 / usdc 1; otherwise the quoted prices with those defaults for missing ones |
| Calendar.CivilFromDays | app/api/summary/_shared/utils.ts:77 | the civil date of a day number is valid and converts back to the same day number |
| Calendar.WeekDay | app/api/summary/_shared/utils.ts:78 | getUTCDay lies in 0..6 |
| Calendar.YearText | app/api/summary/_shared/utils.ts:74 | four year digits for years 0..9999, sign and six digits otherwise |
| Calendar.DateText | app/api/summary/_shared/utils.ts:74 | ten characters for four-digit years |
| Calendar.IsoString | app/api/summary/_shared/utils.ts:74 | the ISO string is at least 24 characters and starts with the date text |
| Calendar.IsoDay | app/api/summary/_shared/utils.ts:74 | ten characters |
| Calendar.IsoMonth | app/api/summary/_shared/utils.ts:84 | seven characters, the prefix of isoDay |
| Calendar.IsoDayIsCivilDate | app/api/summary/_shared/utils.ts:74 | for four-digit years isoDay is the UTC date as YYYY-MM-DD |
| Calendar.IsoDaySameDay | app/api/summary/_shared/utils.ts:74 | isoDay is constant within a UTC day |
| Calendar.IsoDayInjective | app/api/summary/_shared/utils.ts:74 | for four-digit years equal isoDay texts mean the same UTC day |
| Calendar.CeilDiv | app/api/summary/_shared/utils.ts:81 | Math.ceil(a / b) is the least q with a <= b * q |
| Calendar.ThursdayWeek | app/api/summary/_shared/utils.ts:79-81 | the week number lies in 1..53 |
| Calendar.IsoWeekOf | app/api/summary/_shared/utils.ts:75-83 | the ISO week number lies in 1..53 |
| Calendar.ThursdayWeekShift | app/api/summary/_shared/utils.ts:79-82 | Thursdays a week apart get different week labels |
| Calendar.WeekLabelInjective | app/api/summary/_shared/utils.ts:82 | the label YYYY-Www determines year and week |
| Calendar.IsoWeekThursdayYear | app/api/summary/_shared/utils.ts:75-83 | the label names the year of the week's Thursday and a week 1..53 |
| Calendar.ThursdayOfWeek | app/api/summary/_shared/utils.ts:78-79 | Monday to Sunday of one week share the same Thursday |
| Calendar.IsoWeekConstantWithinWeek | app/api/summary/_shared/utils.ts:75-83 | isoWeek is constant from Monday through Sunday |
| Calendar.IsoWeekChangesOnMonday | app/api/summary/_shared/utils.ts:75-83 | the label changes between a Sunday and the next Monday |
| Calendar.IsoWeekNewYear2024 | app/api/summary/_shared/utils.ts:75-83 | 2024-01-01 (a Monday) is 2024-W01 |
| Calendar.IsoWeekNewYear2023 | app/api/summary/_shared/utils.ts:75-83 | 2023-01-01 (a Sunday) is 2022-W52 |
| Calendar.IsoWeekFollowsIsoDay | app/api/summary/_shared/utils.ts:74-83 | equal isoDay texts give equal isoWeek labels |
| Bridges.Bump | app/api/summary/route.ts:438-444 | each counter goes up by one exactly for the providers the record touches; "any" iff some provider is touched |
| Bridges.BumpKeepsUsed | app/api/summary/route.ts:438-444 | usedThirdPartyBridge stays equal to "some counter is positive" |
| Bridges.Tally | app/api/summary/route.ts:438-444 | counters bumped for touched providers; the used flag is "some counter positive" |
| Bridges.ScanTxs | app/api/summary/route.ts:424-445 | deposits, native flag and counters equal their reference counts over the txs; used iff some counter positive |
| Bridges.ScanTransfers | app/api/summary/route.ts:447-463 | the native flag and counters extend the first loop's by the transfers' hits |
| Bridges.BridgeActivity | app/api/summary/route.ts:402-463 | deposits, native flag, per-provider counts over txs and transfers; third-party use iff some counter positive |
| Bridges.DepositMeansNative | app/api/summary/route.ts:430-434 | a positive deposit implies the native bridge was used |
| Bridges.DepositedNonNegative | app/api/summary/route.ts:433 | deposits never sum below 0 |
| ContractChecks.CheckedDestinations | app/api/summary/details/route.ts:103-105 | checked addresses are destinations; all of them without a cap, at most cap with one |
| ContractChecks.ConfirmedContracts | app/api/summary/details/route.ts:121-122 | exactly the checked addresses whose code is a contract |
| ContractChecks.CheckContracts | app/api/summary/details/route.ts:106-120 | one result per index, each the code check of that address |
| ContractChecks.ContractSet | app/api/summary/details/route.ts:121-122 | the set holds exactly the addresses whose result is true |
| ContractChecks.ConfirmContracts | app/api/summary/details/route.ts:102-122 | the collected set equals the confirmed-contracts definition |
| ContractChecks.ConfirmedAtMostChecked | app/api/summary/details/route.ts:121-123 | no more contracts than checked addresses |
| ContractChecks.Interactions | app/api/summary/details/route.ts:102-124 | unique and total interactions over the confirmed set, unique <= total <= txs, unique <= cap |
| Deployments.TracedInternalsSource | app/api/summary/route.ts:178-195 | every traced internal call comes from some requested hash's answer |
| Deployments.FetchInternals | app/api/summary/route.ts:178-195 | the pool's output is the concatenation of the answers, a failed request skipped |
| Deployments.FetchReceipts | app/api/summary/route.ts:198-214 | one entry per requested hash, holding its receipt's contract address or null |
| Deployments.InternalCreations | app/api/summary/route.ts:347-354 | exactly the lower-cased addresses of successful, accepted create/create2 calls |
| Deployments.ReceiptCreations | app/api/summary/route.ts:356-358 | exactly the non-empty, accepted, lower-cased receipt addresses |
| Deployments.DirectCreations | app/api/summary/route.ts:576-582 | exactly the lower-cased created addresses of successful txs to "" or the zero address |
| Deployments.CollectDeployments | app/api/summary/route.ts:332-589 | the deployed set is the union of the three sources and no smaller than any of them |
| Deployments.DeployedProvenance | app/api/summary/route.ts:337-358 | every deployment is direct, traced in the last 400 sent hashes, or read from the receipts of the last 600 |
| Swaps.DexRouters | app/api/summary/route.ts:486-491 | exactly the lower-cased addresses of the five DEX protocols |
| Swaps.StableSymbolCount | app/api/summary/route.ts:506 | seven stable symbols |
| Swaps.StableUsd | app/api/summary/route.ts:518 | a stable leg's value is never negative |
| Swaps.AnyUsd | app/api/summary/route.ts:519 | a leg's value is never negative |
| Swaps.AggForMeaning | app/api/summary/route.ts:505-522 | hasIn/hasOut iff some leg of the hash enters/leaves the wallet; stableUsd/anyUsd are the maxima over the legs (or 0) |
| Swaps.AggForAbsent | app/api/summary/route.ts:515 | a hash without transfers has the empty aggregate |
| Swaps.TransferHashes | app/api/summary/route.ts:507-509 | exactly the non-empty hashes of the transfers |
| Swaps.AggregateTransfers | app/api/summary/route.ts:505-522 | byHash has one entry per transfer hash, each its aggregate |
| Swaps.LastWithHashMeaning | app/api/summary/route.ts:537-539 | finds the last tx with that hash, none iff there is none |
| Swaps.SwapLookingHashes | app/api/summary/route.ts:537-541 | exactly the non-empty hashes of txs that look like swaps |
| Swaps.LastWithHashSnoc | app/api/summary/route.ts:539 | in okByHash the last write wins |
| Swaps.SwapLookingSnoc | app/api/summary/route.ts:540 | one loop step adds the hash iff it is non-empty and the tx looks like a swap |
| Swaps.RecordLast | app/api/summary/route.ts:539 | okByHash keeps mapping each hash to its last tx |
| Swaps.IndexOkTxs | app/api/summary/route.ts:535-541 | swap-looking hashes and okByHash equal their definitions |
| Swaps.AddTwoLegHashes | app/api/summary/route.ts:542 | adds exactly the hashes with an inbound and an outbound leg |
| Swaps.SwapHashes | app/api/summary/route.ts:535-543 | swapHashes is the union of the two heuristics |
| Swaps.SwapSetMeaning | app/api/summary/route.ts:524-543 | a hash is a swap iff it is non-empty and a tx with it looks like a swap, or it has both an inbound and an outbound ERC-20 leg |
| Swaps.UsdcTradesAtMostStable | app/api/summary/route.ts:545-547 | usdcTrades <= stablecoinTxs |
| Swaps.StablecoinTypesAtMostSeven | app/api/summary/route.ts:548-552 | stablecoinTypes <= 7 |
| Swaps.MaxSwapUsd | app/api/summary/route.ts:554-563 | non-negative, bounds every swap's estimate, and equals one of them when positive |
| Swaps.ByHash | app/api/summary/route.ts:505-522 | one entry per transfer hash |
| Swaps.DetectSwaps | app/api/summary/route.ts:485-563 | swaps is the size of the swap set; stable txs, USDC trades (<= stable txs) and stable types (<= 7) equal their definitions; maxSwapUsd bounds every swap's estimate over okByHash and equals one when positive |
| Swaps.OkByHash | app/api/summary/route.ts:535-541 | okByHash has exactly the successful hashes as keys, each mapped to the last tx with that hash |
| SummaryMetrics.VolumeEth | app/api/summary/route.ts:467 | the ether volume is never negative |
| SummaryMetrics.DepositedAtMostVolume | app/api/summary/route.ts:430-467 | native deposits lie between 0 and the volume |
| SummaryMetrics.UsdcAmount | app/api/summary/route.ts:470-476 | the USDC amount is never negative |
| SummaryMetrics.ComputeVolume | app/api/summary/route.ts:466-477 | eth and usdcAmount are their definitions; the ether part is eth × px.eth; the USD total exceeds it by the USDC amount at the USDC rate (`px.usdc || 1`) |
| SummaryMetrics.VolumeBounds | app/api/summary/route.ts:468-477 | with non-negative prices 0 <= ethUsd <= usdTotal |
| SummaryMetrics.VolumeAtDefaultPrices | app/api/summary/route.ts:468-477 | at the fallback prices ether is worth 0 and USDC counts at par |
| SummaryMetrics.WeiText | app/api/summary/route.ts:480-482 | a string result is read; else a non-empty balance field; else "0" |
| SummaryMetrics.BalanceEth | app/api/summary/route.ts:483 | a number iff the wei text is decimal digits, then its value in ether, non-negative |
| SummaryMetrics.BalanceMissingIsZero | app/api/summary/route.ts:480-483 | a missing balance reads as 0 ether |
| SummaryMetrics.GasFee | app/api/summary/route.ts:570-572 | a fee is never negative, and 0 when gas or price is 0 |
| SummaryMetrics.GasEth | app/api/summary/route.ts:569-573 | the gas total is never negative |
| SummaryMetrics.GasEthWithoutPrices | app/api/summary/route.ts:571-572 | without gas prices the total is 0 |
| SummaryMetrics.TokenKinds | app/api/summary/route.ts:566-567 | at most one kind per transfer, at least one when there is a transfer |
| SummaryMetrics.ProtoEntries | app/api/summary/route.ts:592-596 | one entry per tx and transfer, txs first; transfer entries have no function name |
| SummaryMetrics.CountProto | app/api/summary/route.ts:597-608 | never more than the entries |
| SummaryMetrics.NoKeywordInEmpty | app/api/summary/route.ts:605 | no protocol keyword occurs in an empty function name |
| SummaryMetrics.TransferHitsByAddress | app/api/summary/route.ts:594-605 | a transfer counts for a protocol iff its to/from is one of the protocol's (non-empty) addresses |
| SummaryMetrics.LimitlessByKeyword | app/api/summary/route.ts:605-614 | limitless has no address, so it counts the entries mentioning its keyword |
| SummaryMetrics.LendingAnyMeaning | app/api/summary/route.ts:618-623 | lendingAny iff aave > 0 or some function name mentions "liquidate" |
| SummaryMetrics.ComputeThresholds | app/api/summary/route.ts:625-639 | each lowest flag holds iff its figure reaches 10000 USD, 10000 USD, 2 months, 4 interactions |
| SummaryMetrics.ThresholdLadders | app/api/summary/route.ts:625-639 | within each family a higher flag implies every lower one |
| SummaryMetrics.AllStamps | app/api/summary/route.ts:642-647 | one stamp per tx and transfer |
| SummaryMetrics.IsosOfStamps | app/api/summary/route.ts:644-646 | the ISO strings are exactly those of the stamps |
| SummaryMetrics.SortKeeps | app/api/summary/route.ts:648 | sorting keeps the elements and distinctness |
| SummaryMetrics.TimestampsUtc | app/api/summary/route.ts:642-648 | fails with "Invalid time value" iff some stamp is out of range; else sorted, distinct, exactly the stamps' ISO strings |
| SummaryMetrics.HolidayDates | app/api/summary/route.ts:649-651 | distinct, no more than the stamps, exactly the date parts whose month-day is a holiday |
| SummaryMetrics.DatePartIsIsoDay | app/api/summary/route.ts:650 | the date part of a stamp's ISO string is its isoDay |
| HealthScore.Cap | app/lib/healthScore.ts:57 | the share of the target reached lies in [0, 1] |
| HealthScore.CapFull | app/lib/healthScore.ts:57 | cap is 1 exactly when the target is reached, and v / target below it |
| HealthScore.Smooth | app/lib/healthScore.ts:58 | the smooth curve lies in [0, 1] |
| HealthScore.SmoothAtTarget | app/lib/healthScore.ts:58 | at its target the smooth curve is 2/3 |
| HealthScore.ActiveDays | app/lib/healthScore.ts:74-79 | the larger of the distinct date prefixes and the fallback |
| HealthScore.Values | app/lib/healthScore.ts:157 | the six area scores in key order |
| HealthScore.Percentage | app/lib/healthScore.ts:106 | a [0, 1] mix rounds to a percentage in [0, 100] |
| HealthScore.ActivityScore | app/lib/healthScore.ts:101-106 | the activity area lies in [0, 100] |
| HealthScore.DiversityScore | app/lib/healthScore.ts:109-114 | the diversity area lies in [0, 100] |
| HealthScore.ClinicBonus | app/lib/healthScore.ts:123-126 | the clinic bonus lies in [0, 1] |
| HealthScore.UsageScore | app/lib/healthScore.ts:117-129 | the usage area lies in [0, 100] |
| HealthScore.VolumeScore | app/lib/healthScore.ts:132-133 | the volume area lies in [0, 100] |
| HealthScore.DeploymentScore | app/lib/healthScore.ts:153 | the deployment area lies in [0, 100] |
| HealthScore.Earliest | app/lib/healthScore.ts:142-145 | the first of the sorted dates is one of them and no later than any |
| HealthScore.FirstWeekIffAny | app/lib/healthScore.ts:143-147 | firstWeek holds exactly when there is a valid date |
| HealthScore.LifestyleChecks | app/lib/healthScore.ts:148 | four checks |
| HealthScore.LifestyleScore | app/lib/healthScore.ts:148-150 | the lifestyle area lies in [0, 100] |
| HealthScore.LifestyleQuarters | app/lib/healthScore.ts:136-150 | the lifestyle area is 25 per check that holds, and at least 25 once one date is valid |
| HealthScore.WeightsSumTo100 | app/lib/healthScore.ts:156 | the weights sum to 100 |
| HealthScore.OverallScoreBounds | app/lib/healthScore.ts:158-162 | areas in [0, 100] give a score in [0, 100] |
| HealthScore.LevelMonotone | app/lib/healthScore.ts:164-169 | a higher score never gets a lower level |
| HealthScore.LevelCutoffs | app/lib/healthScore.ts:164-169 | each level holds exactly on its score interval: <40, 40-59, 60-74, 75-89, >=90 |
| HealthScore.Emoji | app/lib/healthScore.ts:171-175 | one emoji per level |
| HealthScore.EmojiDistinct | app/lib/healthScore.ts:171-175 | different levels have different emojis |
| HealthScore.ExtremeAreas | app/lib/healthScore.ts:177-180 | strongest has the largest score with no earlier tie; weakest has the smallest with no later tie (the stable sort's order) |
| HealthScore.HealthMeaning | app/lib/healthScore.ts:66-183 | areas and score in [0, 100]; level and emoji follow the score; strongest/weakest as above |
| HealthScore.CountActiveDays | app/lib/healthScore.ts:74-78 | the loop counts the distinct ten-character prefixes |
| HealthScore.ComputeHealth | app/lib/healthScore.ts:66-183 | the method's result equals the health function |
| WalletScore.Clamp100 | app/lib/score.ts:22 | in [0, 100], identity inside, 0 below, 100 above |
| WalletScore.Scale | app/lib/score.ts:25 | the percentage of a positive target lies in [0, 100] |
| WalletScore.Ladder | app/lib/score.ts:41-50 | the maximum over a ladder of targets lies in [0, 100] |
| WalletScore.ScaleAntitone | app/lib/score.ts:25 | a larger target never scores higher |
| WalletScore.LadderIsFirst | app/lib/score.ts:41-50 | over ascending targets the ladder equals its first rung |
| WalletScore.LadderBase | app/lib/score.ts:43-48 | the first target of an ascending ladder is its smallest |
| WalletScore.TargetsAscend | app/lib/score.ts:41-100 | every ladder of targets ascends and is positive |
| WalletScore.ProtocolsRaw | app/lib/score.ts:87-102 | the protocol dimension lies in [0, 100] |
| WalletScore.Raw | app/lib/score.ts:37-102 | each unrounded dimension lies in [0, 100] |
| WalletScore.Dimensions | app/lib/score.ts:105-112 | six entries in key order, each the rounded raw value in [0, 100] |
| WalletScore.LaddersAreFirstRung | app/lib/score.ts:41-84 | history, activity, consistency and volume are their first rungs; 0.1 ETH or 10 days already give 100 |
| WalletScore.LendingBonus | app/lib/score.ts:101 | lending adds exactly 10 unless the clamp at 100 bites |
| WalletScore.ValueSumBounds | app/lib/score.ts:120 | the sum of n values in [0, 100] lies in [0, 100n] |
| WalletScore.ValuesOf | app/lib/score.ts:120 | the dimension values in order |
| WalletScore.ScoreBounds | app/lib/score.ts:120-121 | the rounded mean lies in [0, 100] |
| WalletScore.WalletScoreMeaning | app/lib/score.ts:117-135 | score in [0, 100] with the health cut-offs; strongest is the first dimension with the largest value, weakest the first with the smallest |
| Basename.Utf8Char | app/lib/basename.ts:24 | one to four bytes per character, one exactly for ASCII |
| Basename.Utf8CharRoundTrip | app/lib/basename.ts:24 | each encoded character decodes back to its code point, with well-formed lead and continuation bytes |
| Basename.Utf8 | app/lib/basename.ts:24 | between one and four bytes per character |
| Basename.Utf8Ascii | app/lib/basename.ts:24 | on ASCII text the bytes are the character codes |
| Basename.ByteHex | app/lib/basename.ts:26 | two lower-case hex digits per byte |
| Basename.HexOf | app/lib/basename.ts:26 | two lower-case hex digits per byte, nothing else |
| Basename.ParseHex | app/lib/basename.ts:38 | one byte per digit pair |
| Basename.HexRoundTrip | app/lib/basename.ts:26 | reading the hex text back gives the bytes |
| Basename.HexConcat | app/lib/basename.ts:38 | hex of concatenated bytes is the concatenated hex |
| Basename.HexString | app/lib/basename.ts:23-28 | "0x" then lower-case digits, two per UTF-8 byte, reading back to the UTF-8 bytes |
| Basename.StrToHex | app/lib/basename.ts:23-28 | the loop builds exactly that hex string |
| Basename.Keccak256 | app/lib/basename.ts:30 | a 0x-prefixed 66-character hash |
| Basename.LabelHash | app/lib/basename.ts:29-31 | the hash of the lower-cased label's UTF-8 bytes |
| Basename.Labels | app/lib/basename.ts:35 | the folded labels are non-empty, dot-free and lower case |
| Basename.SplitLowerCase | app/lib/basename.ts:35 | splitting lower-case text gives lower-case parts |
| Basename.NameHash | app/lib/basename.ts:32-41 | a 0x-prefixed 66-character node |
| Basename.NameHashLoop | app/lib/basename.ts:33-40 | the loop over reversed labels equals the namehash function |
| Basename.HashStep | app/lib/basename.ts:37-38 | one loop round on hex strings is one EIP-137 step on bytes |
| Basename.NameHashEmpty | app/lib/basename.ts:33-34 | the empty name is 32 zero bytes |
| Basename.LabelsCons | app/lib/basename.ts:35 | the labels of "label.rest" are the lower-cased label then those of rest |
| Basename.NameHashCons | app/lib/basename.ts:32-41 | namehash(label.rest) = keccak(namehash(rest) ++ labelhash(label)) |
| Basename.NameHashIgnoresCase | app/lib/basename.ts:35 | letter case does not change the node |
| Basename.NameHashIgnoresEmptyLabels | app/lib/basename.ts:35 | an empty label between dots does not change the node |
| Basename.ReverseNode | app/lib/basename.ts:76 | the reverse node is the suffix's node extended by the address's 40 lower-case hex digits |
| Basename.GetBasenameFor | app/lib/basename.ts:58-108 | a result ends in .base.eth; the universal resolver wins, then the Base registry, then the HTTP fallback |
| Basename.EachStrategyChecksSuffix | app/lib/basename.ts:67-104 | every strategy accepts only a name ending in .base.eth |
| Basename.ZeroResolverSkipsName | app/lib/basename.ts:84 | with a zero, empty or failed resolver the resolver's name call cannot matter |
| Basename.ThrowsFallThrough | app/lib/basename.ts:70-98 | when the first two strategies throw the HTTP answer decides |
| Protocols.KeyIndex | config/protocols.ts:3-5 | every protocol key has a place in the key list |
| Protocols.EnsureLowerUnique | config/protocols.ts:74-81 | the loop equals the lower-unique function |
| Protocols.LowerUniqueShape | config/protocols.ts:74-81 | the output is lower case, has no empty string and no duplicate |
| Protocols.LowerUniqueContents | config/protocols.ts:74-81 | the output holds exactly the lower-cased non-empty inputs, in first-occurrence order |
| Protocols.LowerUniqueIdempotent | config/protocols.ts:74-81 | normalising twice is normalising once |
| Protocols.AddressRegistry.constructor | config/protocols.ts:25-68 | the registry starts as declared |
| Protocols.AddressRegistry.Normalise | config/protocols.ts:83-87 | keys unchanged, every list replaced by its normalised form |
| Protocols.AddressRegistry.AddrSet | config/protocols.ts:90-93 | the set holds exactly the list's elements |
| Protocols.LoadRegistry | config/protocols.ts:25-87 | after load every list is the normalised declared list |
| SwapCounter.RouterIndex | count_swaps_base.py:141-144 | the index covers exactly the lower-cased router addresses |
| SwapCounter.AddressesTo | count_swaps_base.py:143-144 | each lower-cased address of one list maps to that protocol |
| SwapCounter.BuildRouterIndex | count_swaps_base.py:141-144 | the nested loop builds exactly the router index |
| SwapCounter.MapAddresses | count_swaps_base.py:143-144 | the inner loop overwrites the index with that protocol's addresses |
| SwapCounter.AddressesToSnoc | count_swaps_base.py:144 | one inner step is one map update |
| SwapCounter.ZeroExGoesToMatcha | count_swaps_base.py:40-44 | the 0x proxy listed twice ends up attributed to matcha |
| SwapCounter.BasescanGet | count_swaps_base.py:66-74 | raises iff the HTTP call failed or status is "0" without "No transactions found"; otherwise the result, [] when absent |
| SwapCounter.WithinWindowMeaning | count_swaps_base.py:99-104 | in the window iff each bound is absent, 0 (falsy), or respected |
| SwapCounter.RouterTxs | count_swaps_base.py:118-131 | exactly the hashes of in-window txs to a known router, each recording its router |
| SwapCounter.RouterTxsLastWins | count_swaps_base.py:126 | each recorded hash holds the last qualifying tx with that hash |
| SwapCounter.IndexRouterTxs | count_swaps_base.py:118-131 | the loop builds that map and lists its keys in insertion order |
| SwapCounter.GroupTransfers | count_swaps_base.py:147-153 | a hash is grouped iff it has in-window transfers, holding them in order |
| SwapCounter.ZeroTallies | count_swaps_base.py:135-138 | every protocol starts at 0 in both counters |
| SwapCounter.Bump | count_swaps_base.py:164-165 | bumping keeps the protocol key set |
| SwapCounter.SumBump | count_swaps_base.py:164-165 | adding one to a listed protocol adds one to the sum |
| SwapCounter.ZeroSum | count_swaps_base.py:137-138 | all-zero counters sum to 0 |
| SwapCounter.CountStepAgrees | count_swaps_base.py:155-177 | one round keeps the per-protocol counters summing to the totals |
| SwapCounter.TalliesStep | count_swaps_base.py:155-177 | one more visited hash keeps the tallies' meaning |
| SwapCounter.TalliesFacts | count_swaps_base.py:155-177 | the totals count the swaps and stable swaps visited and the per-protocol counters add up to them |
| SwapCounter.CountRecorded | count_swaps_base.py:155-177 | the last loop equals the tallies function over the hashes in insertion order |
| SwapCounter.CountIfDistinct | count_swaps_base.py:155 | counting over distinct keys is counting a set |
| SwapCounter.CountedHashes | count_swaps_base.py:155-177 | the hashes counted are exactly the swap and stable-swap hashes |
| SwapCounter.ProtoSwapHashes | count_swaps_base.py:155-177 | the swap hashes whose router belongs to the protocol |
| SwapCounter.PerProtoFacts | count_swaps_base.py:155-177 | after visiting some hashes, each protocol's counters count the visited swaps and stable swaps routed to it |
| SwapCounter.CountedPerProto | count_swaps_base.py:155-177 | the loop's per-protocol counters equal the sizes of the protocol's swap and stable-swap hash sets |
| SwapCounter.CountSwaps | count_swaps_base.py:106-177 | swaps and stable swaps are the sizes of their hash sets; each protocol's counters are the sizes of the swap and stable-swap hashes routed to that protocol; per-protocol counters sum to the totals; stable <= all per protocol |
| DiscoverProtocols.MatchKeywordFinds | scripts/discover-protocols.ts:89-92 | a keyword occurring verbatim is found, whatever the case of the text around it |
| DiscoverProtocols.MatchKeywordIgnoresCase | scripts/discover-protocols.ts:89-92 | texts equal up to letter case match the same keywords |
| DiscoverProtocols.NeighboursMeaning | scripts/discover-protocols.ts:101-108 | a neighbour is exactly the non-empty counterparty of a successful tx |
| DiscoverProtocols.NeighboursSnoc | scripts/discover-protocols.ts:101-108 | one loop step appends the counterparty iff the tx succeeded and it is non-empty |
| DiscoverProtocols.TargetsMeaning | scripts/discover-protocols.ts:135-139 | a target is exactly the non-empty lower-cased `to` of a successful tx |
| DiscoverProtocols.TargetsSnoc | scripts/discover-protocols.ts:135-139 | one loop step appends the `to` iff the tx succeeded and it is non-empty |
| DiscoverProtocols.FreqMap | scripts/discover-protocols.ts:107 | the counter map's keys are exactly the strings seen |
| DiscoverProtocols.FreqMapSnoc | scripts/discover-protocols.ts:107 | one more occurrence adds one to that counter and nothing else |
| DiscoverProtocols.DistinctSnoc | scripts/discover-protocols.ts:112 | a new key goes to the end of the Map's insertion order, a known one stays |
| DiscoverProtocols.Count | scripts/discover-protocols.ts:107 | counter map and insertion order keep agreeing with the strings seen |
| DiscoverProtocols.InsertByFreq | scripts/discover-protocols.ts:113 | insertion keeps the order by non-increasing count and adds exactly the new element |
| DiscoverProtocols.RankByFreq | scripts/discover-protocols.ts:113 | the sort is ordered by non-increasing count and is a permutation of the keys |
| DiscoverProtocols.RankByFreqStable | scripts/discover-protocols.ts:113 | the sort is stable: for every count, the keys with that count appear in the order they have in the input |
| DiscoverProtocols.InsertByFreqStable | scripts/discover-protocols.ts:113 | an inserted key goes behind every key with the same count |
| DiscoverProtocols.RankedFacts | scripts/discover-protocols.ts:111-113 | the ranking lists every string seen exactly once, by non-increasing count |
| DiscoverProtocols.EoasMeaning | scripts/discover-protocols.ts:116-119 | exactly the candidates the source check reports as not contracts |
| DiscoverProtocols.EoasAppend | scripts/discover-protocols.ts:116-119 | filtering distributes over concatenation |
| DiscoverProtocols.SeedsSaturate | scripts/discover-protocols.ts:120 | once twelve seeds are found later candidates change nothing |
| DiscoverProtocols.NeighbourFreq | scripts/discover-protocols.ts:100-108 | the loop's counter map and order tally the neighbours |
| DiscoverProtocols.SeedStep | scripts/discover-protocols.ts:118-119 | a candidate joins iff it is externally owned and new |
| DiscoverProtocols.PickSeeds | scripts/discover-protocols.ts:115-124 | the loop keeps the first twelve distinct seeds, the wallet first |
| DiscoverProtocols.SeedsFrom | scripts/discover-protocols.ts:99-126 | the seeds equal the seed function of the wallet's txs |
| DiscoverProtocols.BuildSeeds | scripts/discover-protocols.ts:95-127 | fails iff the wallet is unset or its txlist request fails; otherwise the seeds |
| DiscoverProtocols.SeedsFacts | scripts/discover-protocols.ts:95-127 | at most twelve seeds, the wallet first, no duplicates, each other seed an externally owned neighbour, all of them while fewer than twelve, and a left-out externally owned neighbour is counted no more often than any chosen seed |
| DiscoverProtocols.SeedsLeftOut | scripts/discover-protocols.ts:111-124 | an externally owned neighbour left out of the seeds is counted no more often than any seed besides the wallet |
| DiscoverProtocols.FilterDescending | scripts/discover-protocols.ts:113-119 | keeping only some of the ranked keys keeps the order by count |
| DiscoverProtocols.SeedTxsFails | scripts/discover-protocols.ts:132-134 | the scan fails iff some seed's request fails |
| DiscoverProtocols.CandidatesFacts | scripts/discover-protocols.ts:142-147 | min(1000, number of distinct destinations) candidates, each a destination, once each, most frequent first; all destinations when there are at most 1000; a left-out destination is counted no more often than the last candidate |
| DiscoverProtocols.Filed | scripts/discover-protocols.ts:162-177 | a protocol's list holds each qualifying candidate exactly once |
| DiscoverProtocols.FiledSnoc | scripts/discover-protocols.ts:162-177 | one candidate is pushed iff it qualifies and is new |
| DiscoverProtocols.FileAddress | scripts/discover-protocols.ts:169-173 | the address is pushed to exactly the protocols whose keywords the blob mentions, once |
| DiscoverProtocols.FileCandidates | scripts/discover-protocols.ts:162-177 | the filing loop equals the filed lists |
| DiscoverProtocols.TallyTargets | scripts/discover-protocols.ts:135-139 | the inner loop tallies one seed's targets |
| DiscoverProtocols.TargetFreq | scripts/discover-protocols.ts:131-140 | succeeds iff every seed's request does, tallying all targets |
| DiscoverProtocols.DiscoverFromSeeds | scripts/discover-protocols.ts:130-179 | fails iff some seed's request fails; otherwise every protocol's list is the filed candidates |
| DiscoverProtocols.SeedTxsPrefix | scripts/discover-protocols.ts:132-134 | a failed request in a prefix fails the whole scan |
| DiscoverProtocols.Run | scripts/discover-protocols.ts:181-187 | the wallet is lower-cased first; an unset wallet or failed wallet request fails; a set wallet whose requests all answer succeeds; a success is the discovery over the wallet's seeds |
| Badges.ProgressOf | app/badges/PatientHistory.tsx:18-20 | done counts the unlocked items, total is their number, pct in [0, 100]; pct is 100 iff every item is unlocked and 0 iff none is |
| Badges.ProgressOfSix | app/badges/PatientHistory.tsx:18-20 | on six items pct is the rounded sixth: 0, 17, 33, 50, 67, 83, 100 |
| Badges.Rungs | app/badges/PatientHistory.tsx:9-16 | rung i is unlocked iff the value reaches threshold i |
| Badges.PrefixCount | app/badges/PatientHistory.tsx:18 | a prefix-closed list holds exactly on its first done positions |
| Badges.LadderPrefix | app/badges/PatientHistory.tsx:9-18 | on ascending thresholds rung i is unlocked iff i < done |
| Badges.LadderCard | app/badges/PatientHistory.tsx:9-20 | complete iff the last threshold is reached, empty iff the first is not |
| Badges.TotalDeployed | app/badges/MedicalStaff.tsx:18 | never negative; a non-negative number is kept, NaN or a negative one is 0 |
| Badges.TotalReported | app/badges/MedicalStaff.tsx:20-24 | a missing breakdown reports 0 |
| Badges.MedicalStaff | app/badges/MedicalStaff.tsx:18-37 | rung i iff at least 3/5/10/20/50/100 deployed; complete iff >= 100, empty iff < 3; breakdown shown iff the reported sum is positive |
| Badges.SixLadder | app/badges/PatientHistory.tsx:9-20 | a six-rung card of the value |
| Badges.PatientHistory | app/badges/PatientHistory.tsx:9-20 | six rungs at 10/50/150/300/600/1000 days; complete iff >= 1000, nothing iff < 10 |
| Badges.TreatmentPlans | app/badges/TreatmentPlans.tsx:7-18 | six rungs at 10/20/50/100/500/1000 contracts; complete iff >= 1000, nothing iff < 10 |
| Badges.MedicationVariety | app/badges/MedicationVariety.tsx:7-18 | six rungs at 5/10/20/50/100/200 tokens; complete iff >= 200, nothing iff < 5 |
| Badges.OnchainDosage | app/badges/OnchainDosage.tsx:7-19 | six rungs at 0.1/0.5/1/5/10/25 ETH; complete iff >= 25, nothing iff < 0.1 |
| Badges.PrescriptionUsage | app/badges/PrescriptionUsage.tsx:20-55 | complete iff 50 swaps and the stablecoin, USDC, types and 10000 USD thresholds all hold; empty iff none holds; the 50-swaps item implies the 3-swaps item |
| Badges.UsdcNeedsStable | app/badges/PrescriptionUsage.tsx:29-34 | with usdcTrades <= stablecoinTxs, USDC Therapy is never unlocked without Stable Dose |
| Badges.SpecialClinics | app/badges/SpecialClinics.tsx:24-36 | seven items; the lending item iff lendingAny; complete iff all five protocols and Matcha reach 3 and lending is used; empty iff none |
| Badges.Referrals | app/badges/Referrals.tsx:21-32 | complete iff both bridge kinds are used and all four providers reach 3; empty iff none |
| Badges.ProviderNeedsThirdParty | app/badges/Referrals.tsx:22-27 | with the report's own flag a provider checkup implies the Third-party Referral item |
| Badges.MedicalRecords | app/badges/MedicalRecords.tsx:33-67 | the basename item iff baseEns is non-empty; complete iff all six hold; empty iff none |
| LifestyleBadge.UtcDay | app/badges/OnchainLifestyle.tsx:24-26 | on a valid instant the UTC date text |
| LifestyleBadge.Holidays | app/badges/OnchainLifestyle.tsx:45-49 | exactly the first ten characters of the holiday entries |
| LifestyleBadge.LifestyleItems | app/badges/OnchainLifestyle.tsx:81-88 | six items |
| LifestyleBadge.LifestyleCard | app/badges/OnchainLifestyle.tsx:81-92 | six items, done <= 6, pct the rounded sixth |
| LifestyleBadge.SomeValidDate | app/badges/OnchainLifestyle.tsx:41-43 | a property of some valid date is a property of some parseable timestamp |
| LifestyleBadge.MorningEvent | app/badges/OnchainLifestyle.tsx:52 | Morning Checkup iff some parseable timestamp has UTC hour in [6, 9) |
| LifestyleBadge.NightEvent | app/badges/OnchainLifestyle.tsx:55 | Night Shift iff some parseable timestamp has UTC hour in [0, 6) |
| LifestyleBadge.FirstAdmissionEvent | app/badges/OnchainLifestyle.tsx:58-63 | First Admission iff the launch parses and some timestamp falls in its first week |
| LifestyleBadge.DoctorsDayEvent | app/badges/OnchainLifestyle.tsx:66 | Doctor's Day iff some timestamp falls on 03-30 UTC |
| LifestyleBadge.HolidayEvent | app/badges/OnchainLifestyle.tsx:69-70 | Emergency Case iff some timestamp's UTC date is a holiday entry's first ten characters |
| LifestyleBadge.IntensiveEvent | app/badges/OnchainLifestyle.tsx:73-78 | Intensive Care iff some UTC day carries ten or more parseable timestamps |
| LifestyleBadge.NoDatesNoEvents | app/badges/OnchainLifestyle.tsx:41-90 | without a parseable timestamp nothing is unlocked |
| LifestyleBadge.OnchainLifestyle | app/badges/OnchainLifestyle.tsx:35-92 | the method's per-day loop yields exactly the card function |
| Instants.DateOf | app/badges/OnchainLifestyle.tsx:42 | a parsed date is within the Date range |
| Instants.ValidDates | app/badges/OnchainLifestyle.tsx:41-43 | exactly the valid instants some timestamp parses to, no more of them than timestamps |
| Instants.UtcHour | app/badges/OnchainLifestyle.tsx:19-22 | the UTC hour lies in 0..23 |
| Instants.Seconds | app/badges/OnchainLifestyle.tsx:25 | the whole second of a valid instant is in range |
| Instants.Ymd | app/badges/OnchainLifestyle.tsx:24-26 | ten characters, the isoDay of the instant's second |
| Instants.MonthDay | app/badges/OnchainLifestyle.tsx:28-31 | five characters, the tail of the date text |
| Instants.YmdSameDay | app/badges/OnchainLifestyle.tsx:24-26 | instants of the same UTC day have the same date text |
| DoctorSummary.LevelCase | components/DoctorSummary.tsx:88-122 | each of Elite, Healthy, Fair, Weak selects its own branch; every other string selects the default (Critical) branch |
| DoctorSummary.TipsByLevel | components/DoctorSummary.tsx:140-174 | three non-empty tips for every level |
| DoctorSummary.UnknownLevelIsCritical | components/DoctorSummary.tsx:114-121 | an unknown level gets exactly the accent, headline and tips of "Critical" |
| DoctorSummary.GroupsHaveTwoTips | components/DoctorSummary.tsx:176-223 | every branch of tipsFromArea holds two non-empty tips of each kind |
| DoctorSummary.TipsInFirstMatch | components/DoctorSummary.tsx:176-223 | the if-chain answers with the first branch whose keys match, else the fallback |
| DoctorSummary.TipsInShape | components/DoctorSummary.tsx:176-223 | whichever branch answers, two non-empty tips |
| DoctorSummary.TipsFromAreaShape | components/DoctorSummary.tsx:176-223 | tipsFromArea always gives two non-empty tips |
| DoctorSummary.TipsFromAreaFirstMatch | components/DoctorSummary.tsx:176-227 | the first group in the order gas, swap, lending, diversity, bridge, nft, volume, activity whose keys occur in the lower-cased area answers, else the fallback |
| DoctorSummary.TipsIgnoreCase | components/DoctorSummary.tsx:177 | an area and its upper-case spelling get the same tips |
| DoctorSummary.DedupeList | components/DoctorSummary.tsx:229-241 | the loop with its seen set equals the dedupe function |
| DoctorSummary.DedupeKept | components/DoctorSummary.tsx:229-241 | no longer than the input; kept entries are non-empty input entries with pairwise different trimmed lower-case keys |
| DoctorSummary.DedupeKeys | components/DoctorSummary.tsx:229-241 | the keys kept are exactly the keys of the non-empty entries |
| DoctorSummary.DedupeIsFirsts | components/DoctorSummary.tsx:229-241 | dedupe keeps exactly the first non-empty entry of each key, in input order |
| DoctorSummary.DedupeHead | components/DoctorSummary.tsx:229-241 | a non-empty first entry is kept, in front |
| DoctorSummary.FocusFacts | components/DoctorSummary.tsx:23-27 | one to five tips with distinct keys: the first five first-of-their-key among weakness, level and strength tips, opening with the first weakness tip |
| MainReportTable.FindRowMeaning | app/components/MainReportTable.tsx:52 | the row found is the first whose lower-cased name contains the label, none iff there is none |
| MainReportTable.LeadingRun | app/components/MainReportTable.tsx:54 | the longest prefix of digits and commas |
| MainReportTable.FirstRun | app/components/MainReportTable.tsx:54 | a match is a non-empty run of digits and commas |
| MainReportTable.FirstRunMeaning | app/components/MainReportTable.tsx:54-55 | no match iff no digit or comma; otherwise the maximal run starting at the first one |
| MainReportTable.StripCommas | app/components/MainReportTable.tsx:56 | only digits remain |
| MainReportTable.GetNumAbsent | app/components/MainReportTable.tsx:51-57 | null iff no row matches or the first matching row's value has no digit or comma |
| MainReportTable.StripOnlyCommas | app/components/MainReportTable.tsx:56 | a run of commas strips to the empty string |
| MainReportTable.GetNumCommasOnly | app/components/MainReportTable.tsx:55-56 | a comma-only run reads as 0 |
| MainReportTable.GetNumReadsDigits | app/components/MainReportTable.tsx:51-57 | a count written as its digits is read back exactly |
| MainReportTable.LeadingRunAll | app/components/MainReportTable.tsx:54 | a text made only of digits and commas is its own run |
| MainReportTable.LinksFor | app/components/MainReportTable.tsx:35-44 | no links iff the address is empty |
| MainReportTable.LinksEndWithAddress | app/components/MainReportTable.tsx:37-43 | every link ends with the lower-cased address |
| MainReportTable.LinksIgnoreCase | app/components/MainReportTable.tsx:37 | the address's letter case does not change the links |
| MainReportTable.TargetOf | app/components/MainReportTable.tsx:197-212 | "native" wins over "token", which wins over balance/volume/wallet/contract (account page); any other label has no target |
| MainReportTable.PerRowLink | app/components/MainReportTable.tsx:191-212 | a link iff links exist and the label has a target |
| MainReportTable.PerRowLinkFacts | app/components/MainReportTable.tsx:191-212 | native rows link to the address's transactions, token rows to its token transfers, the rest to its account page |
| MainReportTable.Mismatch | app/components/MainReportTable.tsx:48-77 | null unless verify and raw counts are set; a native issue iff the read native count differs from the raw normal count, a token issue iff the read token count differs from erc20 + erc721; native first; ok iff no issue |
| FinalDiagnosis.Retitle | components/FinalDiagnosisCard.tsx:155-158 | never longer than the input, non-empty for non-empty input |
| FinalDiagnosis.Titleize | components/FinalDiagnosisCard.tsx:155-158 | empty iff the input is empty, never longer |
| FinalDiagnosis.RetitlePlain | components/FinalDiagnosisCard.tsx:155-158 | text without separators keeps all characters after the first |
| FinalDiagnosis.TitleizeWord | components/FinalDiagnosisCard.tsx:155-158 | a separator-free word gets only its first character upper-cased |
| FinalDiagnosis.RetitleJoin | components/FinalDiagnosisCard.tsx:155-158 | a separator before a word character is dropped and that character upper-cased |
| FinalDiagnosis.TitleizeJoin | components/FinalDiagnosisCard.tsx:155-158 | titleize("foo-bar") is titleize("foo") + titleize("bar") |
| FinalDiagnosis.Normalize | components/FinalDiagnosisCard.tsx:37-47 | no empty names; a list keeps exactly its non-empty names, and a list without empty names is returned unchanged; a non-empty single name becomes a one-entry list; anything else is [] |
| FinalDiagnosis.NormalizeCons | components/FinalDiagnosisCard.tsx:37-47 | `filter(Boolean)` works front to back: a non-empty first name stays first, ahead of the normalised rest, so order and repeats are kept |
| FinalDiagnosis.NormalizeSnoc | components/FinalDiagnosisCard.tsx:37-47 | a non-empty last name comes last, behind the normalised front |
| FinalDiagnosis.NormalizeIdempotent | components/FinalDiagnosisCard.tsx:37-47 | normalising twice is normalising once |
| FinalDiagnosis.JoinNonEmpty | components/FinalDiagnosisCard.tsx:62-63 | a join whose first part is non-empty is non-empty |
| FinalDiagnosis.ShareListFacts | components/FinalDiagnosisCard.tsx:61-69 | only the first three areas matter; "—" without areas; otherwise the non-empty title-cased join |
| FinalDiagnosis.GaugePercent | components/FinalDiagnosisCard.tsx:161 | in [0, 100]; NaN is 0; a score inside is kept; above gives 100, below gives 0 |
| FinalDiagnosis.GaugeMonotone | components/FinalDiagnosisCard.tsx:161 | a higher score never shows a lower gauge |
| VerifyPanel.Check | app/components/VerifyPanel.tsx:14-40 | nothing without the diagnostic block; a swaps issue iff the count is a number, the hash list is non-empty and they differ by more than 2; a bridge issue iff a third-party bridge is flagged and the counters sum to 0; "Verified" iff no issue |
| VerifyPanel.SumOfPositive | app/components/VerifyPanel.tsx:29-32 | non-negative counters with one positive sum above 0, so no bridge issue |

## Left out

- Network I/O is not executed. Etherscan, Basescan, viem `getCode`, `getTransactionReceipt` and `readContract`, ensideas and CoinGecko answers are inputs (functions from request to answer); timeouts, the retry sleeps and the 150 ms paging pause are left out.
- The worker pools (`fetchInternalsByTxHashes`, `fetchReceiptsByHashes`, the details route's `getCode` pool) run as sequential loops; the results are consumed as sets or keyed maps, so the interleaving does not change them.
- JavaScript numbers are modelled as unbounded integers or exact reals: IEEE rounding, `toFixed`, `toLocaleString` and precision loss of long digit strings are not modelled.
- String case mapping, `\w` and `\s` are ASCII-only (plus the JavaScript white-space set for trimming); full Unicode case mapping is not modelled.
- `keccak256` is a parameter (any function from bytes to 32 bytes); `TextEncoder` is modelled as UTF-8 over Unicode scalar values; `encodeURIComponent`, JSON parsing and `URL` parsing are not modelled (the protocol of a URL is a parameter of `isHttpUrl`).
- `new Date(s)` parsing of text is a parameter (`parse`); only the instant arithmetic, `toISOString`, `getUTCHours` and `getUTCDay` are modelled.
- The `_diag` block of the summary route (`debug=diag`) is not built; its counters reach the Main Report table and the Verify panel as inputs.
- `console` output, the discover script's file writing and process exit, and the swap counter's printing are left out; their computed values are modelled.
- Presentation-only parts of the UI are left out: markup, styles, `toneByLevel`, the tweet text and share URL, and the minted state.
- SummaryPaging.FetchAllNormalTxs: requires that some page is short (ends the paging), because the source's `while (true)` loop would otherwise run until the platform's time limit.
- DetailsRoute.Details: a failed list read is reported as an unhandled error, because the source has no `try` around it and the framework's response to it is not part of this model.
- Calendar.IsoWeekOf: `Date.UTC` reads the years 0..99 as 1900..1999; the model takes every year as given, which only matters for timestamps before year 100, which an explorer never returns.
- HealthScore.FirstWeek: keeps only valid dates, whereas the source also sorts invalid (NaN) dates into its list; the dates reach it from the summary's `allTxTimestampsUTC`, each produced by `toISOString`, so an invalid date cannot arise that way.
- VerifyPanel.Check: a swap count that is not a number (NaN) is `None`, and a bridge counter that is not a number counts 0, which is what `Number(b || 0)` gives for the values the route emits.
- MainReportTable.Mismatch: reads the digit run as an exact integer, so the precision loss of `Number` on numbers above 2^53 is not modelled.
- FinalDiagnosis.ShareListFacts: does not state "—" as an if-and-only-if, because an area literally named "—" also prints "—".
- SummaryActivity.WeeksAtMostDays: proved only for four-digit years; outside 0..9999 the ten-character `isoDay` prefix no longer holds the whole date.
- SummaryMetrics.ComputeThresholds: states the lowest flag of each family directly; the higher flags are covered by ThresholdLadders rather than one ensures each.
- The discover script's explorer requests are oracles (`txsOf`, `check`, `blobOf`); a request that throws is `None`, which the script's `catch` skips in the same way.
