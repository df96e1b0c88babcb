/**
 * The badge cards.  Each card is a fixed list of items, each item a predicate
 * over the report's numbers; the card shows how many hold (`done`), how many
 * there are (`total`) and the rounded percentage.  Five cards are threshold
 * ladders over one value, whose unlocked rungs always form a prefix; the
 * other four are check-lists of independent predicates.  Every number is a
 * JavaScript number, modelled as a `real`.
 */
module Badges {
  import opened Wrappers
  import opened Numbers

  /** What a card's header and progress bar show. */
  datatype Progress = Progress(done: nat, total: nat, pct: int)

  /** A card: its items' unlocked flags in display order, and the progress they give. */
  datatype Card = Card(items: seq<bool>, progress: Progress)

  /**
   * `done = items.filter(i => i.ok).length; total = items.length;
   * pct = Math.round(done / total * 100)`
   */
  function ProgressOf(items: seq<bool>): (p: Progress)
    requires 0 < |items| <= 100
    ensures p.total == |items| && p.done <= p.total
    ensures p.done == CountTrue(items)
    ensures 0 <= p.pct <= 100
    ensures p.pct == 100 <==> forall i :: 0 <= i < |items| ==> items[i]
    ensures p.pct == 0 <==> forall i :: 0 <= i < |items| ==> !items[i]
  {
    var done := CountTrue(items);
    PercentBounds(done, |items|);
    Progress(done, |items|, Percent(done, |items|))
  }

  function CardOf(items: seq<bool>): (c: Card)
    requires 0 < |items| <= 100
  {
    Card(items, ProgressOf(items))
  }

  /** The percentages a six-item card can show, by number of items done. */
  const SixPercent: seq<int> := [0, 17, 33, 50, 67, 83, 100]

  lemma ProgressOfSix(items: seq<bool>)
    requires |items| == 6
    ensures ProgressOf(items).pct == SixPercent[ProgressOf(items).done]
  {
    PercentOfSix();
  }

  // ------------------------------------------------------------ ladders

  predicate Ascending(ts: seq<real>) {
    forall i, j :: 0 <= i < j < |ts| ==> ts[i] < ts[j]
  }

  /** Every unlocked item's predecessors are unlocked too. */
  predicate PrefixClosed(bs: seq<bool>) {
    forall i, j :: 0 <= i < j < |bs| && bs[j] ==> bs[i]
  }

  /** The items of a threshold ladder: rung `i` is unlocked once the value reaches `ts[i]`. */
  function Rungs(v: real, ts: seq<real>): (r: seq<bool>)
    ensures |r| == |ts|
    ensures forall i :: 0 <= i < |ts| ==> (r[i] <==> v >= ts[i])
  {
    seq(|ts|, i requires 0 <= i < |ts| => v >= ts[i])
  }

  /** A prefix-closed list holds exactly on its first `CountTrue` positions. */
  lemma {:induction false} PrefixCount(bs: seq<bool>)
    requires PrefixClosed(bs)
    ensures forall i :: 0 <= i < |bs| ==> (bs[i] <==> i < CountTrue(bs))
    decreases |bs|
  {
    if |bs| > 0 {
      var init := bs[..|bs| - 1];
      assert PrefixClosed(init);
      PrefixCount(init);
      if bs[|bs| - 1] {
        assert forall i :: 0 <= i < |init| ==> init[i];
      }
    }
  }

  /**
   * On ascending thresholds the unlocked rungs are a prefix: rung `i` is
   * unlocked exactly when `i < done`, where `done` counts the unlocked rungs.
   */
  lemma LadderPrefix(v: real, ts: seq<real>)
    requires Ascending(ts)
    ensures PrefixClosed(Rungs(v, ts))
    ensures forall i :: 0 <= i < |ts| ==> (v >= ts[i] <==> i < CountTrue(Rungs(v, ts)))
  {
    PrefixCount(Rungs(v, ts));
  }

  /** The card of a ladder: complete once the last threshold is reached, empty below the first. */
  function LadderCard(v: real, ts: seq<real>): (c: Card)
    requires Ascending(ts) && 0 < |ts| <= 100
    ensures c.items == Rungs(v, ts)
    ensures c.progress.total == |ts|
    ensures forall i :: 0 <= i < |ts| ==> (v >= ts[i] <==> i < c.progress.done)
    ensures PrefixClosed(c.items)
    ensures c.progress.pct == 100 <==> v >= ts[|ts| - 1]
    ensures c.progress.pct == 0 <==> v < ts[0]
  {
    LadderPrefix(v, ts);
    CardOf(Rungs(v, ts))
  }

  // ------------------------------------------------------------ Medical Staff

  const StaffSteps: seq<real> := [3.0, 5.0, 10.0, 20.0, 50.0, 100.0]

  /** `breakdown?.direct ?? 0` and its two siblings; an absent field is `None`. */
  datatype Breakdown = Breakdown(direct: Option<real>, internal: Option<real>, receipt: Option<real>)

  /** The Medical Staff card with the deployed count it shows and whether the breakdown suffix appears. */
  datatype StaffCard = StaffCard(deployed: real, reported: real, showBreakdown: bool, card: Card)

  /**
   * `Math.max(0, Number(deployedContracts) || 0)`; `None` stands for a value
   * `Number` turns into `NaN`, which `|| 0` replaces by 0.
   */
  function TotalDeployed(deployedContracts: Option<real>): (n: real)
    ensures n >= 0.0
    ensures deployedContracts.Some? && deployedContracts.value >= 0.0 ==> n == deployedContracts.value
    ensures deployedContracts.None? || deployedContracts.value <= 0.0 ==> n == 0.0
  {
    var x := deployedContracts.GetOr(0.0);
    if x > 0.0 then x else 0.0
  }

  /** `direct + internal + receipt`, each defaulting to 0. */
  function TotalReported(breakdown: Option<Breakdown>): (sum: real)
    ensures breakdown.None? ==> sum == 0.0
  {
    match breakdown
    case None => 0.0
    case Some(b) => b.direct.GetOr(0.0) + b.internal.GetOr(0.0) + b.receipt.GetOr(0.0)
  }

  function MedicalStaff(deployedContracts: Option<real>, breakdown: Option<Breakdown>): (s: StaffCard)
    ensures s.deployed == TotalDeployed(deployedContracts) && s.deployed >= 0.0
    ensures s.reported == TotalReported(breakdown)
    ensures s.showBreakdown <==> s.reported > 0.0
    ensures |s.card.items| == 6 && s.card.progress.total == 6 && s.card.progress.done <= 6
    ensures forall i :: 0 <= i < 6 ==> (s.card.items[i] <==> s.deployed >= StaffSteps[i])
    ensures forall i :: 0 <= i < 6 ==> (s.card.items[i] <==> i < s.card.progress.done)
    ensures s.card.progress.pct == SixPercent[s.card.progress.done]
    ensures s.card.progress.pct == 100 <==> s.deployed >= 100.0
    ensures s.card.progress.pct == 0 <==> s.deployed < 3.0
  {
    var total := TotalDeployed(deployedContracts);
    var reported := TotalReported(breakdown);
    var c := LadderCard(total, StaffSteps);
    ProgressOfSix(c.items);
    StaffCard(total, reported, reported > 0.0, c)
  }

  // ------------------------------------------------------------ the other ladders

  const HistorySteps: seq<real> := [10.0, 50.0, 150.0, 300.0, 600.0, 1000.0]
  const TreatmentSteps: seq<real> := [10.0, 20.0, 50.0, 100.0, 500.0, 1000.0]
  const VarietySteps: seq<real> := [5.0, 10.0, 20.0, 50.0, 100.0, 200.0]
  /** The commented-out seventh rung (50 ETH) is not part of the card. */
  const DosageSteps: seq<real> := [0.1, 0.5, 1.0, 5.0, 10.0, 25.0]

  /** A six-rung ladder card: rung `i` holds iff `v >= ts[i]` iff `i < done`, and the percentage follows `done`. */
  predicate SixRungCard(c: Card, v: real, ts: seq<real>)
    requires |ts| == 6
  {
    && |c.items| == 6 && c.progress.total == 6 && c.progress.done <= 6
    && (forall i :: 0 <= i < 6 ==> (c.items[i] <==> v >= ts[i]))
    && (forall i :: 0 <= i < 6 ==> (c.items[i] <==> i < c.progress.done))
    && c.progress.pct == SixPercent[c.progress.done]
    && (c.progress.pct == 100 <==> v >= ts[5])
    && (c.progress.pct == 0 <==> v < ts[0])
  }

  function SixLadder(v: real, ts: seq<real>): (c: Card)
    requires |ts| == 6 && Ascending(ts)
    ensures SixRungCard(c, v, ts)
  {
    var c := LadderCard(v, ts);
    ProgressOfSix(c.items);
    c
  }

  /** Patient History: wallet age in days against 10/50/150/300/600/1000. */
  function PatientHistory(walletAge: real): (c: Card)
    ensures SixRungCard(c, walletAge, HistorySteps)
    ensures c.progress.pct == 100 <==> walletAge >= 1000.0
    ensures c.progress.done == 0 <==> walletAge < 10.0
  {
    SixLadder(walletAge, HistorySteps)
  }

  /** Treatment Plans: distinct contracts used against 10/20/50/100/500/1000. */
  function TreatmentPlans(uniqueContracts: real): (c: Card)
    ensures SixRungCard(c, uniqueContracts, TreatmentSteps)
    ensures c.progress.pct == 100 <==> uniqueContracts >= 1000.0
    ensures c.progress.done == 0 <==> uniqueContracts < 10.0
  {
    SixLadder(uniqueContracts, TreatmentSteps)
  }

  /** Medication Variety: distinct ERC-20 tokens against 5/10/20/50/100/200. */
  function MedicationVariety(erc20Count: real): (c: Card)
    ensures SixRungCard(c, erc20Count, VarietySteps)
    ensures c.progress.pct == 100 <==> erc20Count >= 200.0
    ensures c.progress.done == 0 <==> erc20Count < 5.0
  {
    SixLadder(erc20Count, VarietySteps)
  }

  /** Onchain Dosage: ETH volume against 0.1/0.5/1/5/10/25. */
  function OnchainDosage(totalVolumeEth: real): (c: Card)
    ensures SixRungCard(c, totalVolumeEth, DosageSteps)
    ensures c.progress.pct == 100 <==> totalVolumeEth >= 25.0
    ensures c.progress.done == 0 <==> totalVolumeEth < 0.1
  {
    SixLadder(totalVolumeEth, DosageSteps)
  }

  // ------------------------------------------------------------ check-lists

  /** On a six-item list, "every item" and "no item" written out. */
  lemma EverySix(items: seq<bool>)
    requires |items| == 6
    ensures (forall i :: 0 <= i < 6 ==> items[i]) <==>
      items[0] && items[1] && items[2] && items[3] && items[4] && items[5]
    ensures (forall i :: 0 <= i < 6 ==> !items[i]) <==>
      !items[0] && !items[1] && !items[2] && !items[3] && !items[4] && !items[5]
  {
  }

  lemma EverySeven(items: seq<bool>)
    requires |items| == 7
    ensures (forall i :: 0 <= i < 7 ==> items[i]) <==>
      items[0] && items[1] && items[2] && items[3] && items[4] && items[5] && items[6]
    ensures (forall i :: 0 <= i < 7 ==> !items[i]) <==>
      !items[0] && !items[1] && !items[2] && !items[3] && !items[4] && !items[5] && !items[6]
  {
  }

  /** Prescription Usage: swaps, stablecoin activity and the largest swap. */
  function PrescriptionUsage(swaps: real, stablecoinTxs: real, usdcTrades: real, stablecoinTypes: real, maxSwapUsd: real): (c: Card)
    ensures |c.items| == 6 && c.progress.total == 6 && c.progress.done <= 6
    ensures c.progress.pct == SixPercent[c.progress.done]
    ensures c.progress.pct == 100 <==>
      swaps >= 50.0 && stablecoinTxs >= 3.0 && usdcTrades >= 3.0 && stablecoinTypes >= 3.0 && maxSwapUsd >= 10000.0
    ensures c.progress.pct == 0 <==>
      swaps < 3.0 && stablecoinTxs < 3.0 && usdcTrades < 3.0 && stablecoinTypes < 3.0 && maxSwapUsd < 10000.0
    ensures c.items[4] ==> c.items[0]
  {
    var items := [swaps >= 3.0, stablecoinTxs >= 3.0, usdcTrades >= 3.0, stablecoinTypes >= 3.0,
                  swaps >= 50.0, maxSwapUsd >= 10000.0];
    ProgressOfSix(items);
    EverySix(items);
    CardOf(items)
  }

  /**
   * With the report's own counts, where every USDC trade is a stablecoin
   * transaction, USDC Therapy is never unlocked without Stable Dose.
   */
  lemma UsdcNeedsStable(swaps: real, stablecoinTxs: real, usdcTrades: real, stablecoinTypes: real, maxSwapUsd: real)
    requires usdcTrades <= stablecoinTxs
    ensures var c := PrescriptionUsage(swaps, stablecoinTxs, usdcTrades, stablecoinTypes, maxSwapUsd);
      c.items[2] ==> c.items[1]
  {
  }

  /** Per-protocol interaction counts of the Special Clinics card; an absent count is 0. */
  datatype ClinicVisits = ClinicVisits(
    uniswap: real, aerodrome: real, aave: real, stargate: real, metamask: real,
    lendingAny: bool, matcha: real)

  /** Special Clinics: five protocols at three uses or more, any lending, and Matcha. */
  function SpecialClinics(v: ClinicVisits): (c: Card)
    ensures |c.items| == 7 && c.progress.total == 7
    ensures c.items[5] <==> v.lendingAny
    ensures c.progress.pct == 100 <==>
      v.uniswap >= 3.0 && v.aerodrome >= 3.0 && v.aave >= 3.0 && v.stargate >= 3.0
      && v.metamask >= 3.0 && v.lendingAny && v.matcha >= 3.0
    ensures c.progress.pct == 0 <==>
      v.uniswap < 3.0 && v.aerodrome < 3.0 && v.aave < 3.0 && v.stargate < 3.0
      && v.metamask < 3.0 && !v.lendingAny && v.matcha < 3.0
  {
    var items := [v.uniswap >= 3.0, v.aerodrome >= 3.0, v.aave >= 3.0, v.stargate >= 3.0,
                  v.metamask >= 3.0, v.lendingAny, v.matcha >= 3.0];
    EverySeven(items);
    CardOf(items)
  }

  /** Referrals: the two bridge kinds and four bridge providers at three uses or more. */
  function Referrals(usedThirdPartyBridge: bool, usedNativeBridge: bool,
                     relayCount: real, jumperCount: real, bungeeCount: real, acrossCount: real): (c: Card)
    ensures |c.items| == 6 && c.progress.total == 6 && c.progress.done <= 6
    ensures c.progress.pct == SixPercent[c.progress.done]
    ensures c.progress.pct == 100 <==>
      usedThirdPartyBridge && usedNativeBridge
      && relayCount >= 3.0 && jumperCount >= 3.0 && bungeeCount >= 3.0 && acrossCount >= 3.0
    ensures c.progress.pct == 0 <==>
      !usedThirdPartyBridge && !usedNativeBridge
      && relayCount < 3.0 && jumperCount < 3.0 && bungeeCount < 3.0 && acrossCount < 3.0
  {
    var items := [usedThirdPartyBridge, usedNativeBridge,
                  relayCount >= 3.0, jumperCount >= 3.0, bungeeCount >= 3.0, acrossCount >= 3.0];
    ProgressOfSix(items);
    EverySix(items);
    CardOf(items)
  }

  /**
   * When the third-party flag is the report's own (some provider counter is
   * positive), a provider checkup can only be unlocked together with the
   * Third-party Referral item.
   */
  lemma ProviderNeedsThirdParty(usedNativeBridge: bool, relayCount: real, jumperCount: real, bungeeCount: real, acrossCount: real)
    requires relayCount >= 0.0 && jumperCount >= 0.0 && bungeeCount >= 0.0 && acrossCount >= 0.0
    ensures var third := relayCount > 0.0 || jumperCount > 0.0 || bungeeCount > 0.0 || acrossCount > 0.0;
      var c := Referrals(third, usedNativeBridge, relayCount, jumperCount, bungeeCount, acrossCount);
      (c.items[2] || c.items[3] || c.items[4] || c.items[5]) ==> c.items[0]
  {
  }

  /** The identity facts behind the Medical Records card; absent optional props are 0 or false. */
  datatype Identity = Identity(
    baseEns: Option<string>, poapCount: real, identityNfts: real,
    hasProofOfHumanity: bool, hasGitcoinPassport: bool, hasPrimaryPfp: bool)

  /** Medical Records: a non-empty basename (`!!baseEns`), a POAP, an ID NFT and three flags. */
  function MedicalRecords(id: Identity): (c: Card)
    ensures |c.items| == 6 && c.progress.total == 6 && c.progress.done <= 6
    ensures c.items[0] <==> id.baseEns.Some? && id.baseEns.value != ""
    ensures c.progress.pct == SixPercent[c.progress.done]
    ensures c.progress.pct == 0 <==>
      (id.baseEns.None? || id.baseEns.value == "") && id.poapCount < 1.0 && id.identityNfts < 1.0
      && !id.hasProofOfHumanity && !id.hasGitcoinPassport && !id.hasPrimaryPfp
    ensures c.progress.pct == 100 <==>
      id.baseEns.Some? && id.baseEns.value != "" && id.poapCount >= 1.0 && id.identityNfts >= 1.0
      && id.hasProofOfHumanity && id.hasGitcoinPassport && id.hasPrimaryPfp
  {
    var items := [id.baseEns.Some? && id.baseEns.value != "", id.poapCount >= 1.0, id.identityNfts >= 1.0,
                  id.hasProofOfHumanity, id.hasGitcoinPassport, id.hasPrimaryPfp];
    ProgressOfSix(items);
    EverySix(items);
    CardOf(items)
  }
}
