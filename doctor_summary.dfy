/**
 * The doctor's summary card: a headline and three tips for the health
 * level, two tips derived from the weakest and two from the strongest
 * area, merged into a focus list of at most five tips with duplicates
 * (compared trimmed and lowercased) removed.
 */
module DoctorSummary {
  import opened Text
  import opened Collections
  import HealthScore

  // ------------------------------------------------------------- levels

  /**
   * The `switch (level)` every helper performs: the four named levels select
   * their own branch, and "Critical" or any other string falls through to
   * the `default` (Critical) branch.
   */
  function LevelCase(level: string): (l: HealthScore.Level)
    ensures l == HealthScore.Critical <==> level !in {"Elite", "Healthy", "Fair", "Weak"}
    ensures l == HealthScore.Elite <==> level == "Elite"
    ensures l == HealthScore.Healthy <==> level == "Healthy"
    ensures l == HealthScore.Fair <==> level == "Fair"
    ensures l == HealthScore.Weak <==> level == "Weak"
  {
    if level == "Elite" then HealthScore.Elite
    else if level == "Healthy" then HealthScore.Healthy
    else if level == "Fair" then HealthScore.Fair
    else if level == "Weak" then HealthScore.Weak
    else HealthScore.Critical
  }

  /** The badge colours: background, text and border classes. */
  datatype Accent = Accent(badgeBg: string, badgeText: string, badgeBorder: string)

  function LevelAccent(level: string): Accent {
    match LevelCase(level)
    case Elite => Accent("bg-emerald-500/15", "text-emerald-300", "border-emerald-500/30")
    case Healthy => Accent("bg-teal-500/15", "text-teal-300", "border-teal-500/30")
    case Fair => Accent("bg-yellow-500/15", "text-yellow-200", "border-yellow-500/30")
    case Weak => Accent("bg-orange-500/15", "text-orange-200", "border-orange-500/30")
    case Critical => Accent("bg-rose-500/15", "text-rose-200", "border-rose-500/30")
  }

  function LevelHeadline(level: string): string {
    match LevelCase(level)
    case Elite => EliteHeadline
    case Healthy => HealthyHeadline
    case Fair => FairHeadline
    case Weak => WeakHeadline
    case Critical => CriticalHeadline
  }

  function TipsByLevel(level: string): (tips: seq<string>)
    ensures |tips| == 3
    ensures forall i :: 0 <= i < 3 ==> tips[i] != ""
  {
    match LevelCase(level)
    case Elite => [EliteTip1, EliteTip2, EliteTip3]
    case Healthy => [HealthyTip1, HealthyTip2, HealthyTip3]
    case Fair => [FairTip1, FairTip2, FairTip3]
    case Weak => [WeakTip1, WeakTip2, WeakTip3]
    case Critical => [CriticalTip1, CriticalTip2, CriticalTip3]
  }

  /** Every level string outside the four named ones reads exactly like "Critical". */
  lemma UnknownLevelIsCritical(level: string)
    requires level !in {"Elite", "Healthy", "Fair", "Weak"}
    ensures LevelAccent(level) == LevelAccent("Critical")
    ensures LevelHeadline(level) == LevelHeadline("Critical")
    ensures TipsByLevel(level) == TipsByLevel("Critical")
  {
    assert LevelCase(level) == LevelCase("Critical");
  }

  // -------------------------------------------------------- area tips

  /** `kind: "strong" | "weak"` */
  datatype Kind = Strong | Weak

  /** One `if (includesAny(s, keys))` branch: its keys and the two tips for each kind. */
  datatype TipGroup = TipGroup(keys: seq<string>, weak: seq<string>, strong: seq<string>)

  function TipsOf(g: TipGroup, kind: Kind): seq<string> {
    if kind == Weak then g.weak else g.strong
  }

  /** The branches in the order they are tried. */
  const Groups: seq<TipGroup> := [
    TipGroup(["gas", "fee"], [GasWeak1, GasWeak2], [GasStrong1, GasStrong2]),
    TipGroup(["swap", "dex", "uniswap", "aerodrome", "matcha", "pancake", "sushi"], [SwapWeak1, SwapWeak2], [SwapStrong1, SwapStrong2]),
    TipGroup(["lending", "aave", "borrow", "repay"], [LendingWeak1, LendingWeak2], [LendingStrong1, LendingStrong2]),
    TipGroup(["diversity", "contracts", "unique", "variety"], [DiversityWeak1, DiversityWeak2], [DiversityStrong1, DiversityStrong2]),
    TipGroup(["bridge", "referral", "across", "jumper", "relay", "bungee", "stargate"], [BridgeWeak1, BridgeWeak2], [BridgeStrong1, BridgeStrong2]),
    TipGroup(["nft", "imaging", "collectible"], [NftWeak1, NftWeak2], [NftStrong1, NftStrong2]),
    TipGroup(["volume", "dosage", "eth", "size"], [VolumeWeak1, VolumeWeak2], [VolumeStrong1, VolumeStrong2]),
    TipGroup(["activity", "days", "streak", "frequency"], [ActivityWeak1, ActivityWeak2], [ActivityStrong1, ActivityStrong2])
  ]

  /** The tips when no branch matches. */
  const Fallback: TipGroup := TipGroup([], [FallbackWeak1, FallbackWeak2], [FallbackStrong1, FallbackStrong2])

  // The texts, one constant each.
  const EliteHeadline := "Outstanding onchain fitness. Keep your strategy diversified and keep an eye on gas spikes during peak activity."
  const HealthyHeadline := "Great performance. Maintain balanced protocol usage and continue optimizing gas and approvals."
  const FairHeadline := "Stable but improvable. Increase consistent onchain days, reduce redundant approvals, and grow diversity progressively."
  const WeakHeadline := "Under observation — build rhythm first. Add safe interactions, increase unique days, and prefer audited protocols."
  const CriticalHeadline := "Your wallet needs immediate attention. Start with low-risk, reputable protocols and gradually increase activity."
  const EliteTip1 := "Set weekly caps for gas spend; review cost outliers."
  const EliteTip2 := "Consolidate small token dust to reduce portfolio noise."
  const EliteTip3 := "Rotate through a few trusted protocols to keep diversity without overexposure."
  const HealthyTip1 := "Batch actions where possible to cut gas overhead."
  const HealthyTip2 := "Revisit token approvals and revoke stale ones."
  const HealthyTip3 := "Maintain 2–3 sessions/week of activity to keep streaks healthy."
  const FairTip1 := "Target 3–5 active days this week."
  const FairTip2 := "Add one reputable lending/DEX protocol to increase diversity safely."
  const FairTip3 := "Monitor largest swaps; split orders to manage slippage."
  const WeakTip1 := "Start with 2–3 simple swaps of stable pairs."
  const WeakTip2 := "Interact with one audited protocol and track gas per tx."
  const WeakTip3 := "Avoid high-slippage pairs; use routers with good quotes."
  const CriticalTip1 := "Begin with small-value, low-risk transactions to verify flows."
  const CriticalTip2 := "Use known bridges/DEXes; avoid unknown contracts."
  const CriticalTip3 := "Enable notifications for approvals and consider revoking old ones."
  const GasWeak1 := "Use batching or routers that optimize gas."
  const GasWeak2 := "Stick to off-peak times to lower base fees."
  const GasStrong1 := "Keep logging gas/tx; aim for sub-median costs."
  const GasStrong2 := "Share gas learnings across protocols you use."
  const SwapWeak1 := "Start with blue-chip pairs (ETH/USDC) to stabilize execution."
  const SwapWeak2 := "Compare quotes across 2 routers before confirming."
  const SwapStrong1 := "Leverage limit orders or RFQ when available."
  const SwapStrong2 := "Document best routes to reuse for similar trades."
  const LendingWeak1 := "Begin with small supply positions only; avoid leverage first."
  const LendingWeak2 := "Track health factor and set alerts for volatility."
  const LendingStrong1 := "Periodically rebalance collateral to reduce liquidation risk."
  const LendingStrong2 := "Use isolated pools for risk control where possible."
  const DiversityWeak1 := "Add 1 new reputable protocol this week to grow diversity safely."
  const DiversityWeak2 := "Review contract creators; avoid unlabeled or new code."
  const DiversityStrong1 := "Maintain diverse interactions but trim redundant tools."
  const DiversityStrong2 := "Favor protocols with public audits and battle-" + "test" + "ed code."
  const BridgeWeak1 := "Prefer native or well-audited bridges; test with small amounts first."
  const BridgeWeak2 := "Double-check target chain addresses before sending."
  const BridgeStrong1 := "Keep a checklist for cross-chain moves to avoid mistakes."
  const BridgeStrong2 := "Track bridge fees and choose off-peak windows."
  const NftWeak1 := "Use trusted marketplaces; watch approval scopes."
  const NftWeak2 := "Avoid minting during gas spikes; verify contract metadata."
  const NftStrong1 := "Batch listing/transfer operations when possible."
  const NftStrong2 := "Use cold storage for long-term holds."
  const VolumeWeak1 := "Keep transaction sizes modest until metrics improve."
  const VolumeWeak2 := "Split large orders to reduce slippage and MEV risk."
  const VolumeStrong1 := "Use MEV-protected RPC when doing larger trades."
  const VolumeStrong2 := "Pre-set slippage and simulate before sending."
  const ActivityWeak1 := "Target a simple 3-day streak this week."
  const ActivityWeak2 := "Schedule small recurring actions to build rhythm."
  const ActivityStrong1 := "Maintain a steady cadence; avoid unnecessary bursts."
  const ActivityStrong2 := "Back up your flow with notes/alerts."
  const FallbackWeak1 := "Start small on a reputable protocol and measure gas & slippage."
  const FallbackWeak2 := "Avoid new or unlabeled contracts until score improves."
  const FallbackStrong1 := "Keep your rhythm; review approvals monthly."
  const FallbackStrong2 := "Document what works and reuse winning patterns."

  /** Each branch offers two non-empty tips of each kind. */
  predicate TwoTips(g: TipGroup) {
    |g.weak| == 2 && |g.strong| == 2 && g.weak[0] != "" && g.weak[1] != ""
    && g.strong[0] != "" && g.strong[1] != ""
  }

  lemma GroupsHaveTwoTips()
    ensures forall i :: 0 <= i < |Groups| ==> TwoTips(Groups[i])
    ensures TwoTips(Fallback)
  {
  }

  /** `keys.some((k) => s.includes(k))` */
  predicate IncludesAny(s: string, keys: seq<string>) {
    exists i :: 0 <= i < |keys| && Contains(s, keys[i])
  }

  /** The `if` chain from branch `gs[0]` on. */
  function TipsIn(s: string, kind: Kind, gs: seq<TipGroup>): seq<string>
    decreases |gs|
  {
    if |gs| == 0 then TipsOf(Fallback, kind)
    else if IncludesAny(s, gs[0].keys) then TipsOf(gs[0], kind)
    else TipsIn(s, kind, gs[1..])
  }

  /** `tipsFromArea(area, kind)`; a missing area is the empty string. */
  function TipsFromArea(area: string, kind: Kind): seq<string> {
    TipsIn(Lower(area), kind, Groups)
  }

  /** Branch `i` is the first whose keys occur in `s`. */
  predicate FirstMatchAt(s: string, gs: seq<TipGroup>, i: int) {
    0 <= i < |gs| && IncludesAny(s, gs[i].keys) && forall j :: 0 <= j < i ==> !IncludesAny(s, gs[j].keys)
  }

  /** No branch's keys occur in `s`. */
  predicate NoMatch(s: string, gs: seq<TipGroup>) {
    forall i :: 0 <= i < |gs| ==> !IncludesAny(s, gs[i].keys)
  }

  lemma FirstMatchShift(s: string, gs: seq<TipGroup>, i: int)
    requires |gs| > 0 && !IncludesAny(s, gs[0].keys) && FirstMatchAt(s, gs[1..], i)
    ensures FirstMatchAt(s, gs, i + 1) && gs[i + 1] == gs[1..][i]
  {
    forall j | 0 <= j < i + 1 ensures !IncludesAny(s, gs[j].keys) {
      if j > 0 { assert gs[j] == gs[1..][j - 1]; }
    }
  }

  lemma NoMatchShift(s: string, gs: seq<TipGroup>)
    requires |gs| > 0 && !IncludesAny(s, gs[0].keys) && NoMatch(s, gs[1..])
    ensures NoMatch(s, gs)
  {
    forall i | 0 <= i < |gs| ensures !IncludesAny(s, gs[i].keys) {
      if i > 0 { assert gs[i] == gs[1..][i - 1]; }
    }
  }

  /** The chain answers with the first branch whose keys match, or with the fallback. */
  lemma {:induction false} TipsInFirstMatch(s: string, kind: Kind, gs: seq<TipGroup>)
    ensures
      || (exists i :: FirstMatchAt(s, gs, i) && TipsIn(s, kind, gs) == TipsOf(gs[i], kind))
      || (NoMatch(s, gs) && TipsIn(s, kind, gs) == TipsOf(Fallback, kind))
    decreases |gs|
  {
    if |gs| > 0 && IncludesAny(s, gs[0].keys) {
      assert FirstMatchAt(s, gs, 0);
    } else if |gs| > 0 {
      TipsInFirstMatch(s, kind, gs[1..]);
      if exists i :: FirstMatchAt(s, gs[1..], i) && TipsIn(s, kind, gs[1..]) == TipsOf(gs[1..][i], kind) {
        var i :| FirstMatchAt(s, gs[1..], i) && TipsIn(s, kind, gs[1..]) == TipsOf(gs[1..][i], kind);
        FirstMatchShift(s, gs, i);
      } else {
        NoMatchShift(s, gs);
      }
    }
  }

  /** Whatever branch answers, it answers with two non-empty tips. */
  lemma {:induction false} TipsInShape(s: string, kind: Kind, gs: seq<TipGroup>)
    requires forall i :: 0 <= i < |gs| ==> TwoTips(gs[i])
    requires TwoTips(Fallback)
    ensures |TipsIn(s, kind, gs)| == 2 && TipsIn(s, kind, gs)[0] != "" && TipsIn(s, kind, gs)[1] != ""
    decreases |gs|
  {
    if |gs| > 0 && !IncludesAny(s, gs[0].keys) {
      assert forall i :: 0 <= i < |gs[1..]| ==> gs[1..][i] == gs[i + 1];
      TipsInShape(s, kind, gs[1..]);
    }
  }

  /** `tipsFromArea` always gives two non-empty tips. */
  lemma TipsFromAreaShape(area: string, kind: Kind)
    ensures |TipsFromArea(area, kind)| == 2
    ensures TipsFromArea(area, kind)[0] != "" && TipsFromArea(area, kind)[1] != ""
  {
    GroupsHaveTwoTips();
    TipsInShape(Lower(area), kind, Groups);
  }

  /**
   * `tipsFromArea` takes the first branch, in the order gas, swap, lending,
   * diversity, bridge, nft, volume, activity, whose keys occur in the
   * lowercased area, else the fallback.
   */
  lemma TipsFromAreaFirstMatch(area: string, kind: Kind)
    ensures
      || (exists i :: FirstMatchAt(Lower(area), Groups, i) && TipsFromArea(area, kind) == TipsOf(Groups[i], kind))
      || (NoMatch(Lower(area), Groups) && TipsFromArea(area, kind) == TipsOf(Fallback, kind))
  {
    TipsInFirstMatch(Lower(area), kind, Groups);
  }

  /** The match ignores letter case: an area and its upper-case spelling get the same tips. */
  lemma TipsIgnoreCase(area: string, kind: Kind)
    ensures TipsFromArea(Upper(area), kind) == TipsFromArea(area, kind)
  {
    assert Lower(Upper(area)) == Lower(area) by {
      forall i | 0 <= i < |area| ensures Lower(Upper(area))[i] == Lower(area)[i] {
        var c := area[i];
        assert LowerChar(UpperChar(c)) == LowerChar(c);
      }
    }
  }

  // ------------------------------------------------------------- dedupe

  /** `a.trim().toLowerCase()` */
  function Key(a: string): string {
    Lower(Trim(a))
  }

  /**
   * What `dedupe` keeps, for any key function: empty entries are skipped, and
   * so are later entries whose key was already seen.
   */
  function Dedupe(arr: seq<string>, key: string -> string): seq<string>
    decreases |arr|
  {
    if |arr| == 0 then []
    else
      var d := Dedupe(arr[..|arr| - 1], key);
      var a := arr[|arr| - 1];
      if a == "" || key(a) in Image(d, key) then d else d + [a]
  }

  /** `dedupe(arr)`: the loop with its `seen` set of trimmed, lowercased keys. */
  method DedupeList(arr: seq<string>) returns (out: seq<string>)
    ensures out == Dedupe(arr, Key)
  {
    var seen: set<string> := {};
    out := [];
    for i := 0 to |arr|
      invariant out == Dedupe(arr[..i], Key)
      invariant seen == Image(out, Key)
    {
      var a := arr[i];
      assert arr[..i + 1][..i] == arr[..i] && arr[..i + 1][i] == a;
      assert Dedupe(arr[..i + 1], Key)
        == if a == "" || Key(a) in Image(out, Key) then out else out + [a];
      if a != "" {
        var key := Key(a);
        if key !in seen {
          ImageSnoc(out, a, Key);
          seen := seen + {key};
          out := out + [a];
        }
      }
    }
    assert arr[..|arr|] == arr;
  }

  /** Kept entries are non-empty input entries with pairwise different keys. */
  lemma {:induction false} DedupeKept(arr: seq<string>, key: string -> string)
    ensures |Dedupe(arr, key)| <= |arr|
    ensures forall x :: x in Dedupe(arr, key) ==> x in arr && x != ""
    ensures forall i, j :: 0 <= i < j < |Dedupe(arr, key)| ==>
      key(Dedupe(arr, key)[i]) != key(Dedupe(arr, key)[j])
    decreases |arr|
  {
    if |arr| > 0 {
      var init := arr[..|arr| - 1];
      var a := arr[|arr| - 1];
      var d := Dedupe(init, key);
      DedupeKept(init, key);
      assert arr == init + [a];
      if !(a == "" || key(a) in Image(d, key)) {
        forall i | 0 <= i < |d| ensures key(d[i]) != key(a) {
          assert key(d[i]) in Image(d, key);
        }
      }
    }
  }

  /** The keys of the non-empty entries. */
  function EntryKeys(arr: seq<string>, key: string -> string): set<string> {
    set i | 0 <= i < |arr| && arr[i] != "" :: key(arr[i])
  }

  lemma EntryKeysSnoc(init: seq<string>, a: string, key: string -> string)
    ensures EntryKeys(init + [a], key) == EntryKeys(init, key) + (if a == "" then {} else {key(a)})
  {
    var arr := init + [a];
    forall k | k in EntryKeys(arr, key)
      ensures k in EntryKeys(init, key) + (if a == "" then {} else {key(a)})
    {
      var i :| 0 <= i < |arr| && arr[i] != "" && key(arr[i]) == k;
      if i < |init| { assert arr[i] == init[i]; }
    }
    forall k | k in EntryKeys(init, key) ensures k in EntryKeys(arr, key) {
      var i :| 0 <= i < |init| && init[i] != "" && key(init[i]) == k;
      assert arr[i] == init[i];
    }
    if a != "" {
      assert arr[|init|] == a;
    }
  }

  /** The set of seen keys is the set of keys of all non-empty entries. */
  lemma {:induction false} DedupeKeys(arr: seq<string>, key: string -> string)
    ensures Image(Dedupe(arr, key), key) == EntryKeys(arr, key)
    decreases |arr|
  {
    if |arr| > 0 {
      var init := arr[..|arr| - 1];
      var a := arr[|arr| - 1];
      DedupeKeys(init, key);
      assert arr == init + [a];
      EntryKeysSnoc(init, a, key);
      ImageSnoc(Dedupe(init, key), a, key);
    } else {
      assert EntryKeys(arr, key) == {};
    }
  }

  /** Entry `i` is non-empty and no earlier non-empty entry has its key. */
  predicate IsFirst(arr: seq<string>, i: nat, key: string -> string)
    requires i < |arr|
  {
    arr[i] != "" && forall j :: 0 <= j < i ==> arr[j] == "" || key(arr[j]) != key(arr[i])
  }

  /** The entries that are the first of their key, in input order. */
  function Firsts(arr: seq<string>, key: string -> string): seq<string>
    decreases |arr|
  {
    if |arr| == 0 then []
    else Firsts(arr[..|arr| - 1], key) + (if IsFirst(arr, |arr| - 1, key) then [arr[|arr| - 1]] else [])
  }

  /**
   * `dedupe` keeps exactly the entries that are the first non-empty entry of
   * their key, in the order of the input.
   */
  lemma {:induction false} DedupeIsFirsts(arr: seq<string>, key: string -> string)
    ensures Dedupe(arr, key) == Firsts(arr, key)
    decreases |arr|
  {
    if |arr| > 0 {
      var init := arr[..|arr| - 1];
      var a := arr[|arr| - 1];
      DedupeIsFirsts(init, key);
      DedupeKeys(init, key);
      assert forall j :: 0 <= j < |init| ==> arr[j] == init[j];
      if a != "" && !IsFirst(arr, |arr| - 1, key) {
        var j :| 0 <= j < |arr| - 1 && arr[j] != "" && key(arr[j]) == key(a);
        assert key(a) in EntryKeys(init, key);
      }
      if IsFirst(arr, |arr| - 1, key) {
        assert key(a) !in EntryKeys(init, key);
      }
    }
  }

  /** A non-empty first entry is always kept, in front. */
  lemma {:induction false} DedupeHead(arr: seq<string>, key: string -> string)
    requires |arr| > 0 && arr[0] != ""
    ensures |Dedupe(arr, key)| > 0 && Dedupe(arr, key)[0] == arr[0]
    decreases |arr|
  {
    if |arr| > 1 {
      DedupeHead(arr[..|arr| - 1], key);
    } else {
      assert Dedupe(arr[..0], key) == [];
    }
  }

  // --------------------------------------------------------- focus list

  /** `dedupe([...weaknessTips, ...levelTips, ...strengthTips])` before the cut. */
  function AllTips(level: string, strongest: string, weakest: string): seq<string> {
    TipsFromArea(weakest, Weak) + TipsByLevel(level) + TipsFromArea(strongest, Strong)
  }

  /** The card's focus list: the de-duplicated tips cut to five. */
  function FocusTips(level: string, strongest: string, weakest: string): seq<string> {
    Take(Dedupe(AllTips(level, strongest, weakest), Key), 5)
  }

  /**
   * The focus list holds at most five tips with distinct keys: the first
   * five tips that are the first of their key among the weakness, level and
   * strength tips taken in that order, so it always opens with the first
   * weakness tip.
   */
  lemma FocusFacts(level: string, strongest: string, weakest: string)
    ensures |TipsFromArea(weakest, Weak)| == 2
    ensures 1 <= |FocusTips(level, strongest, weakest)| <= 5
    ensures FocusTips(level, strongest, weakest) == Take(Firsts(AllTips(level, strongest, weakest), Key), 5)
    ensures FocusTips(level, strongest, weakest)[0] == TipsFromArea(weakest, Weak)[0]
    ensures forall i, j :: 0 <= i < j < |FocusTips(level, strongest, weakest)| ==>
      Key(FocusTips(level, strongest, weakest)[i]) != Key(FocusTips(level, strongest, weakest)[j])
  {
    var all := AllTips(level, strongest, weakest);
    TipsFromAreaShape(weakest, Weak);
    assert all[0] == TipsFromArea(weakest, Weak)[0];
    DedupeHead(all, Key);
    DedupeKept(all, Key);
    DedupeIsFirsts(all, Key);
  }
}
