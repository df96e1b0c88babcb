/**
 * Bridge detection of the summary route: deposits through Base's native
 * bridge, withdrawals towards it, and per-provider use counters for the
 * third-party bridges, from the successful transactions and the ERC-20
 * transfers of the wallet.
 */
module Bridges {
  import opened Text
  import opened Collections
  import opened Ledger

  /** `NATIVE_BRIDGE_SENDERS_L2`: the L2 contracts that credit a deposit. */
  const NativeSenders: set<string> := {
    "0x4200000000000000000000000000000000000010",
    "0x4200000000000000000000000000000000000007",
    "0x4200000000000000000000000000000000000016"}

  /** `NATIVE_L2_OUT`: the L2 contracts a withdrawal goes to. */
  const NativeL2Out: set<string> := {
    "0x4200000000000000000000000000000000000010",
    "0x4200000000000000000000000000000000000011"}

  /** The entries of `THIRD_PARTY_BRIDGES`. */
  datatype Provider = Bungee | Jumper | Across | Relay | Stargate

  /** The keys of `THIRD_PARTY_BRIDGES`, in declaration order. */
  const ThirdPartyKeys: seq<Provider> := [Bungee, Jumper, Across, Relay, Stargate]

  /** The key of a provider in `bridgeCounts`. */
  function KeyOf(p: Provider): string {
    match p
    case Bungee => "bungee"
    case Jumper => "jumper"
    case Across => "across"
    case Relay => "relay"
    case Stargate => "stargate"
  }

  const BungeeContracts: set<string> := {"0x12e6e58864ce4402cf2b4b8a8e9c75ead7280156", "0x957301825dc21d4a92919c9e72dc9e6c6a29e7f8"}
  const JumperContracts: set<string> := {"0x1231deb6f5749ef6ce6943a275a1d3e7486f4eae"}
  const AcrossContracts: set<string> := {"0x09aea4b2242abc8bb4bb78d537a67a245a7bec64"}
  const RelayContracts: set<string> := {"0xf5042e6ffac5a625d4e7848e0b01373d8eb9e222"}
  const StargateContracts: set<string> := {"0x45a01e4e04f14f7a4a6702c74187c5f6222033cd"}

  /** The lower-cased on-Base contracts of each third-party bridge. */
  function BridgeContracts(k: Provider): set<string> {
    match k
    case Bungee => BungeeContracts
    case Jumper => JumperContracts
    case Across => AcrossContracts
    case Relay => RelayContracts
    case Stargate => StargateContracts
  }

  lemma ThirdPartyKeysDistinct()
    ensures NoDuplicates(ThirdPartyKeys)
  {
  }

  /** Every provider is listed. */
  lemma AllProvidersListed()
    ensures forall k :: k in ThirdPartyKeys
  {
    forall k ensures k in ThirdPartyKeys {
      match k
      case Bungee => assert ThirdPartyKeys[0] == k;
      case Jumper => assert ThirdPartyKeys[1] == k;
      case Across => assert ThirdPartyKeys[2] == k;
      case Relay => assert ThirdPartyKeys[3] == k;
      case Stargate => assert ThirdPartyKeys[4] == k;
    }
  }

  /** A transaction touches bridge `k` when its sender or recipient is one of its contracts. */
  function TxHits(k: Provider): NormalTx -> bool {
    (t: NormalTx) => Lower(t.from) in BridgeContracts(k) || Lower(t.to) in BridgeContracts(k)
  }

  /** A transfer also touches bridge `k` when the token contract is one of its contracts. */
  function TransferHits(k: Provider): TokenTransfer -> bool {
    (tr: TokenTransfer) => Lower(tr.from) in BridgeContracts(k) || Lower(tr.to) in BridgeContracts(k)
      || Lower(tr.contractAddress) in BridgeContracts(k)
  }

  /** `bridgeCounts[k]` at the end of both loops. */
  function ProviderCount(ok: seq<NormalTx>, erc20: seq<TokenTransfer>, k: Provider): nat {
    CountIf(ok, TxHits(k)) + CountIf(erc20, TransferHits(k))
  }

  /** An incoming transaction from a native-bridge sender: a deposit. */
  function IsDeposit(address: string): NormalTx -> bool {
    (t: NormalTx) => Lower(t.to) == Lower(address) && Lower(t.from) in NativeSenders
  }

  /** An outgoing transaction to a native-bridge contract: a withdrawal. */
  predicate IsWithdrawal(address: string, t: NormalTx) {
    Lower(t.from) == Lower(address) && Lower(t.to) in NativeL2Out
  }

  /** A transfer between the wallet and a native-bridge contract, in either direction. */
  predicate IsNativeTransfer(address: string, tr: TokenTransfer) {
    (Lower(tr.from) == Lower(address) && Lower(tr.to) in NativeL2Out)
    || (Lower(tr.to) == Lower(address) && Lower(tr.from) in NativeL2Out)
  }

  function TxEth(t: NormalTx): real {
    WeiToEth(t.value)
  }

  /** `depositedEth`: the ether the deposits carried. */
  function Deposited(ok: seq<NormalTx>, address: string): real {
    SumOf(Filter(ok, IsDeposit(address)), TxEth)
  }

  predicate NativeInTxs(ok: seq<NormalTx>, address: string) {
    exists t :: t in ok && (IsDeposit(address)(t) || IsWithdrawal(address, t))
  }

  predicate NativeInTransfers(erc20: seq<TokenTransfer>, address: string) {
    exists tr :: tr in erc20 && IsNativeTransfer(address, tr)
  }

  /** `nativeBridgeUsed` */
  predicate NativeBridgeUsed(ok: seq<NormalTx>, erc20: seq<TokenTransfer>, address: string) {
    NativeInTxs(ok, address) || NativeInTransfers(erc20, address)
  }

  /** Growing the prefix of the provider keys by one adds exactly the next, new key. */
  lemma KeysPrefixStep(j: nat)
    requires j < |ThirdPartyKeys|
    ensures ThirdPartyKeys[j] !in ThirdPartyKeys[..j]
    ensures forall x :: x in ThirdPartyKeys[..j + 1] <==> x in ThirdPartyKeys[..j] || x == ThirdPartyKeys[j]
  {
    ThirdPartyKeysDistinct();
    PrefixSnoc(ThirdPartyKeys, j);
  }

  lemma HitPrefixStep(j: nat, hit: Provider -> bool)
    requires j < |ThirdPartyKeys|
    ensures (exists x :: x in ThirdPartyKeys[..j + 1] && hit(x))
        <==> (exists x :: x in ThirdPartyKeys[..j] && hit(x)) || hit(ThirdPartyKeys[j])
  {
    KeysPrefixStep(j);
  }

  /** The counters of the providers a record touches go up by one. */
  method Bump(counts: map<Provider, nat>, hit: Provider -> bool) returns (next: map<Provider, nat>, any: bool)
    requires counts.Keys == Elements(ThirdPartyKeys)
    ensures next.Keys == counts.Keys
    ensures forall k :: k in next ==> next[k] == counts[k] + (if hit(k) then 1 else 0)
    ensures any <==> exists k :: k in ThirdPartyKeys && hit(k)
  {
    next := counts;
    any := false;
    for j := 0 to |ThirdPartyKeys|
      invariant BumpedUpTo(counts, next, hit, j)
      invariant any <==> exists k :: k in ThirdPartyKeys[..j] && hit(k)
    {
      var k := ThirdPartyKeys[j];
      HitPrefixStep(j, hit);
      ghost var prev := next;
      if hit(k) {
        any := true;
        next := next[k := next[k] + 1];
      }
      BumpStep(counts, prev, next, hit, j);
    }
    assert ThirdPartyKeys[..|ThirdPartyKeys|] == ThirdPartyKeys;
  }

  /** The counters after the providers `ThirdPartyKeys[..j]` had their turn. */
  ghost predicate BumpedUpTo(counts: map<Provider, nat>, next: map<Provider, nat>, hit: Provider -> bool, j: nat)
    requires j <= |ThirdPartyKeys|
  {
    && next.Keys == counts.Keys
    && forall k :: k in next ==> next[k] == counts[k] + (if hit(k) && k in ThirdPartyKeys[..j] then 1 else 0)
  }

  lemma BumpStep(counts: map<Provider, nat>, prev: map<Provider, nat>, next: map<Provider, nat>, hit: Provider -> bool, j: nat)
    requires j < |ThirdPartyKeys| && counts.Keys == Elements(ThirdPartyKeys)
    requires BumpedUpTo(counts, prev, hit, j)
    requires next == if hit(ThirdPartyKeys[j]) then prev[ThirdPartyKeys[j] := prev[ThirdPartyKeys[j]] + 1] else prev
    ensures BumpedUpTo(counts, next, hit, j + 1)
  {
    KeysPrefixStep(j);
    assert ThirdPartyKeys[j] in prev;
  }

  /** A bump keeps `usedThirdPartyBridge` equal to "some counter is positive". */
  lemma BumpKeepsUsed(before: map<Provider, nat>, next: map<Provider, nat>, hit: Provider -> bool, used: bool, any: bool)
    requires before.Keys == Elements(ThirdPartyKeys) && next.Keys == before.Keys
    requires forall k :: k in next ==> next[k] == before[k] + (if hit(k) then 1 else 0)
    requires any <==> exists k :: k in ThirdPartyKeys && hit(k)
    requires used <==> exists k :: k in before && before[k] > 0
    ensures (used || any) <==> exists k :: k in next && next[k] > 0
  {
    if used {
      var k :| k in before && before[k] > 0;
      assert next[k] > 0;
    }
    if any {
      var k :| k in ThirdPartyKeys && hit(k);
      assert next[k] > 0;
    }
  }

  lemma DepositStep(s: seq<NormalTx>, t: NormalTx, address: string)
    ensures Deposited(s + [t], address) == Deposited(s, address) + (if IsDeposit(address)(t) then TxEth(t) else 0.0)
  {
    FilterSnoc(s, t, IsDeposit(address));
    SumOfSnoc(Filter(s, IsDeposit(address)), t, TxEth);
  }

  /** One record's turn in the provider loop: bump the counters it touches and note any use. */
  method Tally(counts: map<Provider, nat>, used: bool, hit: Provider -> bool)
    returns (next: map<Provider, nat>, nowUsed: bool)
    requires counts.Keys == Elements(ThirdPartyKeys)
    requires used <==> exists k :: k in counts && counts[k] > 0
    ensures next.Keys == counts.Keys
    ensures forall k :: k in next ==> next[k] == counts[k] + (if hit(k) then 1 else 0)
    ensures nowUsed <==> exists k :: k in next && next[k] > 0
  {
    var any;
    next, any := Bump(counts, hit);
    BumpKeepsUsed(counts, next, hit, used, any);
    nowUsed := used || any;
  }

  lemma NativeInTxsSnoc(s: seq<NormalTx>, t: NormalTx, address: string)
    ensures NativeInTxs(s + [t], address)
        <==> NativeInTxs(s, address) || IsDeposit(address)(t) || IsWithdrawal(address, t)
  {
    if IsDeposit(address)(t) || IsWithdrawal(address, t) {
      assert t in s + [t];
    }
    if NativeInTxs(s, address) {
      var x :| x in s && (IsDeposit(address)(x) || IsWithdrawal(address, x));
      assert x in s + [t];
    }
  }

  lemma TxCountsSnoc(s: seq<NormalTx>, t: NormalTx, before: map<Provider, nat>, next: map<Provider, nat>)
    requires forall k :: k in before ==> before[k] == CountIf(s, TxHits(k))
    requires next.Keys == before.Keys
    requires forall k :: k in next ==> next[k] == before[k] + (if TxHits(k)(t) then 1 else 0)
    ensures forall k :: k in next ==> next[k] == CountIf(s + [t], TxHits(k))
  {
    forall k | k in next ensures next[k] == CountIf(s + [t], TxHits(k)) {
      FilterSnoc(s, t, TxHits(k));
    }
  }

  /** One transaction's turn for the native bridge: a deposit adds its ether, and either direction marks use. */
  method NativeStep(t: NormalTx, addr: string, address: string, depositedEth: real, native: bool)
    returns (deposited': real, native': bool)
    requires addr == Lower(address)
    ensures deposited' == depositedEth + (if IsDeposit(address)(t) then TxEth(t) else 0.0)
    ensures native' == (native || IsDeposit(address)(t) || IsWithdrawal(address, t))
  {
    var from := Lower(t.from);
    var to := Lower(t.to);
    deposited', native' := depositedEth, native;
    if to == addr {
      if from in NativeSenders {
        native' := true;
        deposited' := deposited' + WeiToEth(t.value);
      }
    }
    if from == addr && to in NativeL2Out {
      native' := true;
    }
  }

  /** One transaction's turn in the provider loop, stated over the records seen so far. */
  method CountTx(ghost s: seq<NormalTx>, t: NormalTx, counts: map<Provider, nat>, used: bool)
    returns (next: map<Provider, nat>, nowUsed: bool)
    requires counts.Keys == Elements(ThirdPartyKeys)
    requires forall k :: k in counts ==> counts[k] == CountIf(s, TxHits(k))
    requires used <==> exists k :: k in counts && counts[k] > 0
    ensures next.Keys == Elements(ThirdPartyKeys)
    ensures forall k :: k in next ==> next[k] == CountIf(s + [t], TxHits(k))
    ensures nowUsed <==> exists k :: k in next && next[k] > 0
  {
    next, nowUsed := Tally(counts, used, (k: Provider) => TxHits(k)(t));
    TxCountsSnoc(s, t, counts, next);
  }

  /** The provider counters have taken in the transfers `s` on top of `counts0`. */
  ghost predicate TransfersCounted(counts0: map<Provider, nat>, counts: map<Provider, nat>, s: seq<TokenTransfer>) {
    && counts.Keys == Elements(ThirdPartyKeys)
    && forall k :: k in counts ==> k in counts0 && counts[k] == counts0[k] + CountIf(s, TransferHits(k))
  }

  /** The third-party flag says whether some counter is positive. */
  predicate AnyUsed(used: bool, counts: map<Provider, nat>) {
    used <==> exists k :: k in counts && counts[k] > 0
  }

  /** One transfer's turn in the provider loop, stated over the records seen so far. */
  method CountTransfer(ghost s: seq<TokenTransfer>, tr: TokenTransfer, counts0: map<Provider, nat>,
                       counts: map<Provider, nat>, used: bool)
    returns (next: map<Provider, nat>, nowUsed: bool)
    requires counts0.Keys == Elements(ThirdPartyKeys)
    requires TransfersCounted(counts0, counts, s) && AnyUsed(used, counts)
    ensures TransfersCounted(counts0, next, s + [tr]) && AnyUsed(nowUsed, next)
  {
    next, nowUsed := Tally(counts, used, (k: Provider) => TransferHits(k)(tr));
    TransferCountsSnoc(s, tr, counts0, counts, next);
  }

  /** The loop over the successful transactions. */
  method ScanTxs(ok: seq<NormalTx>, address: string)
    returns (depositedEth: real, nativeBridgeUsed: bool, usedThirdPartyBridge: bool, counts: map<Provider, nat>)
    ensures depositedEth == Deposited(ok, address)
    ensures nativeBridgeUsed == NativeInTxs(ok, address)
    ensures counts.Keys == Elements(ThirdPartyKeys)
    ensures forall k :: k in counts ==> counts[k] == CountIf(ok, TxHits(k))
    ensures usedThirdPartyBridge <==> exists k :: k in counts && counts[k] > 0
  {
    var addr := Lower(address);
    depositedEth := 0.0;
    nativeBridgeUsed := false;
    usedThirdPartyBridge := false;
    counts := map k | k in ThirdPartyKeys :: 0;
    assert ok[..0] == [];
    for i := 0 to |ok|
      invariant depositedEth == Deposited(ok[..i], address)
      invariant nativeBridgeUsed == NativeInTxs(ok[..i], address)
      invariant counts.Keys == Elements(ThirdPartyKeys)
      invariant forall k :: k in counts ==> counts[k] == CountIf(ok[..i], TxHits(k))
      invariant usedThirdPartyBridge <==> exists k :: k in counts && counts[k] > 0
    {
      var t := ok[i];
      PrefixSnoc(ok, i);
      DepositStep(ok[..i], t, address);
      NativeInTxsSnoc(ok[..i], t, address);
      depositedEth, nativeBridgeUsed := NativeStep(t, addr, address, depositedEth, nativeBridgeUsed);
      counts, usedThirdPartyBridge := CountTx(ok[..i], t, counts, usedThirdPartyBridge);
    }
    assert ok[..|ok|] == ok;
  }

  lemma NativeInTransfersSnoc(s: seq<TokenTransfer>, tr: TokenTransfer, address: string)
    ensures NativeInTransfers(s + [tr], address) <==> NativeInTransfers(s, address) || IsNativeTransfer(address, tr)
  {
    if IsNativeTransfer(address, tr) {
      assert tr in s + [tr];
    }
    if NativeInTransfers(s, address) {
      var x :| x in s && IsNativeTransfer(address, x);
      assert x in s + [tr];
    }
  }

  lemma TransferCountsSnoc(s: seq<TokenTransfer>, tr: TokenTransfer, counts0: map<Provider, nat>,
                           before: map<Provider, nat>, next: map<Provider, nat>)
    requires before.Keys == counts0.Keys && next.Keys == before.Keys
    requires forall k :: k in before ==> before[k] == counts0[k] + CountIf(s, TransferHits(k))
    requires forall k :: k in next ==> next[k] == before[k] + (if TransferHits(k)(tr) then 1 else 0)
    ensures forall k :: k in next ==> next[k] == counts0[k] + CountIf(s + [tr], TransferHits(k))
  {
    forall k | k in next ensures next[k] == counts0[k] + CountIf(s + [tr], TransferHits(k)) {
      FilterSnoc(s, tr, TransferHits(k));
    }
  }

  /** One transfer's turn for the native bridge: either direction marks use. */
  method NativeTransferStep(tr: TokenTransfer, addr: string, address: string, native: bool) returns (native': bool)
    requires addr == Lower(address)
    ensures native' == (native || IsNativeTransfer(address, tr))
  {
    var from := Lower(tr.from);
    var to := Lower(tr.to);
    native' := native;
    if from == addr && to in NativeL2Out {
      native' := true;
    }
    if to == addr && from in NativeL2Out {
      native' := true;
    }
  }

  /** The loop over the ERC-20 transfers, continuing from the state the first loop left. */
  method ScanTransfers(erc20: seq<TokenTransfer>, address: string,
                       native0: bool, used0: bool, counts0: map<Provider, nat>)
    returns (nativeBridgeUsed: bool, usedThirdPartyBridge: bool, counts: map<Provider, nat>)
    requires counts0.Keys == Elements(ThirdPartyKeys)
    requires used0 <==> exists k :: k in counts0 && counts0[k] > 0
    ensures nativeBridgeUsed == (native0 || NativeInTransfers(erc20, address))
    ensures counts.Keys == Elements(ThirdPartyKeys)
    ensures forall k :: k in counts ==> counts[k] == counts0[k] + CountIf(erc20, TransferHits(k))
    ensures usedThirdPartyBridge <==> exists k :: k in counts && counts[k] > 0
  {
    var addr := Lower(address);
    nativeBridgeUsed := native0;
    usedThirdPartyBridge := used0;
    counts := counts0;
    assert erc20[..0] == [];
    for i := 0 to |erc20|
      invariant nativeBridgeUsed == (native0 || NativeInTransfers(erc20[..i], address))
      invariant TransfersCounted(counts0, counts, erc20[..i]) && AnyUsed(usedThirdPartyBridge, counts)
    {
      var tr := erc20[i];
      PrefixSnoc(erc20, i);
      NativeInTransfersSnoc(erc20[..i], tr, address);
      nativeBridgeUsed := NativeTransferStep(tr, addr, address, nativeBridgeUsed);
      counts, usedThirdPartyBridge := CountTransfer(erc20[..i], tr, counts0, counts, usedThirdPartyBridge);
    }
    assert erc20[..|erc20|] == erc20;
  }

  /**
   * The two bridge loops over the successful transactions and the ERC-20
   * transfers of `address`.
   */
  method BridgeActivity(ok: seq<NormalTx>, erc20: seq<TokenTransfer>, address: string)
    returns (depositedEth: real, nativeBridgeUsed: bool, usedThirdPartyBridge: bool, counts: map<Provider, nat>)
    ensures depositedEth == Deposited(ok, address)
    ensures nativeBridgeUsed == NativeBridgeUsed(ok, erc20, address)
    ensures counts.Keys == Elements(ThirdPartyKeys)
    ensures forall k :: k in counts ==> counts[k] == ProviderCount(ok, erc20, k)
    ensures usedThirdPartyBridge <==> exists k :: k in counts && counts[k] > 0
  {
    var native0, used0, counts0;
    depositedEth, native0, used0, counts0 := ScanTxs(ok, address);
    nativeBridgeUsed, usedThirdPartyBridge, counts := ScanTransfers(erc20, address, native0, used0, counts0);
  }

  /** Depositing any ether through the native bridge means the native bridge was used. */
  lemma DepositMeansNative(ok: seq<NormalTx>, erc20: seq<TokenTransfer>, address: string)
    requires Deposited(ok, address) > 0.0
    ensures NativeBridgeUsed(ok, erc20, address)
  {
    var deposits := Filter(ok, IsDeposit(address));
    assert |deposits| > 0;
    assert deposits[0] in deposits;
  }

  /** Deposits never sum to a negative amount. */
  lemma DepositedNonNegative(ok: seq<NormalTx>, address: string)
    ensures Deposited(ok, address) >= 0.0
  {
    SumOfNonNegative(Filter(ok, IsDeposit(address)), TxEth);
  }
}
