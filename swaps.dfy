/**
 * Swap detection of the summary route.  A hash is a swap when a successful
 * transaction with that hash looks like a swap (a swap word in its function
 * name, or a DEX router as counterparty), or when the wallet both sent and
 * received tokens under it.  Around that: the per-hash token aggregates,
 * the stablecoin counts and the largest swap value in USD.
 */
module Swaps {
  import opened Wrappers
  import opened Text
  import opened Collections
  import opened Ledger
  import opened Protocols

  // ------------------------------------------------------------ heuristics

  /** `DEX_KEYS` */
  const DexKeys: seq<ProtoKey> := [Uniswap, Pancake, Sushi, Aerodrome, Matcha]

  /** `DEX_ROUTER_SET`: the lower-cased addresses of the DEX protocols. */
  function DexRouters(): (r: set<string>)
    ensures forall a :: a in r <==> exists k, x :: k in DexKeys && x in ProtocolAddrs(k) && Lower(x) == a
  {
    set k, x | k in DexKeys && x in ProtocolAddrs(k) :: Lower(x)
  }

  /** `SWAP_WORDS`: five generic words and the keywords of the DEX protocols, lower-cased. */
  function SwapWords(): seq<string> {
    Map(["swap", "exactinput", "exactoutput", "universalrouter", "v3swap"]
        + Keywords(Uniswap) + Keywords(Pancake) + Keywords(Sushi) + Keywords(Aerodrome) + Keywords(Matcha), Lower)
  }

  /** `sIncludes(hay, needle)` on strings: a case-insensitive substring test. */
  predicate Includes(hay: string, needle: string) {
    Contains(Lower(hay), Lower(needle))
  }

  /** `looksLikeSwap(t)` */
  predicate LooksLikeSwap(t: NormalTx) {
    (exists w :: w in SwapWords() && Includes(Lower(t.functionName), w))
    || Lower(t.to) in DexRouters()
    || Lower(t.from) in DexRouters()
  }

  // ------------------------------------------------------------ byHash

  /** `STABLE_SYMBOLS` */
  const StableSymbols: set<string> := {"USDC", "USDBC", "USDT", "DAI", "FRAX", "USDE", "LUSD"}

  lemma StableSymbolCount()
    ensures |StableSymbols| == 7
  {
  }

  function Symbol(tr: TokenTransfer): string {
    Upper(tr.tokenSymbol)
  }

  predicate IsStable(tr: TokenTransfer) {
    Symbol(tr) in StableSymbols
  }

  /** The USD estimate of a stablecoin leg, 0 for any other token. */
  function StableUsd(tr: TokenTransfer): (v: real)
    ensures v >= 0.0
  {
    if IsStable(tr) then TokenUnits(tr) else 0.0
  }

  /** The value of one leg in whole token units, read as USD. */
  function AnyUsd(tr: TokenTransfer): (v: real)
    ensures v >= 0.0
  {
    TokenUnits(tr)
  }

  function Max(a: real, b: real): real {
    if b > a then b else a
  }

  /** `byHash[h]`: whether the wallet received and sent under `h`, and the largest leg values. */
  datatype Agg = Agg(hasIn: bool, hasOut: bool, stableUsd: real, anyUsd: real)

  const NoLegs: Agg := Agg(false, false, 0.0, 0.0)

  /** The aggregate of the transfers in `s` with hash `h`, as the loop leaves it. */
  function AggFor(s: seq<TokenTransfer>, h: string, address: string): Agg
    decreases |s|
  {
    if |s| == 0 then NoLegs
    else
      var a := AggFor(s[..|s| - 1], h, address);
      var tr := s[|s| - 1];
      if TransferHash(tr) != h then a else Absorbed(a, tr, address)
  }

  /** The aggregate after one more leg `tr`. */
  function Absorbed(a: Agg, tr: TokenTransfer, address: string): Agg {
    Agg(a.hasIn || Lower(tr.to) == Lower(address),
        a.hasOut || Lower(tr.from) == Lower(address),
        Max(a.stableUsd, StableUsd(tr)),
        Max(a.anyUsd, AnyUsd(tr)))
  }

  /** The transfers of `s` filed under `h`. */
  predicate Leg(s: seq<TokenTransfer>, h: string, tr: TokenTransfer) {
    tr in s && TransferHash(tr) == h
  }

  lemma {:induction false} AggForDirections(s: seq<TokenTransfer>, h: string, address: string)
    ensures var a := AggFor(s, h, address);
      (a.hasIn <==> exists tr :: Leg(s, h, tr) && Lower(tr.to) == Lower(address))
      && (a.hasOut <==> exists tr :: Leg(s, h, tr) && Lower(tr.from) == Lower(address))
    decreases |s|
  {
    if |s| > 0 {
      var init := s[..|s| - 1];
      AggForDirections(init, h, address);
      assert forall tr :: tr in s <==> tr in init || tr == s[|s| - 1];
    }
  }

  lemma {:induction false} AggForMaxima(s: seq<TokenTransfer>, h: string, address: string)
    ensures var a := AggFor(s, h, address);
      && (forall tr :: Leg(s, h, tr) ==> a.stableUsd >= StableUsd(tr) && a.anyUsd >= AnyUsd(tr))
      && (a.stableUsd == 0.0 || exists tr :: Leg(s, h, tr) && a.stableUsd == StableUsd(tr))
      && (a.anyUsd == 0.0 || exists tr :: Leg(s, h, tr) && a.anyUsd == AnyUsd(tr))
      && a.stableUsd >= 0.0 && a.anyUsd >= 0.0
    decreases |s|
  {
    if |s| > 0 {
      var init := s[..|s| - 1];
      AggForMaxima(init, h, address);
      assert forall tr :: tr in s <==> tr in init || tr == s[|s| - 1];
      var a := AggFor(init, h, address);
      if a.stableUsd != 0.0 {
        var w :| Leg(init, h, w) && a.stableUsd == StableUsd(w);
        assert Leg(s, h, w);
      }
      if a.anyUsd != 0.0 {
        var w :| Leg(init, h, w) && a.anyUsd == AnyUsd(w);
        assert Leg(s, h, w);
      }
    }
  }

  /**
   * What the aggregate means: an inbound and an outbound leg, and the largest
   * stable and token value among the legs (0 when there is no positive one).
   */
  lemma AggForMeaning(s: seq<TokenTransfer>, h: string, address: string)
    ensures var a := AggFor(s, h, address);
      (a.hasIn <==> exists tr :: Leg(s, h, tr) && Lower(tr.to) == Lower(address))
      && (a.hasOut <==> exists tr :: Leg(s, h, tr) && Lower(tr.from) == Lower(address))
      && (forall tr :: Leg(s, h, tr) ==> a.stableUsd >= StableUsd(tr) && a.anyUsd >= AnyUsd(tr))
      && (a.stableUsd == 0.0 || exists tr :: Leg(s, h, tr) && a.stableUsd == StableUsd(tr))
      && (a.anyUsd == 0.0 || exists tr :: Leg(s, h, tr) && a.anyUsd == AnyUsd(tr))
      && a.stableUsd >= 0.0 && a.anyUsd >= 0.0
  {
    AggForDirections(s, h, address);
    AggForMaxima(s, h, address);
  }

  /** A hash none of whose transfers is in `s` has the empty aggregate. */
  lemma {:induction false} AggForAbsent(s: seq<TokenTransfer>, h: string, address: string)
    requires forall tr :: tr in s ==> TransferHash(tr) != h
    ensures AggFor(s, h, address) == NoLegs
    decreases |s|
  {
    if |s| > 0 {
      AggForAbsent(s[..|s| - 1], h, address);
    }
  }

  /** The hashes the byHash loop files transfers under. */
  function TransferHashes(s: seq<TokenTransfer>): (r: set<string>)
    ensures forall h :: h in r <==> h != "" && exists tr :: tr in s && TransferHash(tr) == h
  {
    set tr | tr in s && TransferHash(tr) != "" :: TransferHash(tr)
  }

  lemma TransferHashesSnoc(s: seq<TokenTransfer>, tr: TokenTransfer)
    ensures TransferHashes(s + [tr]) == TransferHashes(s) + (if TransferHash(tr) != "" then {TransferHash(tr)} else {})
  {
    assert forall x :: x in s + [tr] <==> x in s || x == tr;
  }

  /** Adding a transfer changes only the aggregate of its own hash. */
  lemma AggForSnoc(s: seq<TokenTransfer>, tr: TokenTransfer, h: string, address: string)
    ensures TransferHash(tr) != h ==> AggFor(s + [tr], h, address) == AggFor(s, h, address)
    ensures TransferHash(tr) == h ==> AggFor(s + [tr], h, address) == Absorbed(AggFor(s, h, address), tr, address)
  {
    assert (s + [tr])[..|s|] == s;
  }

  /** The updates of one leg to the aggregate of its hash. */
  method Absorb(agg0: Agg, tr: TokenTransfer, addr: string, address: string) returns (agg: Agg)
    requires addr == Lower(address)
    ensures agg == Absorbed(agg0, tr, address)
  {
    agg := agg0;
    if Lower(tr.to) == addr {
      agg := agg.(hasIn := true);
    }
    if Lower(tr.from) == addr {
      agg := agg.(hasOut := true);
    }
    var stableUsd := StableUsd(tr);
    var anyUsd := AnyUsd(tr);
    if stableUsd > agg.stableUsd {
      agg := agg.(stableUsd := stableUsd);
    }
    if anyUsd > agg.anyUsd {
      agg := agg.(anyUsd := anyUsd);
    }
  }

  /** The byHash invariant: one entry per hash seen, holding the aggregate of its legs. */
  ghost predicate FiledAll(s: seq<TokenTransfer>, address: string, byHash: map<string, Agg>) {
    && byHash.Keys == TransferHashes(s)
    && forall h :: h in byHash ==> byHash[h] == AggFor(s, h, address)
  }

  lemma FileStep(s: seq<TokenTransfer>, tr: TokenTransfer, address: string, byHash: map<string, Agg>, agg: Agg)
    requires FiledAll(s, address, byHash)
    requires TransferHash(tr) != ""
    requires agg == Absorbed(AggFor(s, TransferHash(tr), address), tr, address)
    ensures FiledAll(s + [tr], address, byHash[TransferHash(tr) := agg])
  {
    TransferHashesSnoc(s, tr);
    var next := byHash[TransferHash(tr) := agg];
    forall g | g in next ensures next[g] == AggFor(s + [tr], g, address) {
      AggForSnoc(s, tr, g, address);
    }
  }

  lemma FileSkip(s: seq<TokenTransfer>, tr: TokenTransfer, address: string, byHash: map<string, Agg>)
    requires FiledAll(s, address, byHash)
    requires TransferHash(tr) == ""
    ensures FiledAll(s + [tr], address, byHash)
  {
    TransferHashesSnoc(s, tr);
    forall g | g in byHash ensures byHash[g] == AggFor(s + [tr], g, address) {
      AggForSnoc(s, tr, g, address);
    }
  }

  /** One transfer's turn in the byHash loop, stated over the transfers seen so far. */
  method FileTransfer(ghost s: seq<TokenTransfer>, tr: TokenTransfer, addr: string, address: string,
                      byHash: map<string, Agg>) returns (next: map<string, Agg>)
    requires addr == Lower(address)
    requires byHash.Keys == TransferHashes(s)
    requires forall h :: h in byHash ==> byHash[h] == AggFor(s, h, address)
    ensures next.Keys == TransferHashes(s + [tr])
    ensures forall h :: h in next ==> next[h] == AggFor(s + [tr], h, address)
  {
    next := byHash;
    var h := TransferHash(tr);
    if h != "" {
      if h !in next {
        AggForAbsent(s, h, address);
        next := next[h := NoLegs];
      }
      var agg := Absorb(next[h], tr, addr, address);
      FileStep(s, tr, address, byHash, agg);
      next := next[h := agg];
    } else {
      FileSkip(s, tr, address, byHash);
    }
  }

  /** The byHash loop over the ERC-20 transfers. */
  method AggregateTransfers(erc20: seq<TokenTransfer>, address: string) returns (byHash: map<string, Agg>)
    ensures byHash.Keys == TransferHashes(erc20)
    ensures forall h :: h in byHash ==> byHash[h] == AggFor(erc20, h, address)
  {
    var addr := Lower(address);
    byHash := map[];
    for i := 0 to |erc20|
      invariant byHash.Keys == TransferHashes(erc20[..i])
      invariant forall h :: h in byHash ==> byHash[h] == AggFor(erc20[..i], h, address)
    {
      PrefixSnoc(erc20, i);
      byHash := FileTransfer(erc20[..i], erc20[i], addr, address, byHash);
    }
    assert erc20[..|erc20|] == erc20;
  }

  // ------------------------------------------------------------ swap set

  /** The last successful transaction with hash `h`, if any: `okByHash[h]` keeps the last write. */
  function LastWithHash(ok: seq<NormalTx>, h: string): Option<NormalTx>
    decreases |ok|
  {
    if |ok| == 0 then None
    else if ok[|ok| - 1].hash == h then Some(ok[|ok| - 1])
    else LastWithHash(ok[..|ok| - 1], h)
  }

  /** `ok[i]` carries `h` and no later transaction does. */
  predicate LastHashAt(ok: seq<NormalTx>, h: string, i: int) {
    0 <= i < |ok| && ok[i].hash == h && forall j :: i < j < |ok| ==> ok[j].hash != h
  }

  lemma LastHashAtExtends(ok: seq<NormalTx>, h: string, i: int)
    requires |ok| > 0 && ok[|ok| - 1].hash != h && LastHashAt(ok[..|ok| - 1], h, i)
    ensures LastHashAt(ok, h, i) && ok[i] == ok[..|ok| - 1][i]
  {
  }

  /** `LastWithHash` finds none only when no transaction carries `h`. */
  lemma {:induction false} LastWithHashNone(ok: seq<NormalTx>, h: string)
    ensures LastWithHash(ok, h).None? <==> forall t :: t in ok ==> t.hash != h
    decreases |ok|
  {
    if |ok| > 0 {
      var init := ok[..|ok| - 1];
      LastWithHashNone(init, h);
      assert forall t :: t in ok <==> t in init || t == ok[|ok| - 1];
    }
  }

  /** What `LastWithHash` finds is the last transaction carrying `h`. */
  lemma {:induction false} LastWithHashSome(ok: seq<NormalTx>, h: string)
    ensures LastWithHash(ok, h).Some? ==> exists i :: LastHashAt(ok, h, i) && ok[i] == LastWithHash(ok, h).value
    decreases |ok|
  {
    if |ok| > 0 {
      var init := ok[..|ok| - 1];
      if ok[|ok| - 1].hash == h {
        assert LastHashAt(ok, h, |ok| - 1);
      } else if LastWithHash(init, h).Some? {
        LastWithHashSome(init, h);
        var i :| LastHashAt(init, h, i) && init[i] == LastWithHash(init, h).value;
        LastHashAtExtends(ok, h, i);
      }
    }
  }

  /** `LastWithHash` finds the last transaction carrying `h`, and none only when there is none. */
  lemma LastWithHashMeaning(ok: seq<NormalTx>, h: string)
    ensures LastWithHash(ok, h).None? <==> forall t :: t in ok ==> t.hash != h
    ensures LastWithHash(ok, h).Some? ==> exists i :: LastHashAt(ok, h, i) && ok[i] == LastWithHash(ok, h).value
  {
    LastWithHashNone(ok, h);
    LastWithHashSome(ok, h);
  }

  function OkHashes(ok: seq<NormalTx>): (r: set<string>)
    ensures forall h :: h in r <==> h != "" && exists t :: t in ok && t.hash == h
  {
    set t | t in ok && t.hash != "" :: t.hash
  }

  /** The hashes of the successful transactions that look like swaps. */
  function SwapLookingHashes(ok: seq<NormalTx>): (r: set<string>)
    ensures forall h :: h in r <==> h != "" && exists t :: t in ok && t.hash == h && LooksLikeSwap(t)
  {
    set t | t in ok && t.hash != "" && LooksLikeSwap(t) :: t.hash
  }

  /** The hashes under which the wallet both sent and received tokens. */
  function TwoLegHashes(byHash: map<string, Agg>): set<string> {
    set h | h in byHash && byHash[h].hasIn && byHash[h].hasOut
  }

  /** One step of the `okByHash` loop: the last write wins. */
  lemma LastWithHashSnoc(ok: seq<NormalTx>, t: NormalTx, h: string)
    ensures LastWithHash(ok + [t], h) == if t.hash == h then Some(t) else LastWithHash(ok, h)
  {
    assert (ok + [t])[..|ok|] == ok;
  }

  /** One step of the `swapHashes` loop. */
  lemma SwapLookingSnoc(ok: seq<NormalTx>, t: NormalTx)
    ensures SwapLookingHashes(ok + [t]) ==
      SwapLookingHashes(ok) + (if t.hash != "" && LooksLikeSwap(t) then {t.hash} else {})
  {
    assert forall u :: u in ok + [t] <==> u in ok || u == t;
  }

  lemma OkHashesSnoc(ok: seq<NormalTx>, t: NormalTx)
    ensures OkHashes(ok + [t]) == OkHashes(ok) + (if t.hash != "" then {t.hash} else {})
  {
    assert forall u :: u in ok + [t] <==> u in ok || u == t;
  }

  /** `okByHash` after the transactions of `seen`: one entry per hash, the last write winning. */
  predicate LastByHash(seen: seq<NormalTx>, okByHash: map<string, NormalTx>) {
    okByHash.Keys == OkHashes(seen)
    && forall h :: h in okByHash ==> Some(okByHash[h]) == LastWithHash(seen, h)
  }

  /** `if (t.hash) okByHash[t.hash] = t` */
  method RecordLast(ghost seen: seq<NormalTx>, t: NormalTx, okByHash0: map<string, NormalTx>)
    returns (okByHash: map<string, NormalTx>)
    requires LastByHash(seen, okByHash0)
    ensures LastByHash(seen + [t], okByHash)
  {
    OkHashesSnoc(seen, t);
    okByHash := okByHash0;
    if t.hash != "" {
      okByHash := okByHash[t.hash := t];
    }
    forall g | g in okByHash ensures Some(okByHash[g]) == LastWithHash(seen + [t], g) {
      LastWithHashSnoc(seen, t, g);
    }
  }

  /** `swapLike` and `okByHash` after visiting `seen`. */
  predicate Indexed(seen: seq<NormalTx>, swapLike: set<string>, okByHash: map<string, NormalTx>) {
    swapLike == SwapLookingHashes(seen) && LastByHash(seen, okByHash)
  }

  /** One turn of the loop over `ok`. */
  method IndexOkTx(ghost seen: seq<NormalTx>, t: NormalTx, swapLike0: set<string>, okByHash0: map<string, NormalTx>)
    returns (swapLike: set<string>, okByHash: map<string, NormalTx>)
    requires Indexed(seen, swapLike0, okByHash0)
    ensures Indexed(seen + [t], swapLike, okByHash)
  {
    SwapLookingSnoc(seen, t);
    okByHash := RecordLast(seen, t, okByHash0);
    swapLike := swapLike0;
    if LooksLikeSwap(t) && t.hash != "" {
      swapLike := swapLike + {t.hash};
    }
  }

  /** The loop over `ok` filling `okByHash` and the first part of `swapHashes`. */
  method IndexOkTxs(ok: seq<NormalTx>) returns (swapLike: set<string>, okByHash: map<string, NormalTx>)
    ensures swapLike == SwapLookingHashes(ok)
    ensures okByHash.Keys == OkHashes(ok)
    ensures forall h :: h in okByHash ==> Some(okByHash[h]) == LastWithHash(ok, h)
  {
    swapLike := {};
    okByHash := map[];
    for i := 0 to |ok|
      invariant Indexed(ok[..i], swapLike, okByHash)
    {
      PrefixSnoc(ok, i);
      swapLike, okByHash := IndexOkTx(ok[..i], ok[i], swapLike, okByHash);
    }
    assert ok[..|ok|] == ok;
  }

  /** `for (const [h, agg] of Object.entries(byHash)) if (agg.hasIn && agg.hasOut) swapHashes.add(h)` */
  method AddTwoLegHashes(swapLike: set<string>, byHash: map<string, Agg>) returns (swapHashes: set<string>)
    ensures swapHashes == swapLike + TwoLegHashes(byHash)
  {
    swapHashes := swapLike;
    var rest := byHash.Keys;
    while rest != {}
      invariant rest <= byHash.Keys
      invariant swapHashes == swapLike + (set h | h in byHash.Keys - rest && byHash[h].hasIn && byHash[h].hasOut)
      decreases |rest|
    {
      var h :| h in rest;
      if byHash[h].hasIn && byHash[h].hasOut {
        swapHashes := swapHashes + {h};
      }
      rest := rest - {h};
    }
  }

  /** `swapHashes`: the union of the two heuristics. */
  method SwapHashes(ok: seq<NormalTx>, byHash: map<string, Agg>)
    returns (swapHashes: set<string>, okByHash: map<string, NormalTx>)
    ensures swapHashes == SwapLookingHashes(ok) + TwoLegHashes(byHash)
    ensures okByHash.Keys == OkHashes(ok)
    ensures forall h :: h in okByHash ==> Some(okByHash[h]) == LastWithHash(ok, h)
  {
    var swapLike;
    swapLike, okByHash := IndexOkTxs(ok);
    swapHashes := AddTwoLegHashes(swapLike, byHash);
  }

  /** The swap set, spelled out in terms of the records themselves. */
  lemma SwapSetMeaning(ok: seq<NormalTx>, erc20: seq<TokenTransfer>, address: string,
                       byHash: map<string, Agg>, h: string)
    requires byHash.Keys == TransferHashes(erc20)
    requires forall g :: g in byHash ==> byHash[g] == AggFor(erc20, g, address)
    ensures h in SwapLookingHashes(ok) + TwoLegHashes(byHash) <==>
      h != "" && ((exists t :: t in ok && t.hash == h && LooksLikeSwap(t))
        || ((exists tr :: Leg(erc20, h, tr) && Lower(tr.to) == Lower(address))
            && (exists tr :: Leg(erc20, h, tr) && Lower(tr.from) == Lower(address))))
  {
    AggForMeaning(erc20, h, address);
    if h != "" && (exists tr :: Leg(erc20, h, tr) && Lower(tr.to) == Lower(address)) {
      var tr :| Leg(erc20, h, tr) && Lower(tr.to) == Lower(address);
      assert h in byHash;
    }
  }

  // ------------------------------------------------------------ stablecoins

  /** `stablecoinTxs`: the stablecoin transfers. */
  function StablecoinTxs(erc20: seq<TokenTransfer>): nat {
    CountIf(erc20, IsStable)
  }

  /** A USDC leg of a swap. */
  function IsUsdcSwapLeg(swapHashes: set<string>): TokenTransfer -> bool {
    (tr: TokenTransfer) => Symbol(tr) == "USDC" && TransferHash(tr) in swapHashes
  }

  /** A stablecoin leg of a swap. */
  function IsStableSwapLeg(swapHashes: set<string>): TokenTransfer -> bool {
    (tr: TokenTransfer) => IsStable(tr) && TransferHash(tr) in swapHashes
  }

  /** `usdcTrades` */
  function UsdcTrades(erc20: seq<TokenTransfer>, swapHashes: set<string>): nat {
    CountIf(erc20, IsUsdcSwapLeg(swapHashes))
  }

  /** `stablecoinTypes`: the distinct stablecoin symbols traded in swaps. */
  function StablecoinTypes(erc20: seq<TokenTransfer>, swapHashes: set<string>): nat {
    |Image(Filter(Filter(erc20, IsStable), IsStableSwapLeg(swapHashes)), Symbol)|
  }

  /** Every USDC swap leg is a stablecoin transfer. */
  lemma UsdcTradesAtMostStable(erc20: seq<TokenTransfer>, swapHashes: set<string>)
    ensures UsdcTrades(erc20, swapHashes) <= StablecoinTxs(erc20)
  {
    CountIfMono(erc20, IsUsdcSwapLeg(swapHashes), IsStable);
  }

  /** There are seven stable symbols, so at most seven stablecoin types. */
  lemma StablecoinTypesAtMostSeven(erc20: seq<TokenTransfer>, swapHashes: set<string>)
    ensures StablecoinTypes(erc20, swapHashes) <= 7
  {
    var legs := Filter(Filter(erc20, IsStable), IsStableSwapLeg(swapHashes));
    assert Image(legs, Symbol) <= StableSymbols;
    SubsetSize(Image(legs, Symbol), StableSymbols);
    StableSymbolCount();
  }

  // ------------------------------------------------------------ maxSwapUsd

  /** The ETH value of swap `h` in USD: `okByHash[h]`'s value at `ethPrice`, 0 when there is none. */
  function EthUsd(okByHash: map<string, NormalTx>, h: string, ethPrice: real): real {
    if h in okByHash then WeiToEth(okByHash[h].value) * ethPrice else 0.0
  }

  function StableOf(byHash: map<string, Agg>, h: string): real {
    if h in byHash then byHash[h].stableUsd else 0.0
  }

  function AnyOf(byHash: map<string, Agg>, h: string): real {
    if h in byHash then byHash[h].anyUsd else 0.0
  }

  /** Each swap's three estimates are bounded by `m`. */
  predicate Bounds(m: real, hs: set<string>, okByHash: map<string, NormalTx>, byHash: map<string, Agg>, ethPrice: real) {
    forall h :: h in hs ==>
      m >= EthUsd(okByHash, h, ethPrice) && m >= StableOf(byHash, h) && m >= AnyOf(byHash, h)
  }

  /** `m` is one of the three estimates of swap `h`. */
  predicate Estimate(m: real, h: string, okByHash: map<string, NormalTx>, byHash: map<string, Agg>, ethPrice: real) {
    m == EthUsd(okByHash, h, ethPrice) || m == StableOf(byHash, h) || m == AnyOf(byHash, h)
  }

  /** `m` is 0 or one of the estimates of a swap in `hs`. */
  predicate Attained(m: real, hs: set<string>, okByHash: map<string, NormalTx>, byHash: map<string, Agg>, ethPrice: real) {
    m == 0.0 || exists h :: h in hs && Estimate(m, h, okByHash, byHash, ethPrice)
  }

  /** `maxSwapUsd`: the largest estimate over all swaps, starting from 0. */
  method MaxSwapUsd(swapHashes: set<string>, okByHash: map<string, NormalTx>, byHash: map<string, Agg>, ethPrice: real)
    returns (m: real)
    ensures m >= 0.0
    ensures Bounds(m, swapHashes, okByHash, byHash, ethPrice)
    ensures Attained(m, swapHashes, okByHash, byHash, ethPrice)
  {
    m := 0.0;
    var rest := swapHashes;
    while rest != {}
      invariant rest <= swapHashes
      invariant m >= 0.0
      invariant Bounds(m, swapHashes - rest, okByHash, byHash, ethPrice)
      invariant Attained(m, swapHashes - rest, okByHash, byHash, ethPrice)
      decreases |rest|
    {
      var h :| h in rest;
      var ethUsd := EthUsd(okByHash, h, ethPrice);
      var stableUsd := StableOf(byHash, h);
      var anyUsd := AnyOf(byHash, h);
      var next := Max(Max(Max(m, ethUsd), stableUsd), anyUsd);
      assert Attained(next, swapHashes - (rest - {h}), okByHash, byHash, ethPrice) by {
        if next != m {
          assert next == ethUsd || next == stableUsd || next == anyUsd;
          assert h in swapHashes - (rest - {h});
        } else if m != 0.0 {
          var g :| g in swapHashes - rest && Estimate(m, g, okByHash, byHash, ethPrice);
          assert g in swapHashes - (rest - {h});
        }
      }
      m := next;
      rest := rest - {h};
    }
  }

  // ------------------------------------------------------------ together

  /** `byHash` as a function of the transfers. */
  function ByHash(erc20: seq<TokenTransfer>, address: string): (m: map<string, Agg>)
    ensures m.Keys == TransferHashes(erc20)
  {
    map h | h in TransferHashes(erc20) :: AggFor(erc20, h, address)
  }

  /** Every hash of a successful transaction has a last transaction carrying it. */
  lemma LastWithHashPresent(ok: seq<NormalTx>)
    ensures forall h :: h in OkHashes(ok) ==> LastWithHash(ok, h).Some?
  {
    forall h | h in OkHashes(ok) ensures LastWithHash(ok, h).Some? {
      LastWithHashNone(ok, h);
    }
  }

  /** `okByHash` as a function of the records: each hash's last successful transaction. */
  function OkByHash(ok: seq<NormalTx>): (m: map<string, NormalTx>)
    ensures m.Keys == OkHashes(ok)
    ensures forall h :: h in m ==> Some(m[h]) == LastWithHash(ok, h)
  {
    LastWithHashPresent(ok);
    map h | h in OkHashes(ok) :: LastWithHash(ok, h).value
  }

  /** `swapHashes` as a function of the records. */
  function SwapSet(ok: seq<NormalTx>, erc20: seq<TokenTransfer>, address: string): set<string> {
    SwapLookingHashes(ok) + TwoLegHashes(ByHash(erc20, address))
  }

  /** The swap figures of the report. */
  datatype SwapFigures = SwapFigures(swaps: nat, stablecoinTxs: nat, usdcTrades: nat, stablecoinTypes: nat, maxSwapUsd: real)

  /**
   * The swap figures of the records: the swap count, the stablecoin counts,
   * and `maxSwapUsd` as the largest estimate of any swap, or 0.
   */
  ghost predicate SwapFiguresOf(f: SwapFigures, ok: seq<NormalTx>, erc20: seq<TokenTransfer>, address: string, ethPrice: real) {
    var swaps := SwapSet(ok, erc20, address);
    && f.swaps == |swaps|
    && f.stablecoinTxs == StablecoinTxs(erc20)
    && f.usdcTrades == UsdcTrades(erc20, swaps)
    && f.stablecoinTypes == StablecoinTypes(erc20, swaps)
    && f.maxSwapUsd >= 0.0
    && Bounds(f.maxSwapUsd, swaps, OkByHash(ok), ByHash(erc20, address), ethPrice)
    && Attained(f.maxSwapUsd, swaps, OkByHash(ok), ByHash(erc20, address), ethPrice)
  }

  /** The swap-detection block of the summary route, from `byHash` to `maxSwapUsd`. */
  method DetectSwaps(ok: seq<NormalTx>, erc20: seq<TokenTransfer>, address: string, ethPrice: real)
    returns (f: SwapFigures)
    ensures SwapFiguresOf(f, ok, erc20, address, ethPrice)
    ensures f.usdcTrades <= f.stablecoinTxs && f.stablecoinTypes <= 7
  {
    var byHash := AggregateTransfers(erc20, address);
    assert byHash == ByHash(erc20, address);
    var swapHashes, okByHash := SwapHashes(ok, byHash);
    assert okByHash == OkByHash(ok);
    var maxSwapUsd := MaxSwapUsd(swapHashes, okByHash, byHash, ethPrice);
    UsdcTradesAtMostStable(erc20, swapHashes);
    StablecoinTypesAtMostSeven(erc20, swapHashes);
    f := SwapFigures(|swapHashes|, StablecoinTxs(erc20), UsdcTrades(erc20, swapHashes),
                     StablecoinTypes(erc20, swapHashes), maxSwapUsd);
  }
}
