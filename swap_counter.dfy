/**
 * The stand-alone swap counter script: a transaction sent to a known router
 * or aggregator, successful, inside the time window and carrying at least one
 * in-window ERC-20 transfer counts as one swap, attributed to the router's
 * protocol; it is a stable swap when one of its transfers moves a known
 * stablecoin.  The explorer replies are inputs; printing is left out.
 */
module SwapCounter {
  import opened Wrappers
  import opened Text
  import opened Collections
  import opened Protocols

  // ------------------------------------------------------------ configuration

  /** `ROUTERS`, in declaration order; the 0x exchange proxy is listed for both MetaMask and Matcha. */
  const Routers: seq<(ProtoKey, seq<string>)> := [
    (Uniswap, ["0x6ff5693b99212da76ad316178a184ab56d299b43", "0x2626664c2603336e57b271c5c0b26f421741e481"]),
    (Sushi, ["0x6bded42c6da8fbf0d2ba55b2fa120c5e0c8d7891"]),
    (Pancake, ["0x678aa4bf4e210cf2166753e054d5b7c31cc7fa86", "0xfe6508f0015c778bdcc1fb5465ba5ebe224c9912"]),
    (Aerodrome, ["0xbe6d8f0d05cc4be24d5167a3ef062215be6d18a5", "0x6cb442acf35158d5eda88fe602221b67b400be3e",
                 "0xcf77a3ba9a5ca399b7c97c74d54e5b1beb874e43"]),
    (Aave, ["0xa238dd80c259a72e81d7e4664a9801593f98d1c5"]),
    (Stargate, ["0x45f1a95a4d3f3836523f5c83673c797f4d4d263b", "0x50b6ebc2103bfec165949cc946d739d5650d7ae4",
                "0xaf54be5b6eec24d6bfacf1cce4eaf680a8239398"]),
    (Metamask, ["0xdef1c0ded9bec7f1a1670819833240f027b25eff"]),
    (Matcha, ["0xdef1c0ded9bec7f1a1670819833240f027b25eff"]),
    (Limitless, [])]

  const ZeroExProxy: string := "0xdef1c0ded9bec7f1a1670819833240f027b25eff"

  /** `ALL_ROUTER_SET`: every router address, lower-cased. */
  function RouterSet(rs: seq<(ProtoKey, seq<string>)>): set<string>
    decreases |rs|
  {
    if |rs| == 0 then {} else RouterSet(rs[..|rs| - 1]) + Image(rs[|rs| - 1].1, Lower)
  }

  /** `router_to_proto`: later entries overwrite earlier ones. */
  function RouterIndex(rs: seq<(ProtoKey, seq<string>)>): (idx: map<string, ProtoKey>)
    ensures idx.Keys == RouterSet(rs)
    decreases |rs|
  {
    if |rs| == 0 then map[]
    else
      var last := rs[|rs| - 1];
      RouterIndex(rs[..|rs| - 1]) + AddressesTo(last.1, last.0)
  }

  /** Every address of one protocol's list, lower-cased, mapped to that protocol. */
  function AddressesTo(addrs: seq<string>, p: ProtoKey): (m: map<string, ProtoKey>)
    ensures m.Keys == Image(addrs, Lower)
    ensures forall a :: a in m ==> m[a] == p
    decreases |addrs|
  {
    if |addrs| == 0 then map[]
    else
      ImageSnoc(addrs[..|addrs| - 1], addrs[|addrs| - 1], Lower);
      assert addrs == addrs[..|addrs| - 1] + [addrs[|addrs| - 1]];
      AddressesTo(addrs[..|addrs| - 1], p)[Lower(addrs[|addrs| - 1]) := p]
  }

  /** The nested loop that fills `router_to_proto`. */
  method BuildRouterIndex(rs: seq<(ProtoKey, seq<string>)>) returns (idx: map<string, ProtoKey>)
    ensures idx == RouterIndex(rs)
  {
    idx := map[];
    for i := 0 to |rs|
      invariant idx == RouterIndex(rs[..i])
    {
      var (proto, addrs) := rs[i];
      idx := MapAddresses(idx, addrs, proto);
      assert rs[..i + 1][..i] == rs[..i];
    }
    assert rs[..|rs|] == rs;
  }

  /** Its inner loop, over one protocol's addresses. */
  method MapAddresses(idx0: map<string, ProtoKey>, addrs: seq<string>, proto: ProtoKey)
    returns (idx: map<string, ProtoKey>)
    ensures idx == idx0 + AddressesTo(addrs, proto)
  {
    idx := idx0;
    for k := 0 to |addrs|
      invariant idx == idx0 + AddressesTo(addrs[..k], proto)
    {
      AddressesToSnoc(addrs, k, proto);
      MergeUpdate(idx0, AddressesTo(addrs[..k], proto), Lower(addrs[k]), proto);
      idx := idx[Lower(addrs[k]) := proto];
    }
    assert addrs[..|addrs|] == addrs;
  }

  lemma AddressesToSnoc(addrs: seq<string>, k: nat, p: ProtoKey)
    requires k < |addrs|
    ensures AddressesTo(addrs[..k + 1], p) == AddressesTo(addrs[..k], p)[Lower(addrs[k]) := p]
  {
    var s := addrs[..k + 1];
    assert |s| == k + 1 && s[..k] == addrs[..k] && s[k] == addrs[k];
  }

  lemma MergeUpdate<K, V>(a: map<K, V>, b: map<K, V>, k: K, v: V)
    ensures a + b[k := v] == (a + b)[k := v]
  {
  }

  /** The shared 0x proxy ends up attributed to Matcha, the later of its two entries. */
  lemma ZeroExGoesToMatcha()
    ensures ZeroExProxy in RouterIndex(Routers) && RouterIndex(Routers)[ZeroExProxy] == Matcha
  {
    LowerOfLowerCase(ZeroExProxy);
    assert Routers[..8][..7] == Routers[..7];
    assert ZeroExProxy in Image(Routers[7].1, Lower);
    assert RouterIndex(Routers) == RouterIndex(Routers[..8]) + AddressesTo([], Limitless);
    assert RouterIndex(Routers[..8]) == RouterIndex(Routers[..7]) + AddressesTo(Routers[7].1, Matcha);
  }

  /** `STABLES`: native USDC and bridged USDbC. */
  const Stables: set<string> := {"0x833589fcd6edb6e08f4c7c32d4f71b54bda02913", "0xd9aaec86b65d86f6a7b5b1b0c42ffa7505e8fe86"}

  // ------------------------------------------------------------ explorer replies

  /** One explorer reply: whether the HTTP status was good, then `status`, `message` and `result`. */
  datatype ScanReply<T> = ScanReply(httpOk: bool, status: Option<string>, message: Option<string>, result: Option<seq<T>>)

  /** `basescan_get`: an HTTP error or `status "0"` raises, unless the message is "No transactions found". */
  function BasescanGet<T>(r: ScanReply<T>): (out: Result<seq<T>, string>)
    ensures out.Failure? <==>
      !r.httpOk || (r.status == Some("0") && r.message != Some("No transactions found"))
    ensures out.Success? ==> out.value == r.result.GetOr([])
  {
    if !r.httpOk then Failure("http error")
    else if r.status == Some("0") && r.message != Some("No transactions found") then Failure("BaseScan error")
    else Success(r.result.GetOr([]))
  }

  // ------------------------------------------------------------ records

  /** A normal transaction: `to` is "" when missing, `isError` is `None` when missing. */
  datatype ScanTx = ScanTx(hash: string, to: string, timeStamp: int, isError: Option<string>)

  /** An ERC-20 transfer. */
  datatype ScanTransfer = ScanTransfer(hash: string, timeStamp: int, contractAddress: string)

  /** `tx_to_router[hash]`: the router, and whether the transaction succeeded. */
  datatype RouterTx = RouterTx(to: string, time: int, success: bool)

  /** The optional bounds of the time window. */
  datatype Window = Window(start: Option<int>, end: Option<int>)

  /** `within_window`: a bound that is missing or 0 does not apply. */
  predicate WithinWindow(ts: int, w: Window) {
    && !(w.start.Some? && w.start.value != 0 && ts < w.start.value)
    && !(w.end.Some? && w.end.value != 0 && ts > w.end.value)
  }

  lemma WithinWindowMeaning(ts: int, w: Window)
    ensures WithinWindow(ts, w) <==>
      (w.start.None? || w.start.value == 0 || w.start.value <= ts) && (w.end.None? || w.end.value == 0 || ts <= w.end.value)
  {
  }

  /** A transaction the first loop records: sent to a router of `routers`, inside the window. */
  predicate ToRouter(tx: ScanTx, routers: set<string>, w: Window) {
    var to := Lower(tx.to);
    to != "" && to in routers && WithinWindow(tx.timeStamp, w)
  }

  function RouterTxOf(tx: ScanTx): RouterTx {
    RouterTx(Lower(tx.to), tx.timeStamp, tx.isError == Some("0"))
  }

  /** `tx_to_router` after the first loop: a later transaction with the same hash overwrites. */
  function RouterTxs(normal: seq<ScanTx>, routers: set<string>, w: Window): (m: map<string, RouterTx>)
    ensures forall h :: h in m <==> exists tx :: tx in normal && ToRouter(tx, routers, w) && tx.hash == h
    ensures forall h :: h in m ==> m[h].to in routers
    decreases |normal|
  {
    if |normal| == 0 then map[]
    else
      var init, tx := normal[..|normal| - 1], normal[|normal| - 1];
      assert forall x :: x in normal <==> x in init || x == tx;
      var m := RouterTxs(init, routers, w);
      if ToRouter(tx, routers, w) then m[tx.hash := RouterTxOf(tx)] else m
  }

  /** `normal[i]` is the last transaction to a router, in the window, with hash `h`. */
  ghost predicate LastRouterTx(normal: seq<ScanTx>, routers: set<string>, w: Window, h: string, i: int) {
    && 0 <= i < |normal| && normal[i].hash == h && ToRouter(normal[i], routers, w)
    && forall j :: i < j < |normal| ==> !(normal[j].hash == h && ToRouter(normal[j], routers, w))
  }

  /** A later transaction that does not qualify leaves the last qualifying one in place. */
  lemma LastRouterTxExtends(normal: seq<ScanTx>, routers: set<string>, w: Window, h: string, i: int)
    requires |normal| > 0 && LastRouterTx(normal[..|normal| - 1], routers, w, h, i)
    requires !(normal[|normal| - 1].hash == h && ToRouter(normal[|normal| - 1], routers, w))
    ensures LastRouterTx(normal, routers, w, h, i)
  {
    var init := normal[..|normal| - 1];
    assert normal[i] == init[i];
    forall j | i < j < |normal| ensures !(normal[j].hash == h && ToRouter(normal[j], routers, w)) {
      if j < |init| {
        assert normal[j] == init[j];
      }
    }
  }

  /** Each recorded hash holds the last qualifying transaction with that hash. */
  lemma {:induction false} RouterTxsLastWins(normal: seq<ScanTx>, routers: set<string>, w: Window, h: string)
    requires h in RouterTxs(normal, routers, w)
    ensures exists i :: (LastRouterTx(normal, routers, w, h, i)
                         && RouterTxs(normal, routers, w)[h] == RouterTxOf(normal[i]))
    decreases |normal|
  {
    var init, tx := normal[..|normal| - 1], normal[|normal| - 1];
    var m := RouterTxs(init, routers, w);
    assert RouterTxs(normal, routers, w) == if ToRouter(tx, routers, w) then m[tx.hash := RouterTxOf(tx)] else m;
    if ToRouter(tx, routers, w) && tx.hash == h {
      assert LastRouterTx(normal, routers, w, h, |normal| - 1);
    } else {
      assert h in m && RouterTxs(normal, routers, w)[h] == m[h];
      RouterTxsLastWins(init, routers, w, h);
      var i :| LastRouterTx(init, routers, w, h, i) && RouterTxs(init, routers, w)[h] == RouterTxOf(init[i]);
      LastRouterTxExtends(normal, routers, w, h, i);
      assert normal[i] == init[i];
    }
  }

  /** A duplicate-free listing of the keys of a map, in insertion order. */
  ghost predicate ListsKeys<V>(order: seq<string>, m: map<string, V>) {
    NoDuplicates(order) && (forall h :: h in order <==> h in m)
  }

  /** The first loop; `order` is the insertion order a `dict` iterates in. */
  method IndexRouterTxs(normal: seq<ScanTx>, routers: set<string>, w: Window)
    returns (toRouter: map<string, RouterTx>, order: seq<string>)
    ensures toRouter == RouterTxs(normal, routers, w)
    ensures ListsKeys(order, toRouter)
  {
    toRouter, order := map[], [];
    for j := 0 to |normal|
      invariant toRouter == RouterTxs(normal[..j], routers, w)
      invariant ListsKeys(order, toRouter)
    {
      PrefixSnoc(normal, j);
      assert normal[..j + 1][..j] == normal[..j];
      var tx := normal[j];
      var to := Lower(tx.to);
      if to == "" {
        continue;
      }
      if to in routers && WithinWindow(tx.timeStamp, w) {
        if tx.hash !in toRouter {
          order := order + [tx.hash];
        }
        toRouter := toRouter[tx.hash := RouterTxOf(tx)];
      }
    }
    assert normal[..|normal|] == normal;
  }

  /** `transfers_by_tx[h]`: the in-window transfers of `h`, in order. */
  function TransfersOf(erc20: seq<ScanTransfer>, w: Window, h: string): seq<ScanTransfer> {
    Filter(erc20, (t: ScanTransfer) => t.hash == h && WithinWindow(t.timeStamp, w))
  }

  /** The second loop: `setdefault(h, []).append(t)` for every in-window transfer. */
  method GroupTransfers(erc20: seq<ScanTransfer>, w: Window) returns (byTx: map<string, seq<ScanTransfer>>)
    ensures forall h :: h in byTx <==> |TransfersOf(erc20, w, h)| > 0
    ensures forall h :: h in byTx ==> byTx[h] == TransfersOf(erc20, w, h)
  {
    byTx := map[];
    for j := 0 to |erc20|
      invariant forall h :: h in byTx <==> |TransfersOf(erc20[..j], w, h)| > 0
      invariant forall h :: h in byTx ==> byTx[h] == TransfersOf(erc20[..j], w, h)
    {
      PrefixSnoc(erc20, j);
      var t := erc20[j];
      forall h ensures TransfersOf(erc20[..j + 1], w, h)
          == TransfersOf(erc20[..j], w, h) + (if t.hash == h && WithinWindow(t.timeStamp, w) then [t] else []) {
        FilterSnoc(erc20[..j], t, (x: ScanTransfer) => x.hash == h && WithinWindow(x.timeStamp, w));
      }
      if !WithinWindow(t.timeStamp, w) {
        continue;
      }
      var prior := if t.hash in byTx then byTx[t.hash] else [];
      byTx := byTx[t.hash := prior + [t]];
    }
    assert erc20[..|erc20|] == erc20;
  }

  // ------------------------------------------------------------ counting

  /** The four counters of the last loop. */
  datatype Tallies = Tallies(swaps: nat, stables: nat, perProto: map<ProtoKey, nat>, perStable: map<ProtoKey, nat>)

  /** The counters before the last loop: 0 for every protocol of `ROUTERS`. */
  function ZeroTallies(): (t: Tallies)
    ensures t.perProto.Keys == Elements(AddrKeys) && t.perStable.Keys == Elements(AddrKeys)
    ensures forall p :: p in t.perProto ==> t.perProto[p] == 0 && t.perStable[p] == 0
  {
    var zero := map p | p in AddrKeys :: 0;
    Tallies(0, 0, zero, zero)
  }

  /** Some transfer moves a known stablecoin. */
  predicate TouchesStable(transfers: seq<ScanTransfer>) {
    exists t :: t in transfers && Lower(t.contractAddress) in Stables
  }

  /** `counts[p] += 1` when `p` is one of the counted protocols. */
  function Bump(counts: map<ProtoKey, nat>, p: Option<ProtoKey>): (r: map<ProtoKey, nat>)
    ensures r.Keys == counts.Keys
  {
    if p.Some? && p.value in counts then counts[p.value := counts[p.value] + 1] else counts
  }

  /** One round of the last loop, for a recorded transaction and its transfers. */
  function CountStep(idx: map<string, ProtoKey>, t: Tallies, meta: RouterTx, transfers: seq<ScanTransfer>): Tallies {
    if !meta.success || |transfers| == 0 then t
    else
      var proto := if meta.to in idx then Some(idx[meta.to]) else None;
      var t1 := t.(swaps := t.swaps + 1, perProto := Bump(t.perProto, proto));
      if TouchesStable(transfers) then t1.(stables := t1.stables + 1, perStable := Bump(t1.perStable, proto))
      else t1
  }

  /** `transfers_by_tx.get(h, [])` */
  function TransfersFor(byTx: map<string, seq<ScanTransfer>>, h: string): seq<ScanTransfer> {
    if h in byTx then byTx[h] else []
  }

  /** The counters after the last loop has visited the hashes of `hs`. */
  function TalliesOf(idx: map<string, ProtoKey>, toRouter: map<string, RouterTx>,
                     byTx: map<string, seq<ScanTransfer>>, hs: seq<string>): Tallies
    requires forall h :: h in hs ==> h in toRouter
    decreases |hs|
  {
    if |hs| == 0 then ZeroTallies()
    else
      var h := hs[|hs| - 1];
      CountStep(idx, TalliesOf(idx, toRouter, byTx, hs[..|hs| - 1]), toRouter[h], TransfersFor(byTx, h))
  }

  /** The hash counts as a swap: it succeeded and has an in-window transfer. */
  predicate IsSwap(toRouter: map<string, RouterTx>, byTx: map<string, seq<ScanTransfer>>, h: string) {
    h in toRouter && toRouter[h].success && |TransfersFor(byTx, h)| > 0
  }

  /** The hash counts as a stable swap. */
  predicate IsStableSwap(toRouter: map<string, RouterTx>, byTx: map<string, seq<ScanTransfer>>, h: string) {
    IsSwap(toRouter, byTx, h) && TouchesStable(TransfersFor(byTx, h))
  }

  /** `IsSwap` and `IsStableSwap` as the tests the totals count with. */
  function SwapTest(toRouter: map<string, RouterTx>, byTx: map<string, seq<ScanTransfer>>): string -> bool {
    h => IsSwap(toRouter, byTx, h)
  }

  function StableTest(toRouter: map<string, RouterTx>, byTx: map<string, seq<ScanTransfer>>): string -> bool {
    h => IsStableSwap(toRouter, byTx, h)
  }

  /** The counters summed over the protocols of `ps`. */
  function SumCounts(ps: seq<ProtoKey>, counts: map<ProtoKey, nat>): nat
    decreases |ps|
  {
    if |ps| == 0 then 0 else (if ps[0] in counts then counts[ps[0]] else 0) + SumCounts(ps[1..], counts)
  }

  /** Adding one to a listed protocol adds one to the sum. */
  lemma {:induction false} SumBump(ps: seq<ProtoKey>, counts: map<ProtoKey, nat>, p: ProtoKey)
    requires NoDuplicates(ps) && p in counts
    ensures SumCounts(ps, counts[p := counts[p] + 1]) == SumCounts(ps, counts) + (if p in ps then 1 else 0)
    decreases |ps|
  {
    if |ps| > 0 {
      assert NoDuplicates(ps[1..]) by {
        forall i, j | 0 <= i < j < |ps[1..]| ensures ps[1..][i] != ps[1..][j] {
          assert ps[1..][i] == ps[i + 1] && ps[1..][j] == ps[j + 1];
        }
      }
      SumBump(ps[1..], counts, p);
      if ps[0] == p {
        assert p !in ps[1..] by {
          forall k | 0 <= k < |ps[1..]| ensures ps[1..][k] != p {
            assert ps[1..][k] == ps[k + 1];
          }
        }
      }
      assert forall x :: x in ps <==> x == ps[0] || x in ps[1..];
    }
  }

  lemma {:induction false} ZeroSum(ps: seq<ProtoKey>, counts: map<ProtoKey, nat>)
    requires forall p :: p in counts ==> counts[p] == 0
    ensures SumCounts(ps, counts) == 0
    decreases |ps|
  {
    if |ps| > 0 {
      ZeroSum(ps[1..], counts);
    }
  }

  /** The counters agree with each other: over the protocols `ps`, they add up to the totals. */
  predicate CountersAgree(t: Tallies, ps: seq<ProtoKey>) {
    && t.perProto.Keys == Elements(ps) && t.perStable.Keys == Elements(ps)
    && SumCounts(ps, t.perProto) == t.swaps
    && SumCounts(ps, t.perStable) == t.stables
    && (forall p :: p in t.perProto ==> t.perStable[p] <= t.perProto[p])
  }

  /** One round keeps the counters in agreement when the router's protocol is counted. */
  lemma CountStepAgrees(idx: map<string, ProtoKey>, t: Tallies, meta: RouterTx, transfers: seq<ScanTransfer>,
                        ps: seq<ProtoKey>)
    requires CountersAgree(t, ps) && NoDuplicates(ps)
    requires meta.to in idx && idx[meta.to] in ps
    ensures CountersAgree(CountStep(idx, t, meta, transfers), ps)
  {
    if meta.success && |transfers| > 0 {
      var p := idx[meta.to];
      SumBump(ps, t.perProto, p);
      if TouchesStable(transfers) {
        SumBump(ps, t.perStable, p);
      }
    }
  }

  /** What the counters hold after any prefix of the keys. */
  ghost predicate TalliesMean(toRouter: map<string, RouterTx>, byTx: map<string, seq<ScanTransfer>>,
                              hs: seq<string>, t: Tallies) {
    && t.swaps == CountIf(hs, SwapTest(toRouter, byTx))
    && t.stables == CountIf(hs, StableTest(toRouter, byTx))
    && CountersAgree(t, AddrKeys)
  }

  /** One more visited key keeps `TalliesMean`. */
  lemma TalliesStep(idx: map<string, ProtoKey>, toRouter: map<string, RouterTx>,
                    byTx: map<string, seq<ScanTransfer>>, init: seq<string>, h: string, t0: Tallies)
    requires h in toRouter && toRouter[h].to in idx
    requires TalliesMean(toRouter, byTx, init, t0)
    ensures TalliesMean(toRouter, byTx, init + [h], CountStep(idx, t0, toRouter[h], TransfersFor(byTx, h)))
  {
    FilterSnoc(init, h, SwapTest(toRouter, byTx));
    FilterSnoc(init, h, StableTest(toRouter, byTx));
    AddrKeysDistinct();
    var j := KeyIndex(idx[toRouter[h].to]);
    CountStepAgrees(idx, t0, toRouter[h], TransfersFor(byTx, h), AddrKeys);
  }

  /**
   * `swaps` and `stables` count the swaps and stable swaps among the keys
   * visited, and the per-protocol counters add up to them.
   */
  lemma {:induction false} TalliesFacts(idx: map<string, ProtoKey>, toRouter: map<string, RouterTx>,
                                        byTx: map<string, seq<ScanTransfer>>, hs: seq<string>)
    requires forall h :: h in hs ==> h in toRouter && toRouter[h].to in idx
    ensures TalliesMean(toRouter, byTx, hs, TalliesOf(idx, toRouter, byTx, hs))
    decreases |hs|
  {
    if |hs| == 0 {
      var zero := ZeroTallies();
      ZeroSum(AddrKeys, zero.perProto);
      ZeroSum(AddrKeys, zero.perStable);
    } else {
      var init, h := hs[..|hs| - 1], hs[|hs| - 1];
      assert hs == init + [h];
      TalliesFacts(idx, toRouter, byTx, init);
      TalliesStep(idx, toRouter, byTx, init, h, TalliesOf(idx, toRouter, byTx, init));
    }
  }

  /** The test protocol `p`'s counters count with: a swap whose router belongs to `p`. */
  function ProtoTest(idx: map<string, ProtoKey>, toRouter: map<string, RouterTx>,
                     byTx: map<string, seq<ScanTransfer>>, p: ProtoKey): string -> bool {
    h => IsSwap(toRouter, byTx, h) && toRouter[h].to in idx && idx[toRouter[h].to] == p
  }

  function ProtoStableTest(idx: map<string, ProtoKey>, toRouter: map<string, RouterTx>,
                           byTx: map<string, seq<ScanTransfer>>, p: ProtoKey): string -> bool {
    h => IsStableSwap(toRouter, byTx, h) && toRouter[h].to in idx && idx[toRouter[h].to] == p
  }

  /** Each protocol's counters count the swaps and stable swaps routed to it among the keys visited. */
  ghost predicate PerProtoMean(idx: map<string, ProtoKey>, toRouter: map<string, RouterTx>,
                               byTx: map<string, seq<ScanTransfer>>, hs: seq<string>, t: Tallies) {
    && (forall p :: p in t.perProto ==> t.perProto[p] == CountIf(hs, ProtoTest(idx, toRouter, byTx, p)))
    && (forall p :: p in t.perStable ==> t.perStable[p] == CountIf(hs, ProtoStableTest(idx, toRouter, byTx, p)))
  }

  /** One round bumps the router's protocol in `perProto` for a swap, and in `perStable` for a stable one. */
  lemma CountStepCounters(idx: map<string, ProtoKey>, t: Tallies, meta: RouterTx, transfers: seq<ScanTransfer>)
    requires meta.to in idx
    ensures var swap := meta.success && |transfers| > 0;
      && CountStep(idx, t, meta, transfers).perProto
         == (if swap then Bump(t.perProto, Some(idx[meta.to])) else t.perProto)
      && CountStep(idx, t, meta, transfers).perStable
         == (if swap && TouchesStable(transfers) then Bump(t.perStable, Some(idx[meta.to])) else t.perStable)
  {
  }

  /** One more visited key keeps `PerProtoMean`: only the router's own protocol moves. */
  lemma PerProtoStep(idx: map<string, ProtoKey>, toRouter: map<string, RouterTx>,
                     byTx: map<string, seq<ScanTransfer>>, init: seq<string>, h: string, t0: Tallies)
    requires h in toRouter && toRouter[h].to in idx
    requires PerProtoMean(idx, toRouter, byTx, init, t0)
    ensures PerProtoMean(idx, toRouter, byTx, init + [h], CountStep(idx, t0, toRouter[h], TransfersFor(byTx, h)))
  {
    var t := CountStep(idx, t0, toRouter[h], TransfersFor(byTx, h));
    CountStepCounters(idx, t0, toRouter[h], TransfersFor(byTx, h));
    forall p | p in t.perProto
      ensures t.perProto[p] == CountIf(init + [h], ProtoTest(idx, toRouter, byTx, p))
    {
      FilterSnoc(init, h, ProtoTest(idx, toRouter, byTx, p));
    }
    forall p | p in t.perStable
      ensures t.perStable[p] == CountIf(init + [h], ProtoStableTest(idx, toRouter, byTx, p))
    {
      FilterSnoc(init, h, ProtoStableTest(idx, toRouter, byTx, p));
    }
  }

  /** Each protocol's counters after the last loop has visited `hs`. */
  lemma {:induction false} PerProtoFacts(idx: map<string, ProtoKey>, toRouter: map<string, RouterTx>,
                                         byTx: map<string, seq<ScanTransfer>>, hs: seq<string>)
    requires forall h :: h in hs ==> h in toRouter && toRouter[h].to in idx
    ensures PerProtoMean(idx, toRouter, byTx, hs, TalliesOf(idx, toRouter, byTx, hs))
    decreases |hs|
  {
    if |hs| > 0 {
      var init, h := hs[..|hs| - 1], hs[|hs| - 1];
      assert hs == init + [h];
      PerProtoFacts(idx, toRouter, byTx, init);
      PerProtoStep(idx, toRouter, byTx, init, h, TalliesOf(idx, toRouter, byTx, init));
    }
  }

  /** The last loop, over the recorded hashes in insertion order. */
  method CountRecorded(idx: map<string, ProtoKey>, toRouter: map<string, RouterTx>, order: seq<string>,
                       byTx: map<string, seq<ScanTransfer>>) returns (t: Tallies)
    requires ListsKeys(order, toRouter)
    ensures t == TalliesOf(idx, toRouter, byTx, order)
  {
    t := ZeroTallies();
    for j := 0 to |order|
      invariant t == TalliesOf(idx, toRouter, byTx, order[..j])
    {
      PrefixSnoc(order, j);
      assert order[..j + 1][..j] == order[..j];
      var h := order[j];
      var meta := toRouter[h];
      if !meta.success {
        continue;
      }
      var transfers := if h in byTx then byTx[h] else [];
      if |transfers| == 0 {
        continue;
      }
      t := CountStep(idx, t, meta, transfers);
    }
    assert order[..|order|] == order;
  }

  /** Counting the elements of a duplicate-free sequence is counting a set. */
  lemma {:induction false} CountIfDistinct(s: seq<string>, p: string -> bool)
    requires NoDuplicates(s)
    ensures CountIf(s, p) == |set x | x in s && p(x)|
    decreases |s|
  {
    if |s| > 0 {
      var init, last := s[..|s| - 1], s[|s| - 1];
      assert NoDuplicates(init);
      CountIfDistinct(init, p);
      FilterSnoc(init, last, p);
      assert s == init + [last];
      assert last !in init by {
        forall k | 0 <= k < |init| ensures init[k] != last {
          assert init[k] == s[k];
        }
      }
      var a := set x | x in init && p(x);
      var b := set x | x in s && p(x);
      if p(last) {
        assert b == a + {last};
      } else {
        assert b == a;
      }
    }
  }

  /** The hashes of successful router transactions with an in-window transfer. */
  function SwapHashes(normal: seq<ScanTx>, erc20: seq<ScanTransfer>, w: Window): set<string> {
    var m := RouterTxs(normal, RouterSet(Routers), w);
    set h | h in m && m[h].success && |TransfersOf(erc20, w, h)| > 0
  }

  /** Those of them with a stablecoin transfer. */
  function StableHashes(normal: seq<ScanTx>, erc20: seq<ScanTransfer>, w: Window): set<string> {
    set h | h in SwapHashes(normal, erc20, w) && TouchesStable(TransfersOf(erc20, w, h))
  }

  /** The swaps whose router belongs to protocol `p`. */
  function ProtoSwapHashes(normal: seq<ScanTx>, erc20: seq<ScanTransfer>, w: Window, p: ProtoKey): set<string> {
    var m := RouterTxs(normal, RouterSet(Routers), w);
    set h | h in SwapHashes(normal, erc20, w) && RouterIndex(Routers)[m[h].to] == p
  }

  /** The stable swaps whose router belongs to protocol `p`. */
  function ProtoStableHashes(normal: seq<ScanTx>, erc20: seq<ScanTransfer>, w: Window, p: ProtoKey): set<string> {
    var m := RouterTxs(normal, RouterSet(Routers), w);
    set h | h in StableHashes(normal, erc20, w) && RouterIndex(Routers)[m[h].to] == p
  }

  /** The hashes the last loop counts are those of `SwapHashes` and `StableHashes`. */
  lemma CountedHashes(normal: seq<ScanTx>, erc20: seq<ScanTransfer>, w: Window,
                      toRouter: map<string, RouterTx>, order: seq<string>, byTx: map<string, seq<ScanTransfer>>)
    requires toRouter == RouterTxs(normal, RouterSet(Routers), w) && ListsKeys(order, toRouter)
    requires forall h :: h in byTx <==> |TransfersOf(erc20, w, h)| > 0
    requires forall h :: h in byTx ==> byTx[h] == TransfersOf(erc20, w, h)
    ensures (set h | h in order && SwapTest(toRouter, byTx)(h)) == SwapHashes(normal, erc20, w)
    ensures (set h | h in order && StableTest(toRouter, byTx)(h)) == StableHashes(normal, erc20, w)
  {
    var m := RouterTxs(normal, RouterSet(Routers), w);
    forall h | h in order
      ensures SwapTest(toRouter, byTx)(h) == (h in m && m[h].success && |TransfersOf(erc20, w, h)| > 0)
    {
      assert h in byTx ==> TransfersFor(byTx, h) == TransfersOf(erc20, w, h);
    }
    forall h | h in m ensures h in order {
    }
    var a := set h | h in order && SwapTest(toRouter, byTx)(h);
    assert a == SwapHashes(normal, erc20, w);
    forall h | h in order
      ensures StableTest(toRouter, byTx)(h) == (h in a && TouchesStable(TransfersOf(erc20, w, h)))
    {
      assert h in byTx ==> TransfersFor(byTx, h) == TransfersOf(erc20, w, h);
    }
  }

  /** Restricting the counted swaps to one protocol restricts the swap set the same way. */
  lemma ProtoSwapsRestrict(idx: map<string, ProtoKey>, toRouter: map<string, RouterTx>, order: seq<string>,
                           byTx: map<string, seq<ScanTransfer>>, p: ProtoKey, swaps: set<string>)
    requires forall h :: h in order <==> h in toRouter
    requires forall h :: h in toRouter ==> toRouter[h].to in idx
    requires (set h | h in order && SwapTest(toRouter, byTx)(h)) == swaps
    ensures (set h | h in order && ProtoTest(idx, toRouter, byTx, p)(h))
            == set h | h in swaps && idx[toRouter[h].to] == p
  {
    forall h | h in order
      ensures ProtoTest(idx, toRouter, byTx, p)(h) == (SwapTest(toRouter, byTx)(h) && idx[toRouter[h].to] == p)
    {
    }
  }

  /** The same for the stable swaps. */
  lemma ProtoStablesRestrict(idx: map<string, ProtoKey>, toRouter: map<string, RouterTx>, order: seq<string>,
                             byTx: map<string, seq<ScanTransfer>>, p: ProtoKey, stables: set<string>)
    requires forall h :: h in order <==> h in toRouter
    requires forall h :: h in toRouter ==> toRouter[h].to in idx
    requires (set h | h in order && StableTest(toRouter, byTx)(h)) == stables
    ensures (set h | h in order && ProtoStableTest(idx, toRouter, byTx, p)(h))
            == set h | h in stables && idx[toRouter[h].to] == p
  {
    forall h | h in order
      ensures ProtoStableTest(idx, toRouter, byTx, p)(h) == (StableTest(toRouter, byTx)(h) && idx[toRouter[h].to] == p)
    {
    }
  }

  /** The hashes protocol `p`'s counters count are those of `ProtoSwapHashes` and `ProtoStableHashes`. */
  lemma CountedProtoHashes(normal: seq<ScanTx>, erc20: seq<ScanTransfer>, w: Window,
                           toRouter: map<string, RouterTx>, order: seq<string>, byTx: map<string, seq<ScanTransfer>>,
                           p: ProtoKey)
    requires toRouter == RouterTxs(normal, RouterSet(Routers), w) && ListsKeys(order, toRouter)
    requires forall h :: h in byTx <==> |TransfersOf(erc20, w, h)| > 0
    requires forall h :: h in byTx ==> byTx[h] == TransfersOf(erc20, w, h)
    ensures (set h | h in order && ProtoTest(RouterIndex(Routers), toRouter, byTx, p)(h))
            == ProtoSwapHashes(normal, erc20, w, p)
    ensures (set h | h in order && ProtoStableTest(RouterIndex(Routers), toRouter, byTx, p)(h))
            == ProtoStableHashes(normal, erc20, w, p)
  {
    CountedHashes(normal, erc20, w, toRouter, order, byTx);
    ProtoSwapsRestrict(RouterIndex(Routers), toRouter, order, byTx, p, SwapHashes(normal, erc20, w));
    ProtoStablesRestrict(RouterIndex(Routers), toRouter, order, byTx, p, StableHashes(normal, erc20, w));
  }

  /** After the last loop each protocol's counters hold the size of its swap sets. */
  lemma CountedPerProto(normal: seq<ScanTx>, erc20: seq<ScanTransfer>, w: Window, idx: map<string, ProtoKey>,
                        toRouter: map<string, RouterTx>, order: seq<string>, byTx: map<string, seq<ScanTransfer>>)
    requires idx == RouterIndex(Routers)
    requires toRouter == RouterTxs(normal, RouterSet(Routers), w) && ListsKeys(order, toRouter)
    requires forall h :: h in byTx <==> |TransfersOf(erc20, w, h)| > 0
    requires forall h :: h in byTx ==> byTx[h] == TransfersOf(erc20, w, h)
    ensures var t := TalliesOf(idx, toRouter, byTx, order);
      && (forall p :: p in t.perProto ==> t.perProto[p] == |ProtoSwapHashes(normal, erc20, w, p)|)
      && (forall p :: p in t.perStable ==> t.perStable[p] == |ProtoStableHashes(normal, erc20, w, p)|)
  {
    var t := TalliesOf(idx, toRouter, byTx, order);
    PerProtoFacts(idx, toRouter, byTx, order);
    forall p | p in t.perProto ensures t.perProto[p] == |ProtoSwapHashes(normal, erc20, w, p)| {
      CountIfDistinct(order, ProtoTest(idx, toRouter, byTx, p));
      CountedProtoHashes(normal, erc20, w, toRouter, order, byTx, p);
    }
    forall p | p in t.perStable ensures t.perStable[p] == |ProtoStableHashes(normal, erc20, w, p)| {
      CountIfDistinct(order, ProtoStableTest(idx, toRouter, byTx, p));
      CountedProtoHashes(normal, erc20, w, toRouter, order, byTx, p);
    }
  }

  /** `main()` without the printing: the three loops and the totals they give. */
  method CountSwaps(normal: seq<ScanTx>, erc20: seq<ScanTransfer>, w: Window) returns (t: Tallies)
    ensures t.swaps == |SwapHashes(normal, erc20, w)|
    ensures t.stables == |StableHashes(normal, erc20, w)|
    ensures t.perProto.Keys == Elements(AddrKeys) && t.perStable.Keys == Elements(AddrKeys)
    ensures SumCounts(AddrKeys, t.perProto) == t.swaps
    ensures SumCounts(AddrKeys, t.perStable) == t.stables
    ensures forall p :: p in t.perProto ==> t.perStable[p] <= t.perProto[p]
    ensures forall p :: p in t.perProto ==> t.perProto[p] == |ProtoSwapHashes(normal, erc20, w, p)|
    ensures forall p :: p in t.perStable ==> t.perStable[p] == |ProtoStableHashes(normal, erc20, w, p)|
  {
    var routers := RouterSet(Routers);
    var toRouter, order := IndexRouterTxs(normal, routers, w);
    var idx := BuildRouterIndex(Routers);
    var byTx := GroupTransfers(erc20, w);
    t := CountRecorded(idx, toRouter, order, byTx);
    TalliesFacts(idx, toRouter, byTx, order);
    CountIfDistinct(order, SwapTest(toRouter, byTx));
    CountIfDistinct(order, StableTest(toRouter, byTx));
    CountedHashes(normal, erc20, w, toRouter, order, byTx);
    CountedPerProto(normal, erc20, w, idx, toRouter, order, byTx);
  }
}
