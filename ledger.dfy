/**
 * The ledger records both summary routes read from the Etherscan v2 API, and
 * the derivations they share: the successful-transaction filter, the hashes the
 * wallet sent, and contract interactions.  Text fields the API leaves out are
 * "" here (`String(undefined)` differs from "0" just as "" does, and `toStr`
 * maps both to "").
 */
module Ledger {
  import opened Wrappers
  import opened Text
  import opened Collections

  /** A normal transaction (`action=txlist`); amounts in wei, time in Unix seconds. */
  datatype NormalTx = NormalTx(
    hash: string,
    from: string,
    to: string,
    isError: string,
    timeStamp: int,
    value: nat,
    gasUsed: Option<nat>,
    gas: Option<nat>,
    gasPrice: Option<nat>,
    functionName: string,
    contractAddress: string)

  /**
   * An ERC-20 or ERC-721 transfer (`tokentx` / `tokennfttx`).  `tokenDecimal`
   * is None when the field is missing or empty (`Number(x || 6)` then gives 6).
   */
  datatype TokenTransfer = TokenTransfer(
    hash: string,
    transactionHash: string,
    from: string,
    to: string,
    contractAddress: string,
    tokenSymbol: string,
    tokenDecimal: Option<nat>,
    value: nat,
    timeStamp: int)

  /** An internal call (`txlistinternal`). */
  datatype InternalTx = InternalTx(kind: string, isError: string, contractAddress: string)

  const ZeroAddress: string := "0x0000000000000000000000000000000000000000"

  /** `String(t.isError) === "0"` */
  predicate Succeeded(t: NormalTx) {
    t.isError == "0"
  }

  /** `normal.filter(t => String(t.isError) === "0")` */
  function OkTxs(normal: seq<NormalTx>): (ok: seq<NormalTx>)
    ensures |ok| <= |normal|
    ensures forall t :: t in ok <==> t in normal && Succeeded(t)
  {
    Filter(normal, Succeeded)
  }

  /** `toStr(tr.hash || tr.transactionHash)` */
  function TransferHash(tr: TokenTransfer): string {
    if tr.hash != "" then tr.hash else tr.transactionHash
  }

  /** `Number(tr.tokenDecimal || 6)` */
  function Decimals(tr: TokenTransfer): nat {
    tr.tokenDecimal.GetOr(6)
  }

  /** `Number(v) / 1e18`: wei as ether. */
  function WeiToEth(v: nat): (eth: real)
    ensures eth >= 0.0
  {
    v as real / 1_000_000_000_000_000_000.0
  }

  /** `Number(tr.value) / 10 ** dec`: a token amount in whole units. */
  function TokenUnits(tr: TokenTransfer): (units: real)
    ensures units >= 0.0
  {
    tr.value as real / Pow10(Decimals(tr)) as real
  }

  /**
   * The hashes of the successful transactions `address` sent, in order:
   * `ok.filter(t => lc(t.from) === address).map(t => toStr(t.hash)).filter(Boolean)`.
   */
  function SentHashes(ok: seq<NormalTx>, address: string): (hs: seq<string>)
    ensures |hs| <= |ok|
    ensures forall h :: h in hs <==> h != "" && exists t :: t in ok && Lower(t.from) == address && t.hash == h
  {
    var sent := Filter(ok, (t: NormalTx) => Lower(t.from) == address);
    var hashes := Map(sent, (t: NormalTx) => t.hash);
    assert forall h :: h in hashes <==> exists t :: t in sent && t.hash == h by {
      forall h | h in hashes ensures exists t :: t in sent && t.hash == h {
        var i :| 0 <= i < |hashes| && hashes[i] == h;
        assert sent[i] in sent;
      }
    }
    Filter(hashes, (h: string) => h != "")
  }

  /** `isContract(a)`: `getCode` answered (None: it threw) with code other than "" and "0x". */
  predicate CodeIsContract(code: Option<string>) {
    code.Some? && code.value != "" && code.value != "0x"
  }

  /** The lower-cased `to` of every successful transaction that has one. */
  function Destinations(ok: seq<NormalTx>): (tos: set<string>)
    ensures forall a :: a in tos <==> exists t :: t in ok && t.to != "" && Lower(t.to) == a
  {
    set t | t in ok && t.to != "" :: Lower(t.to)
  }

  /**
   * The distinct lower-cased destinations in first-occurrence order, as both
   * routes list them before checking which are contracts.
   */
  function DestinationList(ok: seq<NormalTx>): (tos: seq<string>)
    ensures Elements(tos) == Destinations(ok)
    ensures NoDuplicates(tos)
    ensures |tos| <= |ok|
  {
    var lowered := Map(ok, (t: NormalTx) => Lower(t.to));
    var named := Filter(lowered, (a: string) => a != "");
    forall a | a in named ensures a in Destinations(ok) {
      var i :| 0 <= i < |lowered| && lowered[i] == a;
      assert ok[i] in ok && ok[i].to != "";
    }
    forall a | a in Destinations(ok) ensures a in named {
      var t :| t in ok && t.to != "" && Lower(t.to) == a;
      var i :| 0 <= i < |ok| && ok[i] == t;
      assert lowered[i] == a;
    }
    Distinct(named)
  }

  /** `ok.filter(t => t.to && cset.has(lc(t.to))).length` */
  function TotalInteractions(ok: seq<NormalTx>, cset: set<string>): (n: nat)
    ensures n <= |ok|
  {
    CountIf(ok, (t: NormalTx) => t.to != "" && Lower(t.to) in cset)
  }

  /**
   * Every confirmed contract is the destination of at least one counted
   * transaction, so there are no more distinct contracts than interactions.
   */
  lemma UniqueAtMostTotal(ok: seq<NormalTx>, cset: set<string>)
    requires cset <= Destinations(ok)
    ensures |cset| <= TotalInteractions(ok, cset) <= |ok|
  {
    var hits := (t: NormalTx) => t.to != "" && Lower(t.to) in cset;
    var dest := (t: NormalTx) => Lower(t.to);
    var hit := Filter(ok, hits);
    assert TotalInteractions(ok, cset) == |hit|;
    var image := Image(hit, dest);
    assert cset <= image by {
      forall a | a in cset ensures a in image {
        var t :| t in ok && t.to != "" && Lower(t.to) == a;
        assert hits(t);
        assert t in hit;
        assert dest(t) == a;
      }
    }
    SubsetSize(cset, image);
    ImageSize(hit, dest);
  }
}
