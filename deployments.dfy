/**
 * The deployed-contract count both summary routes report: the union of
 * contracts the wallet created directly, contracts created by internal calls
 * of its recent transactions (traces), and contract addresses in the receipts
 * of its recent transactions.  The two routes differ only in how many recent
 * hashes they trace and fetch receipts for, and in how strictly they filter
 * addresses; both are parameters here.
 */
module Deployments {
  import opened Wrappers
  import opened Text
  import opened Collections
  import opened Ledger

  /** `["create", "create2"].includes(lc(it.type))` */
  predicate IsCreation(it: InternalTx) {
    Lower(it.kind) == "create" || Lower(it.kind) == "create2"
  }

  /** The internal calls returned for one hash: None when the trace request threw. */
  function TraceItems(reply: Option<seq<InternalTx>>): seq<InternalTx> {
    if reply.Some? then reply.value else []
  }

  /** All internal calls of `hashes`, in hash order; a failed request contributes nothing. */
  function TracedInternals(hashes: seq<string>, trace: string -> Option<seq<InternalTx>>): seq<InternalTx>
    decreases |hashes|
  {
    if |hashes| == 0 then []
    else TracedInternals(hashes[..|hashes| - 1], trace) + TraceItems(trace(hashes[|hashes| - 1]))
  }

  lemma {:induction false} TracedInternalsSource(hashes: seq<string>, trace: string -> Option<seq<InternalTx>>, it: InternalTx)
    requires it in TracedInternals(hashes, trace)
    ensures exists h :: h in hashes && trace(h).Some? && it in trace(h).value
    decreases |hashes|
  {
    var init := hashes[..|hashes| - 1];
    var h := hashes[|hashes| - 1];
    if it in TracedInternals(init, trace) {
      TracedInternalsSource(init, trace, it);
      var g :| g in init && trace(g).Some? && it in trace(g).value;
      assert g in hashes;
    } else {
      assert it in TraceItems(trace(h));
    }
  }

  /**
   * `fetchInternalsByTxHashes(hashes)`: the worker pool run as one sequential
   * loop.  A request that throws is skipped and never stops the others.
   */
  method FetchInternals(hashes: seq<string>, trace: string -> Option<seq<InternalTx>>)
    returns (out: seq<InternalTx>)
    ensures out == TracedInternals(hashes, trace)
  {
    out := [];
    var i := 0;
    while i < |hashes|
      invariant 0 <= i <= |hashes|
      invariant out == TracedInternals(hashes[..i], trace)
    {
      var reply := trace(hashes[i]);
      if reply.Some? {
        out := out + reply.value;
      }
      assert hashes[..i + 1][..i] == hashes[..i];
      i := i + 1;
    }
    assert hashes[..i] == hashes;
  }

  /** One receipt entry per distinct hash. */
  function ReceiptResults(hashes: seq<string>, receipt: string -> Option<string>): map<string, Option<string>> {
    map h | h in hashes :: receipt(h)
  }

  /**
   * `fetchReceiptsByHashes(hashes)`: one entry per distinct hash, holding the
   * receipt's `contractAddress`, or None when there is none or the request threw.
   */
  method FetchReceipts(hashes: seq<string>, receipt: string -> Option<string>)
    returns (results: map<string, Option<string>>)
    ensures results.Keys == Elements(hashes)
    ensures forall h :: h in results ==> results[h] == receipt(h)
    ensures results == ReceiptResults(hashes, receipt)
  {
    results := map[];
    var i := 0;
    while i < |hashes|
      invariant 0 <= i <= |hashes|
      invariant results.Keys == Elements(hashes[..i])
      invariant forall h :: h in results ==> results[h] == receipt(h)
    {
      results := results[hashes[i] := receipt(hashes[i])];
      assert hashes[..i + 1] == hashes[..i] + [hashes[i]];
      i := i + 1;
    }
    assert hashes[..i] == hashes;
  }

  /** Contracts created by internal calls; `accept` is the route's address check. */
  function InternalCreations(internals: seq<InternalTx>, accept: string -> bool): (r: set<string>)
    ensures forall a :: a in r <==>
      (exists it :: it in internals && IsCreation(it) && it.isError == "0"
         && accept(it.contractAddress) && Lower(it.contractAddress) == a)
  {
    set it | it in internals && IsCreation(it) && it.isError == "0" && accept(it.contractAddress)
      :: Lower(it.contractAddress)
  }

  /** Lower-cased, non-empty receipt addresses that pass `accept`. */
  function ReceiptCreations(results: map<string, Option<string>>, accept: string -> bool): (r: set<string>)
    ensures forall a :: a in r <==>
      (a != "" && accept(a) && exists h :: h in results && results[h].Some? && Lower(results[h].value) == a)
  {
    set h | h in results && results[h].Some? && Lower(results[h].value) != "" && accept(Lower(results[h].value))
      :: Lower(results[h].value)
  }

  /** A successful transaction without a recipient (or to the zero address) that names a created contract. */
  predicate IsDirectDeploy(t: NormalTx) {
    (Lower(t.to) == "" || Lower(t.to) == ZeroAddress) && t.contractAddress != "" && Succeeded(t)
  }

  function DirectCreations(ok: seq<NormalTx>): (r: set<string>)
    ensures forall a :: a in r <==> exists t :: t in ok && IsDirectDeploy(t) && Lower(t.contractAddress) == a
  {
    set t | t in ok && IsDirectDeploy(t) :: Lower(t.contractAddress)
  }

  /** How one route samples and filters: the two caps and the two address checks. */
  datatype Sampling = Sampling(
    traceCap: nat,
    receiptCap: nat,
    acceptInternal: string -> bool,
    acceptReceipt: string -> bool)

  /** The deployed-contract set as a function of the inputs. */
  function DeployedSet(
    ok: seq<NormalTx>, address: string, cfg: Sampling,
    trace: string -> Option<seq<InternalTx>>, receipt: string -> Option<string>): set<string>
  {
    var sent := SentHashes(ok, address);
    var receipts := ReceiptResults(TakeLast(sent, cfg.receiptCap), receipt);
    DirectCreations(ok)
      + InternalCreations(TracedInternals(TakeLast(sent, cfg.traceCap), trace), cfg.acceptInternal)
      + ReceiptCreations(receipts, cfg.acceptReceipt)
  }

  /**
   * Collects the deployed contracts of `address` from its successful
   * transactions, the traces of its last `traceCap` sent hashes and the
   * receipts of its last `receiptCap` sent hashes.
   */
  method CollectDeployments(
    ok: seq<NormalTx>, address: string, cfg: Sampling,
    trace: string -> Option<seq<InternalTx>>, receipt: string -> Option<string>)
    returns (direct: set<string>, internal: set<string>, receipts: set<string>, deployed: set<string>)
    ensures deployed == direct + internal + receipts
    ensures deployed == DeployedSet(ok, address, cfg, trace, receipt)
    ensures |deployed| >= |direct| && |deployed| >= |internal| && |deployed| >= |receipts|
  {
    var sent := SentHashes(ok, address);
    var internals := FetchInternals(TakeLast(sent, cfg.traceCap), trace);
    var results := FetchReceipts(TakeLast(sent, cfg.receiptCap), receipt);
    direct := DirectCreations(ok);
    internal := InternalCreations(internals, cfg.acceptInternal);
    receipts := ReceiptCreations(results, cfg.acceptReceipt);
    deployed := direct + internal + receipts;
    SubsetSize(direct, deployed);
    SubsetSize(internal, deployed);
    SubsetSize(receipts, deployed);
  }

  /**
   * Where a deployed contract comes from: a direct deployment, a creation
   * traced in one of the last `traceCap` sent hashes, or the receipt of one of
   * the last `receiptCap` sent hashes.
   */
  lemma DeployedProvenance(
    ok: seq<NormalTx>, address: string, cfg: Sampling,
    trace: string -> Option<seq<InternalTx>>, receipt: string -> Option<string>, a: string)
    requires a in DeployedSet(ok, address, cfg, trace, receipt)
    ensures
      var sent := SentHashes(ok, address);
      (exists t :: t in ok && IsDirectDeploy(t) && Lower(t.contractAddress) == a)
      || (exists h, it :: h in TakeLast(sent, cfg.traceCap) && trace(h).Some? && it in trace(h).value
            && IsCreation(it) && it.isError == "0" && cfg.acceptInternal(it.contractAddress)
            && Lower(it.contractAddress) == a)
      || (exists h :: h in TakeLast(sent, cfg.receiptCap) && receipt(h).Some?
            && Lower(receipt(h).value) == a && cfg.acceptReceipt(a))
  {
    var sent := SentHashes(ok, address);
    var traced := TracedInternals(TakeLast(sent, cfg.traceCap), trace);
    if a in InternalCreations(traced, cfg.acceptInternal) {
      var it :| it in traced && IsCreation(it) && it.isError == "0"
        && cfg.acceptInternal(it.contractAddress) && Lower(it.contractAddress) == a;
      TracedInternalsSource(TakeLast(sent, cfg.traceCap), trace, it);
    }
  }
}
