/**
 * `GET /api/summary/details`: the narrower twin of the summary route.  It
 * accepts only a hex address, reads one page of at most 4000 transactions,
 * and reports the deployed-contract count and the contract interactions with
 * smaller sampling caps (150 traces, 250 receipts, 300 code checks).  A
 * failure of the transaction read is not caught and ends the request.
 */
module DetailsRoute {
  import opened Wrappers
  import opened Text
  import opened Collections
  import opened Ledger
  import opened Address
  import opened SummaryPaging
  import opened Deployments
  import opened ContractChecks

  /** What the network answers for the requested wallet. */
  datatype DetailSources = DetailSources(
    checksummed: string -> bool,                   // viem's `isAddress` on mixed-case input
    normalReply: Result<Page, Option<string>>,     // `txlist`, page 1, offset 4000
    trace: string -> Option<seq<InternalTx>>,      // `txlistinternal` by hash
    receipt: string -> Option<string>,             // receipt `contractAddress` by hash
    code: string -> Option<string>)                // `getCode`

  /** The patch the route answers with, or its two error outcomes. */
  datatype DetailsResponse =
    | BadRequest(error: string)
    | Unhandled(thrown: Option<string>)            // the read threw and nothing catches it
    | Patch(deployedContracts: nat, uniqueInteractions: nat, totalInteractions: nat, partial: bool)

  /** `MAX_TRACE`, `MAX_RECEIPTS`; traced creations need only a non-empty address, receipts none beyond that. */
  const DetailsSampling: Sampling :=
    Sampling(150, 250, (a: string) => a != "", (a: string) => true)

  /** `(sp.get("address") || "").trim().toLowerCase()` */
  function RawAddress(param: Option<string>): (raw: string)
    ensures IsLowerCase(raw)
  {
    LowerIsLowerCase(Trim(param.GetOr("")));
    Lower(Trim(param.GetOr("")))
  }

  /** The guard of the route: non-empty, `0x`-prefixed and a valid address. */
  predicate AcceptsAddress(raw: string, checksummed: string -> bool) {
    raw != "" && StartsWith(raw, "0x") && IsAddress(raw, checksummed)
  }

  /** On the lower-cased input the guard is the plain hex shape; no checksum is consulted. */
  lemma AcceptsAddressShape(raw: string, checksummed: string -> bool)
    requires IsLowerCase(raw)
    ensures AcceptsAddress(raw, checksummed) <==> HasAddressShape(raw)
  {
    LowerCaseAddress(raw, checksummed);
    if HasAddressShape(raw) {
      assert raw[..2] == "0x";
    }
  }

  /** `GET /api/summary/details` */
  method Details(param: Option<string>, src: DetailSources) returns (resp: DetailsResponse)
    ensures !AcceptsAddress(RawAddress(param), src.checksummed) <==> resp == BadRequest("invalid address")
    ensures AcceptsAddress(RawAddress(param), src.checksummed) && src.normalReply.Failure? ==>
      resp == Unhandled(src.normalReply.error)
    ensures AcceptsAddress(RawAddress(param), src.checksummed) && src.normalReply.Success? ==> resp.Patch?
    ensures resp.Patch? ==>
      var address := RawAddress(param);
      var ok := OkTxs(Batch(src.normalReply.value));
      var cset := ConfirmedContracts(CheckedDestinations(ok, Some(DetailsCheckCap)), src.code);
      && src.normalReply.Success?
      && HasAddressShape(address)
      && resp.deployedContracts == |DeployedSet(ok, address, DetailsSampling, src.trace, src.receipt)|
      && resp.uniqueInteractions == |cset|
      && resp.totalInteractions == TotalInteractions(ok, cset)
      && resp.uniqueInteractions <= DetailsCheckCap
      && resp.uniqueInteractions <= resp.totalInteractions <= |ok|
      && !resp.partial
  {
    var raw := RawAddress(param);
    if !AcceptsAddress(raw, src.checksummed) {
      return BadRequest("invalid address");
    }
    if src.normalReply.Failure? {
      return Unhandled(src.normalReply.error);
    }
    AcceptsAddressShape(raw, src.checksummed);
    resp := DetailsPatch(OkTxs(Batch(src.normalReply.value)), raw, src);
  }

  /** The patch for an accepted address once its one page of transactions is read. */
  method DetailsPatch(ok: seq<NormalTx>, address: string, src: DetailSources) returns (resp: DetailsResponse)
    ensures resp.Patch?
    ensures var cset := ConfirmedContracts(CheckedDestinations(ok, Some(DetailsCheckCap)), src.code);
      && resp.deployedContracts == |DeployedSet(ok, address, DetailsSampling, src.trace, src.receipt)|
      && resp.uniqueInteractions == |cset|
      && resp.totalInteractions == TotalInteractions(ok, cset)
      && resp.uniqueInteractions <= DetailsCheckCap
      && resp.uniqueInteractions <= resp.totalInteractions <= |ok|
      && !resp.partial
  {
    var _, _, _, deployed := CollectDeployments(ok, address, DetailsSampling, src.trace, src.receipt);
    var cset, unique, total := Interactions(ok, Some(DetailsCheckCap), src.code);
    return Patch(|deployed|, unique, total, false);
  }

  /**
   * The details route counts the same direct deployments as any route, and
   * every creation it traces or reads from a receipt comes from one of the
   * last 150 (traces) or 250 (receipts) hashes the wallet sent.
   */
  lemma DetailsDeployedProvenance(
    ok: seq<NormalTx>, address: string,
    trace: string -> Option<seq<InternalTx>>, receipt: string -> Option<string>, a: string)
    requires a in DeployedSet(ok, address, DetailsSampling, trace, receipt)
    ensures
      var sent := SentHashes(ok, address);
      (exists t :: t in ok && IsDirectDeploy(t) && Lower(t.contractAddress) == a)
      || (exists h, it :: h in TakeLast(sent, 150) && trace(h).Some? && it in trace(h).value
            && IsCreation(it) && it.isError == "0" && Lower(it.contractAddress) == a && a != "")
      || (exists h :: h in TakeLast(sent, 250) && receipt(h).Some? && Lower(receipt(h).value) == a)
  {
    DeployedProvenance(ok, address, DetailsSampling, trace, receipt, a);
  }
}
