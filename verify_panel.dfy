/**
 * The verification panel under the report: when the summary carries its
 * diagnostic block, two consistency checks compare the summary with it and
 * the panel reads "Verified" or "Issues found".
 */
module VerifyPanel {
  import opened Wrappers
  import opened Collections

  /**
   * The parts of the diagnostic block the checks read: the traced swap
   * hashes when they are an array, and the bridge provider counters when
   * present (their values; `None` is a value `Number` cannot read, NaN).
   */
  datatype Diag = Diag(swapHashes: Option<seq<string>>, bridgeHits: Option<seq<Option<real>>>)

  /**
   * The parts of the summary the panel reads: the diagnostic block, the swap
   * count when it is a number (`None` also for NaN, which fails every
   * comparison), and whether a third-party bridge was flagged.
   */
  datatype Summary = Summary(diag: Option<Diag>, swaps: Option<real>, usedThirdPartyBridge: bool)

  datatype Issue = SwapsMismatch(ui: real, approx: nat) | BridgeCountsZero

  /** `Number(b || 0)`: a missing or unreadable counter counts 0. */
  function HitValue(b: Option<real>): real {
    if b.Some? then b.value else 0.0
  }

  function Abs(x: real): real { if x < 0.0 then -x else x }

  /** The label the panel shows. */
  function Status(issues: seq<Issue>): string {
    if |issues| == 0 then "✅ Verified" else "⚠️ Issues found"
  }

  /**
   * The panel's checks: nothing is rendered without the diagnostic block;
   * a swaps issue when the swap count is a number, the hash list is non-empty
   * and the two differ by more than 2; a bridge issue when a third-party
   * bridge is flagged, counters are present and they sum to 0.
   */
  method Check(summary: Summary) returns (issues: Option<seq<Issue>>)
    ensures issues.None? <==> summary.diag.None?
    ensures issues.Some? ==> |issues.value| <= 2
    ensures issues.Some? ==>
      ((exists i :: i in issues.value && i.SwapsMismatch?) <==>
        && summary.swaps.Some? && summary.diag.value.swapHashes.Some?
        && |summary.diag.value.swapHashes.value| != 0
        && Abs(summary.swaps.value - |summary.diag.value.swapHashes.value| as real) > 2.0)
    ensures issues.Some? ==>
      ((exists i :: i in issues.value && i.BridgeCountsZero?) <==>
        && summary.usedThirdPartyBridge && summary.diag.value.bridgeHits.Some?
        && SumOf(summary.diag.value.bridgeHits.value, HitValue) == 0.0)
    ensures issues.Some? ==> forall i :: i in issues.value && i.SwapsMismatch? ==>
      Some(i.ui) == summary.swaps && summary.diag.value.swapHashes.Some?
      && i.approx == |summary.diag.value.swapHashes.value|
    ensures issues.Some? ==> (Status(issues.value) == "✅ Verified" <==> issues.value == [])
  {
    if summary.diag.None? {
      return None;
    }
    var diag := summary.diag.value;
    var found: seq<Issue> := [];
    if summary.swaps.Some? && diag.swapHashes.Some? {
      var approx := |diag.swapHashes.value|;
      if approx != 0 && Abs(summary.swaps.value - approx as real) > 2.0 {
        found := found + [SwapsMismatch(summary.swaps.value, approx)];
      }
    }
    assert forall i :: i in found ==> i.SwapsMismatch?;
    ghost var swapIssues := found;
    if summary.usedThirdPartyBridge && diag.bridgeHits.Some? {
      var sum := SumOf(diag.bridgeHits.value, HitValue);
      if sum == 0.0 {
        found := found + [BridgeCountsZero];
        assert found[|found| - 1] in found;
      }
    }
    assert forall i :: i in found && i.SwapsMismatch? ==> i in swapIssues;
    assert swapIssues != [] ==> swapIssues[0] in found;
    assert "✅ Verified" != "⚠️ Issues found";
    return Some(found);
  }

  /**
   * With non-negative counters, one provider that saw a hit makes the sum
   * positive, which keeps the bridge issue away.
   */
  lemma {:induction false} SumOfPositive(s: seq<Option<real>>, k: nat)
    requires forall x :: x in s ==> HitValue(x) >= 0.0
    requires k < |s| && HitValue(s[k]) > 0.0
    ensures SumOf(s, HitValue) > 0.0
    decreases |s|
  {
    var init := s[..|s| - 1];
    if k == |s| - 1 {
      SumOfNonNegative(init, HitValue);
    } else {
      assert s[k] == init[k];
      SumOfPositive(init, k);
    }
  }
}
