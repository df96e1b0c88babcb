/**
 * Contract interactions, as both summary routes count them: the distinct
 * destinations of successful transactions are checked with `getCode` (an
 * oracle here, None when the call threw), those holding code form the
 * contract set, and every successful transaction to one of them is an
 * interaction.  The full route checks every destination, the details route
 * only the first 300.
 */
module ContractChecks {
  import opened Wrappers
  import opened Text
  import opened Collections
  import opened Ledger

  /** The cap of the details route on destinations checked. */
  const DetailsCheckCap: nat := 300

  /** The destinations whose code is checked: all of them, or the first `cap` (`tos.slice(0, cap)`). */
  function CheckedDestinations(ok: seq<NormalTx>, cap: Option<nat>): (toArr: seq<string>)
    ensures Elements(toArr) <= Destinations(ok)
    ensures cap.None? ==> Elements(toArr) == Destinations(ok)
    ensures cap.Some? ==> |toArr| <= cap.value
  {
    var tos := DestinationList(ok);
    if cap.None? then tos else Take(tos, cap.value)
  }

  /** The destinations of `toArr` that hold code. */
  function ConfirmedContracts(toArr: seq<string>, code: string -> Option<string>): (cset: set<string>)
    ensures forall a :: a in cset <==> a in toArr && CodeIsContract(code(a))
  {
    set a | a in toArr && CodeIsContract(code(a))
  }

  /**
   * The worker loop of the details route (and the `Promise.all` of the full
   * route): every index receives exactly one result, and a failed or empty
   * code answer is false without affecting the others.
   */
  method CheckContracts(toArr: seq<string>, code: string -> Option<string>) returns (results: array<bool>)
    ensures fresh(results) && results.Length == |toArr|
    ensures forall j :: 0 <= j < |toArr| ==> results[j] == CodeIsContract(code(toArr[j]))
  {
    results := new bool[|toArr|];
    var i := 0;
    while i < |toArr|
      invariant 0 <= i <= |toArr|
      invariant forall j :: 0 <= j < i ==> results[j] == CodeIsContract(code(toArr[j]))
    {
      results[i] := CodeIsContract(code(toArr[i]));
      i := i + 1;
    }
  }

  /** `for (j...) if (results[j]) contractSet.add(toArr[j])` */
  method ContractSet(toArr: seq<string>, results: array<bool>) returns (cset: set<string>)
    requires results.Length == |toArr|
    ensures forall a :: a in cset <==> exists j :: 0 <= j < |toArr| && results[j] && toArr[j] == a
  {
    cset := {};
    var j := 0;
    while j < |toArr|
      invariant 0 <= j <= |toArr|
      invariant forall a :: a in cset <==> exists k :: 0 <= k < j && results[k] && toArr[k] == a
    {
      if results[j] {
        cset := cset + {toArr[j]};
      }
      j := j + 1;
    }
  }

  /** The contract set is exactly the checked destinations whose code check succeeded. */
  method ConfirmContracts(toArr: seq<string>, code: string -> Option<string>) returns (cset: set<string>)
    ensures cset == ConfirmedContracts(toArr, code)
  {
    var results := CheckContracts(toArr, code);
    cset := ContractSet(toArr, results);
  }

  /** There are no more confirmed contracts than destinations checked. */
  lemma ConfirmedAtMostChecked(toArr: seq<string>, code: string -> Option<string>)
    ensures |ConfirmedContracts(toArr, code)| <= |toArr|
  {
    var hits := Filter(toArr, (a: string) => CodeIsContract(code(a)));
    assert ConfirmedContracts(toArr, code) == Elements(hits);
    ElementsSize(hits);
  }

  /**
   * `uniqueInteractions` and `totalInteractions` of a route that checks
   * `CheckedDestinations(ok, cap)`.
   */
  method Interactions(ok: seq<NormalTx>, cap: Option<nat>, code: string -> Option<string>)
    returns (cset: set<string>, unique: nat, total: nat)
    ensures cset == ConfirmedContracts(CheckedDestinations(ok, cap), code)
    ensures unique == |cset| && total == TotalInteractions(ok, cset)
    ensures unique <= total <= |ok|
    ensures cap.Some? ==> unique <= cap.value
  {
    var toArr := CheckedDestinations(ok, cap);
    cset := ConfirmContracts(toArr, code);
    unique := |cset|;
    total := TotalInteractions(ok, cset);
    UniqueAtMostTotal(ok, cset);
    ConfirmedAtMostChecked(toArr, code);
  }
}
