/**
 * Account addresses: viem's `isAddress` check and the summary route's
 * `resolveAddressOrName`, which accepts a hex address or an ENS-style name.
 */
module Address {
  import opened Wrappers
  import opened Text

  predicate IsHexChar(c: char) {
    IsDigit(c) || 'a' <= c <= 'f' || 'A' <= c <= 'F'
  }

  /** The text matches `^0x[0-9a-fA-F]{40}$`. */
  predicate HasAddressShape(s: string) {
    |s| == 42 && s[..2] == "0x" && forall i :: 2 <= i < 42 ==> IsHexChar(s[i])
  }

  /**
   * viem's strict `isAddress(s)`: the hex shape, and then either no upper-case
   * letter at all or a mixed-case spelling that is the EIP-55 checksum form.
   * `checksummed(s)` stands for `checksumAddress(s) === s`, which needs keccak256.
   */
  predicate IsAddress(s: string, checksummed: string -> bool) {
    HasAddressShape(s) && (Lower(s) == s || checksummed(s))
  }

  /** Lower-casing an address keeps it an address, and the lower-case form needs no checksum. */
  lemma LowerAddress(s: string, checksummed: string -> bool)
    requires HasAddressShape(s)
    ensures IsAddress(Lower(s), checksummed)
    ensures forall other: string -> bool :: IsAddress(Lower(s), other)
    ensures IsLowerCase(Lower(s))
  {
    LowerIsLowerCase(s);
    assert Lower(s)[..2] == "0x";
  }

  /** A lower-case string is an address exactly when it has the hex shape. */
  lemma LowerCaseAddress(s: string, checksummed: string -> bool)
    requires IsLowerCase(s)
    ensures IsAddress(s, checksummed) <==> HasAddressShape(s)
  {
    LowerOfLowerCase(s);
  }

  /** The answer of the name-resolution API for one name. */
  datatype NameReply =
    | Unreachable                                   // the fetch threw
    | Answer(ok: bool, address: string, addr: string) // fields missing from the body are ""

  /**
   * `resolveAddressOrName(input)`: a hex address is lower-cased without any
   * lookup; a dotted name is looked up with `lookup`; everything else is null.
   */
  function ResolveAddressOrName(input: string, checksummed: string -> bool, lookup: string -> NameReply)
    : (r: Option<string>)
    ensures r.Some? ==> HasAddressShape(r.value) && IsLowerCase(r.value) && IsAddress(r.value, checksummed)
    ensures input == "" ==> r == None
    ensures var s := Trim(input);
      input != "" && StartsWith(s, "0x") && IsAddress(s, checksummed) ==> r == Some(Lower(s))
    ensures var s := Trim(input);
      !(StartsWith(s, "0x") && IsAddress(s, checksummed)) && !Contains(s, ".") ==> r == None
    // A dotted name with an ok reply yields its `address` (or else `addr`) lower-cased
    // when that is a valid address, and null otherwise.
    ensures var s := Trim(input);
      input != "" && !(StartsWith(s, "0x") && IsAddress(s, checksummed)) && Contains(s, ".")
      && lookup(s).Answer? && lookup(s).ok ==>
        var c := if lookup(s).address != "" then lookup(s).address else lookup(s).addr;
        r == (if c != "" && IsAddress(c, checksummed) then Some(Lower(c)) else None)
  {
    if input == "" then None
    else
      var s := Trim(input);
      if StartsWith(s, "0x") && IsAddress(s, checksummed) then
        LowerAddress(s, checksummed);
        Some(Lower(s))
      else if Contains(s, ".") then
        match lookup(s)
        case Unreachable => None
        case Answer(ok, address, addr) =>
          if !ok then None
          else
            var candidate := if address != "" then address else addr;
            if candidate != "" && IsAddress(candidate, checksummed) then
              LowerAddress(candidate, checksummed);
              Some(Lower(candidate))
            else None
      else None
  }

  /** A hex address never depends on the name service. */
  lemma ResolveHexIgnoresLookup(input: string, checksummed: string -> bool, l1: string -> NameReply, l2: string -> NameReply)
    requires StartsWith(Trim(input), "0x") && IsAddress(Trim(input), checksummed)
    ensures ResolveAddressOrName(input, checksummed, l1) == ResolveAddressOrName(input, checksummed, l2)
  {
  }

  /** A failed or refused lookup yields null. */
  lemma ResolveFailedLookup(input: string, checksummed: string -> bool, lookup: string -> NameReply)
    requires !(StartsWith(Trim(input), "0x") && IsAddress(Trim(input), checksummed))
    requires lookup(Trim(input)).Unreachable? || !lookup(Trim(input)).ok
    ensures ResolveAddressOrName(input, checksummed, lookup) == None
  {
  }
}
