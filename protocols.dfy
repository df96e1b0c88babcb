/**
 * The protocol registry: fallback keywords and the known on-Base addresses
 * of each protocol, normalised at load time to lower-case, duplicate-free
 * lists, and the same lists as sets.
 */
module Protocols {
  import opened Text
  import opened Collections

  /** `ProtoKey` */
  datatype ProtoKey = Uniswap | Sushi | Pancake | Aerodrome | Aave | Limitless | Stargate | Metamask | Matcha

  /** The keys of `PROTOCOL_ADDRS` in declaration order (`limitless` is declared last there). */
  const AddrKeys: seq<ProtoKey> := [Uniswap, Sushi, Pancake, Aerodrome, Aave, Stargate, Metamask, Matcha, Limitless]

  lemma AddrKeysDistinct()
    ensures NoDuplicates(AddrKeys)
  {
  }

  /** Every protocol has a place in `AddrKeys`. */
  lemma KeyIndex(k: ProtoKey) returns (j: nat)
    ensures j < |AddrKeys| && AddrKeys[j] == k
  {
    match k
    case Uniswap => j := 0;
    case Sushi => j := 1;
    case Pancake => j := 2;
    case Aerodrome => j := 3;
    case Aave => j := 4;
    case Stargate => j := 5;
    case Metamask => j := 6;
    case Matcha => j := 7;
    case Limitless => j := 8;
  }

  /** `PROTOCOL_KEYWORDS[k]` */
  function Keywords(k: ProtoKey): seq<string> {
    match k
    case Uniswap => ["uniswap", "v3swap", "exactinput", "exactoutput", "universalrouter"]
    case Sushi => ["sushi", "uniswapv2", "v2router"]
    case Pancake => ["pancake", "pancakeswap", "smartrouter", "universalrouter"]
    case Aerodrome => ["aerodrome", "slipstream"]
    case Aave => ["aave", "pool", "borrow", "repay", "supply", "withdraw"]
    case Limitless => ["limitless"]
    case Stargate => ["stargate", "routereth"]
    case Metamask => ["metamask", "mm", "router", "spender"]
    case Matcha => ["matcha", "0x", "exchangeproxy", "transformerc"]
  }

  /** `PROTOCOL_ADDRS[k]` as written, before normalisation. */
  function DeclaredAddrs(k: ProtoKey): seq<string> {
    match k
    case Uniswap => ["0x6ff5693b99212da76ad316178a184ab56d299b43", "0x2626664c2603336e57b271c5c0b26f421741e481"]
    case Sushi => ["0x6bded42c6da8fbf0d2ba55b2fa120c5e0c8d7891"]
    case Pancake => ["0xfe6508f0015c778bdcc1fb5465ba5ebe224c9912", "0x678aa4bf4e210cf2166753e054d5b7c31cc7fa86"]
    case Aerodrome => ["0x6cb442acf35158d5eda88fe602221b67b400be3e", "0xbe6d8f0d05cc4be24d5167a3ef062215be6d18a5",
                       "0xcf77a3ba9a5ca399b7c97c74d54e5b1beb874e43"]
    case Aave => ["0xa238dd80c259a72e81d7e4664a9801593f98d1c5", "0x8be473dcfa93132658821e67cbeb684ec8ea2e74"]
    case Stargate => ["0x45f1a95a4d3f3836523f5c83673c797f4d4d263b", "0x50b6ebc2103bfec165949cc946d739d5650d7ae4",
                      "0xaf54be5b6eec24d6bfacf1cce4eaf680a8239398"]
    case Metamask => ["0x9dda6ef3d919c9bc8885d5560999a3640431e8e6"]
    case Matcha => ["0xdef1c0ded9bec7f1a1670819833240f027b25eff"]
    case Limitless => []
  }

  function NonEmpty(a: string): bool {
    a != ""
  }

  /** What `ensureLowerUnique(arr)` returns: lower-cased, non-empty, first occurrences only. */
  function LowerUnique(arr: seq<string>): seq<string> {
    Distinct(Filter(Map(arr, Lower), NonEmpty))
  }

  /** One more entry: kept, lower-cased, when non-empty and new. */
  lemma LowerUniqueSnoc(pre: seq<string>, x: string)
    ensures LowerUnique(pre + [x]) ==
      if Lower(x) != "" && Lower(x) !in LowerUnique(pre) then LowerUnique(pre) + [Lower(x)] else LowerUnique(pre)
  {
    var v := Lower(x);
    assert Map(pre + [x], Lower) == Map(pre, Lower) + [v];
    FilterSnoc(Map(pre, Lower), v, NonEmpty);
    var kept := Filter(Map(pre, Lower), NonEmpty);
    if v != "" {
      assert (kept + [v])[..|kept|] == kept;
    } else {
      assert kept + [] == kept;
    }
  }

  /** One entry's turn in the loop of `ensureLowerUnique`. */
  method AddLower(ghost pre: seq<string>, x: string, seen0: set<string>, out0: seq<string>)
    returns (seen: set<string>, out: seq<string>)
    requires out0 == LowerUnique(pre) && seen0 == Elements(out0)
    ensures out == LowerUnique(pre + [x]) && seen == Elements(out)
  {
    LowerUniqueSnoc(pre, x);
    seen, out := seen0, out0;
    var v := Lower(x);
    if v != "" && v !in seen {
      ElementsSnoc(out0, v);
      out := out0 + [v];
      seen := seen0 + {v};
    }
  }

  /** `ensureLowerUnique(arr)`: the loop that adds each lower-cased, non-empty entry to a Set. */
  method EnsureLowerUnique(arr: seq<string>) returns (out: seq<string>)
    ensures out == LowerUnique(arr)
  {
    var seen: set<string> := {};
    out := [];
    assert arr[..0] == [];
    for i := 0 to |arr|
      invariant out == LowerUnique(arr[..i])
      invariant seen == Elements(out)
    {
      PrefixSnoc(arr, i);
      seen, out := AddLower(arr[..i], arr[i], seen, out);
    }
    assert arr[..|arr|] == arr;
  }

  /** The output is lower-case and holds no empty string and no duplicate. */
  lemma LowerUniqueShape(arr: seq<string>)
    ensures forall a :: a in LowerUnique(arr) ==> IsLowerCase(a) && a != ""
    ensures NoDuplicates(LowerUnique(arr))
  {
    forall a | a in LowerUnique(arr) ensures IsLowerCase(a) {
      var lowered := Map(arr, Lower);
      var i :| 0 <= i < |lowered| && lowered[i] == a;
      LowerIsLowerCase(arr[i]);
    }
  }

  /** The output holds exactly the lower-cased non-empty inputs, in order of first occurrence. */
  lemma LowerUniqueContents(arr: seq<string>)
    ensures forall a :: a in LowerUnique(arr) <==> a != "" && exists x :: x in arr && Lower(x) == a
    ensures var pre := Filter(Map(arr, Lower), NonEmpty);
      forall i, j :: 0 <= i < j < |LowerUnique(arr)| ==>
        FirstIndex(pre, LowerUnique(arr)[i]) < FirstIndex(pre, LowerUnique(arr)[j])
  {
    var lowered := Map(arr, Lower);
    forall a | a != "" && (exists x :: x in arr && Lower(x) == a) ensures a in LowerUnique(arr) {
      var x :| x in arr && Lower(x) == a;
      var i :| 0 <= i < |arr| && arr[i] == x;
      assert lowered[i] == a;
    }
    forall a | a in LowerUnique(arr) ensures exists x :: x in arr && Lower(x) == a {
      var i :| 0 <= i < |lowered| && lowered[i] == a;
      assert arr[i] in arr;
    }
    DistinctOrder(Filter(lowered, NonEmpty));
  }

  /** Normalising twice is normalising once. */
  lemma LowerUniqueIdempotent(arr: seq<string>)
    ensures LowerUnique(LowerUnique(arr)) == LowerUnique(arr)
  {
    var out := LowerUnique(arr);
    LowerUniqueShape(arr);
    assert Map(out, Lower) == out by {
      forall i | 0 <= i < |out| ensures Lower(out[i]) == out[i] {
        LowerOfLowerCase(out[i]);
      }
    }
    FilterAll(out, NonEmpty);
    DistinctOfDistinct(out);
  }

  /** `PROTOCOL_ADDRS` as a mutable record: the module-load code rewrites its entries in place. */
  class AddressRegistry {
    var addrs: map<ProtoKey, seq<string>>

    /** The record as declared. */
    constructor()
      ensures addrs == map k | k in AddrKeys :: DeclaredAddrs(k)
    {
      addrs := map k | k in AddrKeys :: DeclaredAddrs(k);
    }

    /**
     * `Object.keys(PROTOCOL_ADDRS).forEach(k => PROTOCOL_ADDRS[k] = ensureLowerUnique(PROTOCOL_ADDRS[k]))`:
     * every entry is replaced by its normalised list and the key set stays.
     */
    method Normalise()
      modifies this
      ensures addrs.Keys == old(addrs).Keys
      ensures forall k :: k in addrs ==> addrs[k] == LowerUnique(old(addrs)[k])
    {
      ghost var before := addrs;
      AddrKeysDistinct();
      for i := 0 to |AddrKeys|
        invariant addrs.Keys == before.Keys
        invariant forall j :: 0 <= j < i && AddrKeys[j] in addrs ==> addrs[AddrKeys[j]] == LowerUnique(before[AddrKeys[j]])
        invariant forall j :: i <= j < |AddrKeys| && AddrKeys[j] in addrs ==> addrs[AddrKeys[j]] == before[AddrKeys[j]]
      {
        var k := AddrKeys[i];
        if k in addrs {
          var normalised := EnsureLowerUnique(addrs[k]);
          addrs := addrs[k := normalised];
        }
      }
      forall k | k in addrs ensures addrs[k] == LowerUnique(before[k]) {
        var j := KeyIndex(k);
      }
    }

    /** `PROTOCOL_ADDRS_SET[k]`: the elements of the list. */
    function AddrSet(k: ProtoKey): (s: set<string>)
      reads this
      requires k in addrs
      ensures forall a :: a in s <==> a in addrs[k]
    {
      Elements(addrs[k])
    }
  }

  /** The registry after module load: every list is the normalised declared list. */
  method LoadRegistry() returns (reg: AddressRegistry)
    ensures fresh(reg)
    ensures reg.addrs.Keys == Elements(AddrKeys)
    ensures forall k :: k in reg.addrs ==> reg.addrs[k] == LowerUnique(DeclaredAddrs(k))
  {
    reg := new AddressRegistry();
    reg.Normalise();
  }

  /** `PROTOCOL_ADDRS[k]` as the rest of the program sees it. */
  function ProtocolAddrs(k: ProtoKey): seq<string> {
    LowerUnique(DeclaredAddrs(k))
  }
}
