/**
 * Basename lookup for a wallet: the ENS name hashing of EIP-137 ("Namehash
 * algorithm" section) with hex strings as viem passes them around, and the
 * ordered fallback chain that asks three sources for the primary name and
 * accepts only names ending in `.base.eth`.
 *
 * `keccak` is Keccak-256 on bytes, left uninterpreted; viem's `keccak256(hex)`
 * hashes the bytes the hex string spells.  The three name sources are
 * oracles whose answers are parameters.
 */
module Basename {
  import opened Wrappers
  import opened Text
  import opened Collections
  import opened Address

  type Byte = b: int | 0 <= b < 256

  /** A 32-byte hash value. */
  type Hash = h: seq<Byte> | |h| == 32 witness seq(32, _ => 0)

  // ------------------------------------------------------------ UTF-8

  /** The UTF-8 encoding of one Unicode scalar value. */
  function Utf8Char(c: char): (bs: seq<Byte>)
    ensures 1 <= |bs| <= 4
    ensures c as int < 0x80 <==> |bs| == 1
  {
    var v := c as int;
    if v < 0x80 then [v]
    else if v < 0x800 then [0xC0 + v / 64, 0x80 + v % 64]
    else if v < 0x10000 then [0xE0 + v / 4096, 0x80 + (v / 64) % 64, 0x80 + v % 64]
    else [0xF0 + v / 262144, 0x80 + (v / 4096) % 64, 0x80 + (v / 64) % 64, 0x80 + v % 64]
  }

  /** The code point a well-formed UTF-8 sequence of one character spells. */
  function CodePoint(bs: seq<Byte>): int
    requires 1 <= |bs| <= 4
  {
    if |bs| == 1 then bs[0]
    else if |bs| == 2 then (bs[0] as int - 0xC0) * 64 + (bs[1] as int - 0x80)
    else if |bs| == 3 then (bs[0] as int - 0xE0) * 4096 + (bs[1] as int - 0x80) * 64 + (bs[2] as int - 0x80)
    else (bs[0] as int - 0xF0) * 262144 + (bs[1] as int - 0x80) * 4096 + (bs[2] as int - 0x80) * 64
         + (bs[3] as int - 0x80)
  }

  /** Each encoded character decodes back to its code point, and its bytes are well-formed. */
  lemma Utf8CharRoundTrip(c: char)
    ensures CodePoint(Utf8Char(c)) == c as int
    ensures var bs := Utf8Char(c);
      (|bs| == 1 ==> bs[0] < 0x80)
      && (|bs| > 1 ==> (forall i :: 1 <= i < |bs| ==> 0x80 <= bs[i] < 0xC0) && bs[0] >= 0xC0)
  {
    var v := c as int;
    if v >= 0x10000 {
      SixBitGroups(v);
    } else if v >= 0x800 {
      SixBitGroups(v);
    }
  }

  /** A natural number read as groups of six bits, the last three of them split off. */
  lemma SixBitGroups(v: int)
    requires v >= 0
    ensures v == (v / 4096) * 4096 + ((v / 64) % 64) * 64 + v % 64
    ensures v == (v / 262144) * 262144 + ((v / 4096) % 64) * 4096 + ((v / 64) % 64) * 64 + v % 64
  {
    var q1 := v / 64;
    var q2 := q1 / 64;
    var q3 := q2 / 64;
    assert v == 64 * q1 + v % 64;
    assert q1 == 64 * q2 + q1 % 64;
    assert q2 == 64 * q3 + q2 % 64;
    assert v == 4096 * q2 + (64 * (q1 % 64) + v % 64);
    assert v / 4096 == q2;
    assert v == 262144 * q3 + (4096 * (q2 % 64) + 64 * (q1 % 64) + v % 64);
    assert v / 262144 == q3;
  }

  /** `new TextEncoder().encode(s)` */
  function Utf8(s: string): (bs: seq<Byte>)
    ensures |s| <= |bs| <= 4 * |s|
    decreases |s|
  {
    if |s| == 0 then [] else Utf8(s[..|s| - 1]) + Utf8Char(s[|s| - 1])
  }

  /** On ASCII text the encoding is the character codes themselves. */
  lemma {:induction false} Utf8Ascii(s: string)
    requires forall i :: 0 <= i < |s| ==> s[i] as int < 0x80
    ensures |Utf8(s)| == |s|
    ensures forall i :: 0 <= i < |s| ==> Utf8(s)[i] == s[i] as int
    decreases |s|
  {
    if |s| > 0 {
      Utf8Ascii(s[..|s| - 1]);
    }
  }

  // ------------------------------------------------------------ hex

  predicate IsHexLower(c: char) { IsDigit(c) || 'a' <= c <= 'f' }

  /** `b.toString(16).padStart(2, '0')` */
  function ByteHex(b: Byte): (h: string)
    ensures |h| == 2 && IsHexLower(h[0]) && IsHexLower(h[1])
  {
    [HexDigit(b / 16), HexDigit(b % 16)]
  }

  /** The bytes, two lower-case hex digits each, without the `0x`. */
  function HexOf(bs: seq<Byte>): (h: string)
    ensures |h| == 2 * |bs|
    ensures forall i :: 0 <= i < |h| ==> IsHexLower(h[i])
    decreases |bs|
  {
    if |bs| == 0 then "" else HexOf(bs[..|bs| - 1]) + ByteHex(bs[|bs| - 1])
  }

  /** The bytes a run of hex digit pairs spells (viem's `toBytes` on the part after `0x`). */
  function ParseHex(h: string): (bs: seq<Byte>)
    ensures |bs| == |h| / 2
    decreases |h|
  {
    if |h| < 2 then []
    else ParseHex(h[..|h| - 2]) + [HexValue(h[|h| - 2]) * 16 + HexValue(h[|h| - 1])]
  }

  /** Reading two more digits reads one more byte. */
  lemma ParseHexSnoc(h: string, b: Byte)
    ensures ParseHex(h + ByteHex(b)) == ParseHex(h) + [b]
  {
    var t := h + ByteHex(b);
    assert t[..|t| - 2] == h;
    assert t[|t| - 2] == HexDigit(b / 16) && t[|t| - 1] == HexDigit(b % 16);
    HexDigitValue(b / 16);
    HexDigitValue(b % 16);
  }

  /** Hex-encoding and reading back give the same bytes. */
  lemma {:induction false} HexRoundTrip(bs: seq<Byte>)
    ensures ParseHex(HexOf(bs)) == bs
    decreases |bs|
  {
    if |bs| > 0 {
      var init, b := bs[..|bs| - 1], bs[|bs| - 1];
      var hi := HexOf(init);
      HexRoundTrip(init);
      assert HexOf(bs) == hi + ByteHex(b);
      ParseHexSnoc(hi, b);
      assert ParseHex(HexOf(bs)) == init + [b];
      LastSplit(bs);
    }
  }

  /** Concatenating hex strings is hex-encoding the concatenated bytes. */
  lemma {:induction false} HexConcat(a: seq<Byte>, b: seq<Byte>)
    ensures HexOf(a + b) == HexOf(a) + HexOf(b)
    decreases |b|
  {
    if |b| == 0 {
      assert a + b == a;
    } else {
      var init := b[..|b| - 1];
      assert (a + b)[..|a + b| - 1] == a + init;
      assert (a + b)[|a + b| - 1] == b[|b| - 1];
      HexConcat(a, init);
    }
  }

  /** `strToHex(s)`: `0x` and two lower-case hex digits per UTF-8 byte. */
  function HexString(s: string): (hex: string)
    ensures |hex| == 2 + 2 * |Utf8(s)|
    ensures hex[..2] == "0x" && forall i :: 2 <= i < |hex| ==> IsHexLower(hex[i])
    ensures ParseHex(hex[2..]) == Utf8(s)
  {
    HexRoundTrip(Utf8(s));
    assert ("0x" + HexOf(Utf8(s)))[2..] == HexOf(Utf8(s));
    "0x" + HexOf(Utf8(s))
  }

  /** The loop of `strToHex`, one byte at a time. */
  method StrToHex(s: string) returns (hex: string)
    ensures hex == HexString(s)
  {
    var bytes := Utf8(s);
    hex := "0x";
    for j := 0 to |bytes|
      invariant hex == "0x" + HexOf(bytes[..j])
    {
      assert bytes[..j + 1][..j] == bytes[..j];
      hex := hex + ByteHex(bytes[j]);
    }
    assert bytes[..|bytes|] == bytes;
  }

  /** viem's `keccak256(hex)`: the hash of the bytes after `0x`, as a hex string. */
  function Keccak256(keccak: seq<Byte> -> Hash, hex: string): (h: string)
    ensures |h| == 66 && h[..2] == "0x"
  {
    "0x" + HexOf(keccak(ParseHex(SliceFrom(hex, 2))))
  }

  // ------------------------------------------------------------ namehash

  /** `labelhash(label)`: the hash of the lower-cased label's UTF-8 bytes. */
  function LabelHash(keccak: seq<Byte> -> Hash, lbl: string): (h: string)
    ensures h == "0x" + HexOf(keccak(Utf8(Lower(lbl))))
  {
    assert SliceFrom(HexString(Lower(lbl)), 2) == HexString(Lower(lbl))[2..];
    Keccak256(keccak, HexString(Lower(lbl)))
  }

  /** The labels `namehash` folds over, in name order: lower-cased, empty ones dropped. */
  function Labels(name: string): (ls: seq<string>)
    ensures forall l :: l in ls ==> l != "" && '.' !in l && IsLowerCase(l)
  {
    SplitParts(Lower(name), '.');
    LowerIsLowerCase(name);
    var parts := Split(Lower(name), '.');
    assert forall l :: l in parts ==> IsLowerCase(l) by {
      forall l | l in parts ensures IsLowerCase(l) {
        SplitLowerCase(Lower(name), '.', l);
      }
    }
    Filter(parts, (l: string) => l != "")
  }

  /** The parts of a lower-case string are lower-case. */
  lemma {:induction false} SplitLowerCase(s: string, sep: char, l: string)
    requires IsLowerCase(s) && l in Split(s, sep)
    ensures IsLowerCase(l)
    decreases |s|
  {
    if |s| > 0 {
      var rest := Split(s[1..], sep);
      if l in rest {
        SplitLowerCase(s[1..], sep, l);
      }
      if s[0] != sep && l == [s[0]] + rest[0] {
        SplitLowerCase(s[1..], sep, rest[0]);
      }
    }
  }

  const ZeroNode: Hash := seq(32, _ => 0)

  /**
   * The EIP-137 definition: the empty name has the zero node, and
   * `namehash(label.rest) = keccak(namehash(rest) ++ labelhash(label))`.
   */
  function NodeOf(keccak: seq<Byte> -> Hash, labels: seq<string>): Hash
    decreases |labels|
  {
    if |labels| == 0 then ZeroNode
    else keccak(NodeOf(keccak, labels[1..]) + keccak(Utf8(Lower(labels[0]))))
  }

  /** `namehash(name)` as the hex string the source returns. */
  function NameHash(keccak: seq<Byte> -> Hash, name: string): (h: string)
    ensures |h| == 66 && h[..2] == "0x"
  {
    "0x" + HexOf(NodeOf(keccak, Labels(name)))
  }

  /** The loop of `namehash`: fold the labels from the last one, hashing hex strings. */
  method NameHashLoop(keccak: seq<Byte> -> Hash, name: string) returns (node: string)
    ensures node == NameHash(keccak, name)
  {
    node := "0x" + HexOf(ZeroNode);
    if name == "" {
      assert Labels(name) == [];
      return;
    }
    var all := Labels(name);
    var labels := Reverse(all);
    for j := 0 to |labels|
      invariant node == "0x" + HexOf(NodeOf(keccak, all[|all| - j..]))
    {
      var lh := LabelHash(keccak, labels[j]);
      HashStep(keccak, NodeOf(keccak, all[|all| - j..]), labels[j]);
      assert all[|all| - (j + 1)..][1..] == all[|all| - j..];
      node := Keccak256(keccak, node + lh[2..]);
    }
    assert all[|all| - |labels|..] == all;
  }

  /** One round of the loop on hex strings is one step of the EIP-137 recursion on bytes. */
  lemma HashStep(keccak: seq<Byte> -> Hash, prev: Hash, lbl: string)
    ensures Keccak256(keccak, "0x" + HexOf(prev) + LabelHash(keccak, lbl)[2..])
         == "0x" + HexOf(keccak(prev + keccak(Utf8(Lower(lbl)))))
  {
    var lb: seq<Byte> := keccak(Utf8(Lower(lbl)));
    var joined: seq<Byte> := prev + lb;
    var lh := LabelHash(keccak, lbl);
    assert lh[2..] == HexOf(lb);
    HexConcat(prev, lb);
    var arg := "0x" + HexOf(prev) + lh[2..];
    assert arg == "0x" + HexOf(joined);
    assert SliceFrom(arg, 2) == HexOf(joined);
    HexRoundTrip(joined);
  }

  /** The empty name hashes to 32 zero bytes. */
  lemma NameHashEmpty(keccak: seq<Byte> -> Hash)
    ensures NameHash(keccak, "") == "0x" + seq(64, _ => '0')
  {
    assert Labels("") == [];
    assert HexOf(ZeroNode) == seq(64, _ => '0') by {
      ZeroHex(32);
    }
  }

  /** `n` zero bytes are `2n` zero digits. */
  lemma {:induction false} ZeroHex(n: nat)
    ensures HexOf(seq(n, _ => 0)) == seq(2 * n, _ => '0')
  {
    if n > 0 {
      ZeroHex(n - 1);
      assert seq(n, _ => 0)[..n - 1] == seq(n - 1, _ => 0);
    }
  }

  /** The labels of `label.rest` are the label, lower-cased, then the labels of `rest`. */
  lemma LabelsCons(lbl: string, rest: string)
    requires lbl != "" && '.' !in lbl
    ensures Labels(lbl + "." + rest) == [Lower(lbl)] + Labels(rest)
  {
    LowerConcat(lbl + ".", rest);
    LowerConcat(lbl, ".");
    assert Lower(".") == ".";
    SplitCons(Lower(lbl), '.', Lower(rest));
    FilterCons(Lower(lbl), Split(Lower(rest), '.'), (l: string) => l != "");
  }

  /** `namehash(label.rest) = keccak(namehash(rest) ++ labelhash(label))` on the hex strings. */
  lemma NameHashCons(keccak: seq<Byte> -> Hash, lbl: string, rest: string)
    requires lbl != "" && '.' !in lbl
    ensures NameHash(keccak, lbl + "." + rest)
         == Keccak256(keccak, NameHash(keccak, rest) + LabelHash(keccak, lbl)[2..])
  {
    LabelsCons(lbl, rest);
    LowerIsLowerCase(lbl);
    HashStep(keccak, NodeOf(keccak, Labels(rest)), lbl);
  }

  /** Letter case does not matter. */
  lemma NameHashIgnoresCase(keccak: seq<Byte> -> Hash, name: string)
    ensures NameHash(keccak, Lower(name)) == NameHash(keccak, name)
  {
    LowerIsLowerCase(name);
  }

  /** An empty label between two dots does not matter: "A..B" hashes like "a.b". */
  lemma NameHashIgnoresEmptyLabels(keccak: seq<Byte> -> Hash, a: string, b: string)
    requires a != "" && '.' !in a
    ensures NameHash(keccak, a + ".." + b) == NameHash(keccak, Lower(a) + "." + b)
  {
    LabelsCons(a, "." + b);
    assert a + "." + ("." + b) == a + ".." + b;
    assert "." + b == "" + "." + b;
    assert Labels("." + b) == Labels(b) by {
      LowerConcat(".", b);
      assert Lower(".") == ".";
      SplitCons("", '.', Lower(b));
      FilterCons("", Split(Lower(b), '.'), (l: string) => l != "");
    }
    LabelsCons(Lower(a), b);
    LowerIsLowerCase(a);
  }

  // ------------------------------------------------------------ reverse record

  /** `BASE_REVERSE_SUFFIX`, lower-cased; unset or empty means the default. */
  function ReverseSuffix(env: Option<string>): string {
    if env.Some? && env.value != "" then Lower(env.value) else "80002105.reverse"
  }

  /** `${address.toLowerCase().slice(2)}.${REVERSE_SUFFIX}` */
  function ReverseName(address: string, suffix: string): string {
    SliceFrom(Lower(address), 2) + "." + suffix
  }

  /**
   * For a well-formed address the reverse node is the suffix's node extended
   * by one label, the address's 40 lower-case hex digits.
   */
  lemma ReverseNode(keccak: seq<Byte> -> Hash, address: string, suffix: string)
    requires HasAddressShape(address)
    ensures var hex := Lower(address)[2..];
      && |hex| == 40 && IsLowerCase(hex)
      && NameHash(keccak, ReverseName(address, suffix))
         == Keccak256(keccak, NameHash(keccak, suffix) + LabelHash(keccak, hex)[2..])
  {
    var hex := Lower(address)[2..];
    LowerIsLowerCase(address);
    assert SliceFrom(Lower(address), 2) == hex;
    NameHashCons(keccak, hex, suffix);
  }

  // ------------------------------------------------------------ lookup chain

  /** What a call that may throw gave back. */
  datatype Attempt<T> = Threw | Gave(value: T)

  /** The body of the HTTP fallback, when it parsed as JSON; a missing field is `None`. */
  datatype Profile = Profile(name: Option<string>, displayName: Option<string>)

  /** The HTTP fallback's reply: the status check and the body, `None` when it is not JSON. */
  datatype HttpReply = HttpReply(ok: bool, body: Option<Profile>)

  /** The answers of the three sources for one address. */
  datatype Sources = Sources(
    universalReverse: Attempt<Option<string>>,       // L1 `reverse(address, coinType)`; `None` when `primary` is not a string
    registryResolver: string -> Attempt<string>,     // Base registry `resolver(node)`, by node
    resolverName: (string, string) -> Attempt<string>, // `name(node)` on the given resolver
    http: Attempt<HttpReply>)                        // the ensideas fetch

  const ZeroAddress: string := "0x0000000000000000000000000000000000000000"

  /** `x.toLowerCase().endsWith(".base.eth")` */
  predicate IsBasename(x: string) {
    EndsWith(Lower(x), ".base.eth")
  }

  /** Strategy 1: the L1 universal resolver's primary name, when it is a basename. */
  function FromUniversal(src: Sources): Option<string> {
    match src.universalReverse
    case Gave(Some(primary)) => if IsBasename(primary) then Some(primary) else None
    case _ => None
  }

  /** Strategy 2: the Base registry's resolver, unless it is empty or zero, then its `name`. */
  function FromRegistry(keccak: seq<Byte> -> Hash, address: string, suffix: string, src: Sources): Option<string> {
    var node := NameHash(keccak, ReverseName(address, suffix));
    match src.registryResolver(node)
    case Threw => None
    case Gave(resolver) =>
      if resolver == "" || resolver == ZeroAddress then None
      else match src.resolverName(resolver, node)
        case Threw => None
        case Gave(name) => if name != "" && IsBasename(name) then Some(name) else None
  }

  /** Strategy 3: the HTTP API's `name`, or else its `displayName`, when it is a basename. */
  function FromHttp(src: Sources): Option<string> {
    match src.http
    case Threw => None
    case Gave(r) =>
      if !r.ok || r.body.None? then None
      else
        var j := r.body.value;
        var cand := if j.name.Some? && j.name.value != "" then j.name
                    else if j.displayName.Some? && j.displayName.value != "" then j.displayName
                    else None;
        if cand.Some? && IsBasename(cand.value) then cand else None
  }

  /** `getBasenameFor(address)`: the first strategy that yields a basename, else null. */
  function GetBasenameFor(keccak: seq<Byte> -> Hash, address: string, suffix: string, src: Sources): (r: Option<string>)
    ensures r.Some? ==> IsBasename(r.value) && r.value != ""
    ensures FromUniversal(src).Some? ==> r == FromUniversal(src)
    ensures FromUniversal(src).None? && FromRegistry(keccak, address, suffix, src).Some? ==>
      r == FromRegistry(keccak, address, suffix, src)
    ensures FromUniversal(src).None? && FromRegistry(keccak, address, suffix, src).None? ==> r == FromHttp(src)
  {
    if FromUniversal(src).Some? then FromUniversal(src)
    else if FromRegistry(keccak, address, suffix, src).Some? then FromRegistry(keccak, address, suffix, src)
    else FromHttp(src)
  }

  /** A name is accepted only with the suffix, whichever source gave it. */
  lemma EachStrategyChecksSuffix(keccak: seq<Byte> -> Hash, address: string, suffix: string, src: Sources)
    ensures FromUniversal(src).Some? ==> IsBasename(FromUniversal(src).value)
    ensures FromRegistry(keccak, address, suffix, src).Some? ==> IsBasename(FromRegistry(keccak, address, suffix, src).value)
    ensures FromHttp(src).Some? ==> IsBasename(FromHttp(src).value) && FromHttp(src).value != ""
  {
  }

  /** A zero or empty resolver skips the registry's `name` call: its answer cannot matter. */
  lemma ZeroResolverSkipsName(keccak: seq<Byte> -> Hash, address: string, suffix: string, src: Sources,
                              otherName: (string, string) -> Attempt<string>)
    requires var r := src.registryResolver(NameHash(keccak, ReverseName(address, suffix)));
      r.Threw? || r.value == "" || r.value == ZeroAddress
    ensures GetBasenameFor(keccak, address, suffix, src)
         == GetBasenameFor(keccak, address, suffix, src.(resolverName := otherName))
  {
  }

  /** Errors fall through: if the first two sources throw, the HTTP answer decides. */
  lemma ThrowsFallThrough(keccak: seq<Byte> -> Hash, address: string, suffix: string, src: Sources)
    requires src.universalReverse.Threw?
    requires src.registryResolver(NameHash(keccak, ReverseName(address, suffix))).Threw?
    ensures GetBasenameFor(keccak, address, suffix, src) == FromHttp(src)
  {
  }
}
