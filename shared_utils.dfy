/**
 * The helpers shared by both summary routes: string normalisation of loosely
 * typed JSON values, the retry loop, the Etherscan v2 query builder and
 * response check, and the price fallback.  The network itself is not modelled:
 * every fetch is an oracle function from the attempt number to its outcome.
 */
module SharedUtils {
  import opened Wrappers
  import opened Text

  const ChainIdBase: int := 8453
  const ParseError: string := "etherscan_v2_parse_error"

  // ------------------------------------------------ loosely typed values

  /** A JSON-like JavaScript value as the routes receive it. */
  datatype JsValue =
    | Undefined
    | Null
    | Bool(b: bool)
    | Num(n: int)
    | Str(s: string)
    | Arr(items: seq<JsValue>)
    | Obj

  /** `String(v)`, where `null` and `undefined` inside an array render as "". */
  function JsString(v: JsValue): string {
    match v
    case Undefined => "undefined"
    case Null => "null"
    case Bool(b) => if b then "true" else "false"
    case Num(n) => IntToString(n)
    case Str(s) => s
    case Arr(items) => JoinItems(items)
    case Obj => "[object Object]"
  }

  function JoinItems(items: seq<JsValue>): string
    decreases items
  {
    if |items| == 0 then ""
    else
      var head := if items[0] == Null || items[0] == Undefined then "" else JsString(items[0]);
      if |items| == 1 then head else head + "," + JoinItems(items[1..])
  }

  /** `toStr(v) = String(v ?? "")` */
  function ToStr(v: JsValue): (r: string)
    ensures v == Null || v == Undefined ==> r == ""
    ensures v.Str? ==> r == v.s
    ensures v.Num? ==> r == IntToString(v.n)
  {
    if v == Null || v == Undefined then "" else JsString(v)
  }

  /** `lc(v) = toStr(v).toLowerCase()` */
  function Lc(v: JsValue): (r: string)
    ensures IsLowerCase(r)
    ensures v == Null || v == Undefined ==> r == ""
    ensures |r| == |ToStr(v)|
  {
    LowerIsLowerCase(ToStr(v));
    Lower(ToStr(v))
  }

  /** `sIncludes(hay, needle)`: substring test after lower-casing both sides. */
  predicate SIncludes(hay: JsValue, needle: JsValue) {
    Contains(Lc(hay), Lc(needle))
  }

  /** `ensureArray(x)`: the array itself, anything else as an empty array. */
  function EnsureArray(x: JsValue): (r: seq<JsValue>)
    ensures x.Arr? ==> r == x.items
    ensures !x.Arr? ==> r == []
  {
    if x.Arr? then x.items else []
  }

  lemma LowerUpper(s: string)
    ensures Lower(Upper(s)) == Lower(s)
  {
  }

  /** `sIncludes` ignores the letter case of both arguments. */
  lemma SIncludesIgnoresCase(hay: string, needle: string)
    ensures SIncludes(Str(Upper(hay)), Str(needle)) == SIncludes(Str(hay), Str(needle))
    ensures SIncludes(Str(hay), Str(Upper(needle))) == SIncludes(Str(hay), Str(needle))
    ensures SIncludes(Str(Lower(hay)), Str(Lower(needle))) == SIncludes(Str(hay), Str(needle))
  {
    LowerUpper(hay);
    LowerUpper(needle);
    LowerIsLowerCase(hay);
    LowerIsLowerCase(needle);
  }

  /** A plain substring is always found by `sIncludes`. */
  lemma SIncludesSubstring(hay: string, needle: string)
    requires Contains(hay, needle)
    ensures SIncludes(Str(hay), Str(needle))
  {
    ContainsLower(hay, needle);
  }

  // ------------------------------------------------------------ isHttpUrl

  /**
   * `isHttpUrl(raw)`.  `protocolOf(s)` is the `protocol` of `new URL(s)`,
   * or None when the constructor throws.
   */
  predicate IsHttpUrl(raw: Option<string>, protocolOf: string -> Option<string>) {
    raw.Some? && raw.value != "" &&
    protocolOf(raw.value) in {Some("http:"), Some("https:")}
  }

  lemma IsHttpUrlOnlyHttp(raw: Option<string>, protocolOf: string -> Option<string>)
    ensures IsHttpUrl(raw, protocolOf) ==>
      raw.Some? && protocolOf(raw.value).Some? && protocolOf(raw.value).value in {"http:", "https:"}
    ensures raw == None || raw == Some("") ==> !IsHttpUrl(raw, protocolOf)
  {
  }

  // ------------------------------------------------------------ withRetry

  /**
   * `withRetry(fn, tries)` with the sleeps left out.  `fn(i)` is the outcome of
   * the i-th call; an error is its message, None for a thrown `undefined`
   * (what the loop rethrows when it never ran).  `calls` counts the calls made.
   */
  method WithRetry<T>(fn: nat -> Result<T, Option<string>>, tries: int)
    returns (r: Result<T, Option<string>>, calls: nat)
    ensures calls <= (if tries > 0 then tries else 0)
    ensures forall i :: 0 <= i < calls - 1 ==> fn(i).Failure?
    ensures r.Success? ==> 1 <= calls && r == fn(calls - 1)
    ensures r.Failure? ==> calls == (if tries > 0 then tries else 0)
    ensures r.Failure? ==> forall i :: 0 <= i < calls ==> fn(i).Failure?
    ensures r.Failure? ==> r.error == (if calls == 0 then None else fn(calls - 1).error)
  {
    var last: Option<string> := None;
    var i := 0;
    while i < tries
      invariant 0 <= i && (tries > 0 ==> i <= tries) && (tries <= 0 ==> i == 0)
      invariant forall j :: 0 <= j < i ==> fn(j).Failure?
      invariant last == (if i == 0 then None else fn(i - 1).error)
    {
      var attempt := fn(i);
      if attempt.Success? {
        return attempt, i + 1;
      }
      last := attempt.error;
      i := i + 1;
    }
    return Failure(last), i;
  }

  // ------------------------------------------------------------ v2url

  /** The query of a URL as `URLSearchParams` keeps it: name/value pairs in order. */
  type Query = seq<(string, string)>

  /** `params.get(k)`: the value of the first pair named `k`. */
  function Get(q: Query, k: string): Option<string> {
    if |q| == 0 then None else if q[0].0 == k then Some(q[0].1) else Get(q[1..], k)
  }

  predicate HasKey(q: Query, k: string) {
    exists i :: 0 <= i < |q| && q[i].0 == k
  }

  predicate DistinctKeys(q: Query) {
    forall i, j :: 0 <= i < j < |q| ==> q[i].0 != q[j].0
  }

  function RemoveKey(q: Query, k: string): (r: Query)
    ensures !HasKey(r, k)
    ensures forall k' :: k' != k ==> Get(r, k') == Get(q, k')
    ensures forall p :: p in r ==> p in q
    ensures DistinctKeys(q) ==> DistinctKeys(r)
  {
    if |q| == 0 then []
    else if q[0].0 == k then RemoveKey(q[1..], k)
    else
      var rest := RemoveKey(q[1..], k);
      assert DistinctKeys(q) ==> forall p :: p in rest ==> p.0 != q[0].0 by {
        if DistinctKeys(q) {
          forall p | p in rest ensures p.0 != q[0].0 {
            assert p in q[1..];
            var j :| 0 <= j < |q[1..]| && q[1..][j] == p;
            assert q[j + 1] == p;
          }
        }
      }
      [q[0]] + rest
  }

  /**
   * `params.set(k, v)`: the first pair named `k` takes value `v` and any later
   * pairs named `k` are removed; without such a pair `(k, v)` is appended.
   */
  function SetParam(q: Query, k: string, v: string): (r: Query)
    ensures Get(r, k) == Some(v)
    ensures forall k' :: k' != k ==> Get(r, k') == Get(q, k')
    ensures forall p :: p in r ==> p in q || p == (k, v)
    ensures DistinctKeys(q) ==> DistinctKeys(r)
    ensures |q| > 0 && q[0].0 != k ==> |r| > 0 && r[0] == q[0]
  {
    if |q| == 0 then [(k, v)]
    else if q[0].0 == k then [(k, v)] + RemoveKey(q[1..], k)
    else
      var rest := SetParam(q[1..], k, v);
      assert DistinctKeys(q) ==> forall p :: p in rest ==> p.0 != q[0].0 by {
        if DistinctKeys(q) {
          forall p | p in rest ensures p.0 != q[0].0 {
            if p != (k, v) {
              assert p in q[1..];
              var j :| 0 <= j < |q[1..]| && q[1..][j] == p;
              assert q[j + 1] == p;
            }
          }
        }
      }
      [q[0]] + rest
  }

  /** The value the last pair named `k` in `p` carries: what repeated `set` calls leave behind. */
  function LastValue(p: Query, k: string): Option<string> {
    if |p| == 0 then None
    else if p[|p| - 1].0 == k then Some(p[|p| - 1].1)
    else LastValue(p[..|p| - 1], k)
  }

  /** `for (const k in p) u.searchParams.set(k, p[k])` */
  function SetAll(q: Query, p: Query): Query
    decreases |p|
  {
    if |p| == 0 then q else SetParam(SetAll(q, p[..|p| - 1]), p[|p| - 1].0, p[|p| - 1].1)
  }

  lemma {:induction false} SetAllGet(q: Query, p: Query, k: string)
    ensures Get(SetAll(q, p), k) == (if LastValue(p, k).Some? then LastValue(p, k) else Get(q, k))
    decreases |p|
  {
    if |p| > 0 {
      SetAllGet(q, p[..|p| - 1], k);
    }
  }

  lemma {:induction false} SetAllKeeps(q: Query, p: Query)
    requires DistinctKeys(q)
    ensures DistinctKeys(SetAll(q, p))
    ensures |q| > 0 && (forall i :: 0 <= i < |p| ==> p[i].0 != q[0].0) ==>
      |SetAll(q, p)| > 0 && SetAll(q, p)[0] == q[0]
    decreases |p|
  {
    if |p| > 0 {
      SetAllKeeps(q, p[..|p| - 1]);
    }
  }

  /**
   * The query `v2url(p)` builds: `chainid` first, then every parameter of `p`
   * in order, then `apikey` when a key is configured.
   */
  function V2Query(p: Query, apiKey: string): (r: Query)
    ensures DistinctKeys(r)
  {
    var q := SetAll([("chainid", IntToString(ChainIdBase))], p);
    SetAllKeeps([("chainid", IntToString(ChainIdBase))], p);
    if apiKey != "" then SetParam(q, "apikey", apiKey) else q
  }

  /** What each parameter of `v2url(p)` ends up holding. */
  lemma V2QueryValues(p: Query, apiKey: string, k: string)
    ensures k == "apikey" && apiKey != "" ==> Get(V2Query(p, apiKey), k) == Some(apiKey)
    ensures k == "chainid" ==> Get(V2Query(p, apiKey), k) == Some(LastValue(p, k).GetOr(IntToString(ChainIdBase)))
    ensures k != "chainid" && !(k == "apikey" && apiKey != "") ==> Get(V2Query(p, apiKey), k) == LastValue(p, k)
  {
    SetAllGet([("chainid", IntToString(ChainIdBase))], p, k);
  }

  /** Unless the caller overrides it, `chainid` stays the first parameter. */
  lemma V2QueryChainFirst(p: Query, apiKey: string)
    requires forall i :: 0 <= i < |p| ==> p[i].0 != "chainid"
    ensures |V2Query(p, apiKey)| > 0 && V2Query(p, apiKey)[0] == ("chainid", "8453")
  {
    SetAllKeeps([("chainid", IntToString(ChainIdBase))], p);
    assert IntToString(ChainIdBase) == "8453";
  }

  // ------------------------------------------------------------ etherscanV2

  /** One fetch of an Etherscan URL: the network failed, or a body arrived. */
  datatype FetchReply<T> =
    | Unreachable(message: string)
    | Reply(json: Option<T>)   // None: the body is not JSON, or is a falsy JSON value

  /** One attempt inside `etherscanV2`: a missing or falsy JSON body throws the parse error. */
  function EtherscanAttempt<T>(reply: FetchReply<T>): (r: Result<T, Option<string>>)
    ensures reply == Reply(None) ==> r == Failure(Some(ParseError))
    ensures reply.Reply? && reply.json.Some? ==> r == Success(reply.json.value)
    ensures reply.Unreachable? ==> r == Failure(Some(reply.message))
  {
    match reply
    case Unreachable(m) => Failure(Some(m))
    case Reply(None) => Failure(Some(ParseError))
    case Reply(Some(j)) => Success(j)
  }

  /** Fetch `i` is the first of the three whose body is JSON. */
  predicate FirstJsonAt<T>(fetch: nat -> FetchReply<T>, i: int) {
    && 0 <= i < 3 && fetch(i).Reply? && fetch(i).json.Some?
    && forall j :: 0 <= j < i ==> !(fetch(j).Reply? && fetch(j).json.Some?)
  }

  /**
   * `etherscanV2(p)`: up to three fetches of `v2url(p)`; `fetch(i)` is the i-th.
   * A body that is not JSON counts as a failed attempt and is retried.
   */
  method EtherscanV2<T>(fetch: nat -> FetchReply<T>) returns (r: Result<T, Option<string>>)
    ensures r.Success? <==> exists i :: 0 <= i < 3 && fetch(i).Reply? && fetch(i).json.Some?
    ensures r.Success? ==> exists i :: FirstJsonAt(fetch, i) && fetch(i) == Reply(Some(r.value))
    ensures r.Failure? ==> r.error == EtherscanAttempt(fetch(2)).error
    ensures fetch(2) == Reply(None) && r.Failure? ==> r.error == Some(ParseError)
  {
    var attempt := (i: nat) => EtherscanAttempt(fetch(i));
    var calls;
    r, calls := WithRetry(attempt, 3);
    if r.Success? {
      assert attempt(calls - 1) == r;
      assert fetch(calls - 1) == Reply(Some(r.value));
      forall j | 0 <= j < calls - 1 ensures !(fetch(j).Reply? && fetch(j).json.Some?) {
        assert attempt(j).Failure?;
      }
      assert FirstJsonAt(fetch, calls - 1);
    } else {
      forall i | 0 <= i < 3 ensures !(fetch(i).Reply? && fetch(i).json.Some?) {
        assert attempt(i).Failure?;
      }
    }
  }

  // ------------------------------------------------------------ prices

  /** The two quotes of a CoinGecko `simple/price` body; None when a path is missing or null. */
  datatype PriceQuote = PriceQuote(ethereumUsd: Option<real>, usdCoinUsd: Option<real>)

  /** The HTTP answer after retries: `ok` status, and the body (None if not JSON or falsy). */
  datatype PriceHttp = PriceHttp(ok: bool, body: Option<PriceQuote>)

  datatype Prices = Prices(eth: real, usdc: real)

  const DefaultPrices: Prices := Prices(0.0, 1.0)

  /** `prices()`: `reply` is None when every fetch attempt threw. */
  function GetPrices(reply: Option<PriceHttp>): (r: Prices)
    ensures reply.None? || !reply.value.ok || reply.value.body.None? ==> r == DefaultPrices
    ensures reply.Some? && reply.value.ok && reply.value.body.Some? ==>
      var q := reply.value.body.value;
      (q.ethereumUsd.Some? ==> r.eth == q.ethereumUsd.value) && (q.ethereumUsd.None? ==> r.eth == 0.0) &&
      (q.usdCoinUsd.Some? ==> r.usdc == q.usdCoinUsd.value) && (q.usdCoinUsd.None? ==> r.usdc == 1.0)
  {
    match reply
    case None => DefaultPrices
    case Some(http) =>
      if !http.ok || http.body.None? then DefaultPrices
      else Prices(http.body.value.ethereumUsd.GetOr(0.0), http.body.value.usdCoinUsd.GetOr(1.0))
  }
}
