/**
 * The protocol discovery script.  It ranks the counterparties of the
 * wallet's successful transactions by frequency and keeps up to twelve
 * externally owned ones as seeds.  It then ranks the destinations of the
 * seeds' successful transactions, examines the first 1000, and files every
 * verified contract under each protocol whose keywords its name or source
 * mentions.  The explorer requests are oracles: `txsOf(a)` is the `txlist`
 * reply for `a`, `check(a)` and `blobOf(a)` the two `getsourcecode` replies,
 * each None when the request throws.
 */
module DiscoverProtocols {
  import opened Wrappers
  import opened Text
  import opened Collections
  import opened Protocols

  const MaxSeeds: nat := 12
  const MaxCandidates: nat := 1000

  const UniswapWords: seq<string> := ["uniswap", "v3swap", "exactinput", "exactoutput"]
  const SushiWords: seq<string> := ["sushi"]
  const PancakeWords: seq<string> := ["pancake"]
  const AerodromeWords: seq<string> := ["aerodrome"]
  const AaveWords: seq<string> := ["aave", "pool", "lending"]
  const LimitlessWords: seq<string> := ["limitless"]
  const StargateWords: seq<string> := ["stargate"]
  const MetamaskWords: seq<string> := ["metamask"]
  const MatchaWords: seq<string> := ["matcha", "0x protocol", "0x exchange", "0x"]

  /** `KEYWORDS`: this script's own list, narrower than the registry's. */
  function DiscoveryKeywords(k: ProtoKey): seq<string> {
    match k
    case Uniswap => UniswapWords
    case Sushi => SushiWords
    case Pancake => PancakeWords
    case Aerodrome => AerodromeWords
    case Aave => AaveWords
    case Limitless => LimitlessWords
    case Stargate => StargateWords
    case Metamask => MetamaskWords
    case Matcha => MatchaWords
  }

  /** `Object.keys(KEYWORDS)` */
  const KeywordKeys: seq<ProtoKey> := [Uniswap, Sushi, Pancake, Aerodrome, Aave, Limitless, Stargate, Metamask, Matcha]

  lemma KeywordKeysComplete(k: ProtoKey)
    ensures k in KeywordKeys
  {
  }

  // ------------------------------------------------------------ matchKeyword

  /** `matchKeyword(s, words)`: some keyword, lower-cased, occurs in the lower-cased `s`. */
  predicate MatchKeyword(s: string, words: seq<string>) {
    exists w :: w in words && Contains(Lower(s), Lower(w))
  }

  /** A keyword occurring verbatim is found, whatever the case of the text around it. */
  lemma MatchKeywordFinds(s: string, words: seq<string>, w: string)
    requires w in words && Contains(s, w)
    ensures MatchKeyword(s, words)
    ensures MatchKeyword(Upper(s), words)
  {
    ContainsLower(s, w);
    assert Lower(Upper(s)) == Lower(s);
  }

  /** Only the letter case-folded text matters. */
  lemma MatchKeywordIgnoresCase(s: string, t: string, words: seq<string>)
    requires Lower(s) == Lower(t)
    ensures MatchKeyword(s, words) <==> MatchKeyword(t, words)
  {
  }

  // ------------------------------------------------------------ transactions

  /** A `txlist` row; a missing field is "" (the script reads `String(t.x || "")`). */
  datatype ListedTx = ListedTx(from: string, to: string, isError: string)

  /** `String(t.isError || "0") === "0"`: a missing flag counts as success. */
  predicate Succeeded(t: ListedTx) {
    t.isError == "" || t.isError == "0"
  }

  /** The other side of a transaction of `me`: `to` when `me` sent it, `from` otherwise. */
  function Counterparty(t: ListedTx, me: string): string {
    if Lower(t.from) == me then Lower(t.to) else Lower(t.from)
  }

  /** The counterparties the neighbour loop counts, in order. */
  function Neighbours(txs: seq<ListedTx>, me: string): seq<string>
    decreases |txs|
  {
    if |txs| == 0 then []
    else
      var t := txs[|txs| - 1];
      Neighbours(txs[..|txs| - 1], me) + (if Succeeded(t) && Counterparty(t, me) != "" then [Counterparty(t, me)] else [])
  }

  /** A neighbour is the non-empty counterparty of a successful transaction. */
  lemma {:induction false} NeighboursMeaning(txs: seq<ListedTx>, me: string, n: string)
    ensures n in Neighbours(txs, me) <==> exists t :: t in txs && Succeeded(t) && Counterparty(t, me) == n && n != ""
    decreases |txs|
  {
    if |txs| > 0 {
      var init := txs[..|txs| - 1];
      NeighboursMeaning(init, me, n);
      assert forall x :: x in txs <==> x in init || x == txs[|txs| - 1];
    }
  }

  lemma NeighboursSnoc(txs: seq<ListedTx>, me: string, j: nat)
    requires j < |txs|
    ensures Neighbours(txs[..j + 1], me) == Neighbours(txs[..j], me) +
      (if Succeeded(txs[j]) && Counterparty(txs[j], me) != "" then [Counterparty(txs[j], me)] else [])
  {
    assert txs[..j + 1][..j] == txs[..j];
  }

  /** The destinations the target loop counts for one seed, in order. */
  function Targets(txs: seq<ListedTx>): seq<string>
    decreases |txs|
  {
    if |txs| == 0 then []
    else
      Targets(txs[..|txs| - 1]) + TargetOf(txs[|txs| - 1])
  }

  /** The target one transaction contributes: its lower-cased `to` when it succeeded and has one. */
  function TargetOf(t: ListedTx): seq<string> {
    if Succeeded(t) && Lower(t.to) != "" then [Lower(t.to)] else []
  }

  /** A target is the non-empty, lower-cased `to` of a successful transaction. */
  lemma {:induction false} TargetsMeaning(txs: seq<ListedTx>, a: string)
    ensures a in Targets(txs) <==> exists t :: t in txs && Succeeded(t) && Lower(t.to) == a && a != ""
    decreases |txs|
  {
    if |txs| > 0 {
      var init := txs[..|txs| - 1];
      TargetsMeaning(init, a);
      assert forall x :: x in txs <==> x in init || x == txs[|txs| - 1];
    }
  }

  lemma TargetsSnoc(txs: seq<ListedTx>, j: nat)
    requires j < |txs|
    ensures Targets(txs[..j + 1]) == Targets(txs[..j]) + TargetOf(txs[j])
  {
    assert txs[..j + 1][..j] == txs[..j];
  }

  // ------------------------------------------------------------ frequency maps

  /** How often each string occurs in `seen`. */
  function FreqMap(seen: seq<string>): (m: map<string, nat>)
    ensures forall x :: x in m <==> x in seen
  {
    map x | x in seen :: multiset(seen)[x]
  }

  /** A `Map` filled while visiting `seen`: its counters and its key insertion order. */
  ghost predicate Tallied(seen: seq<string>, freq: map<string, nat>, order: seq<string>) {
    freq == FreqMap(seen) && order == Distinct(seen)
  }

  /** One more occurrence of `x` adds one to its counter and nothing else. */
  lemma FreqMapSnoc(seen: seq<string>, x: string)
    ensures FreqMap(seen + [x]) == FreqMap(seen)[x := (if x in seen then multiset(seen)[x] else 0) + 1]
  {
    var a, b := FreqMap(seen + [x]), FreqMap(seen)[x := (if x in seen then multiset(seen)[x] else 0) + 1];
    assert multiset(seen + [x]) == multiset(seen) + multiset{x};
    assert a.Keys == b.Keys;
    forall y | y in a ensures a[y] == b[y] {
      if y != x {
        assert y in seen;
      }
    }
  }

  /** A new string goes to the end of the insertion order, a known one stays where it is. */
  lemma DistinctSnoc(seen: seq<string>, x: string)
    ensures Distinct(seen + [x]) == if x in seen then Distinct(seen) else Distinct(seen) + [x]
  {
    assert (seen + [x])[..|seen|] == seen;
  }

  /** `freq.set(x, (freq.get(x) || 0) + 1)` */
  method Count(ghost seen: seq<string>, freq0: map<string, nat>, order0: seq<string>, x: string)
    returns (freq: map<string, nat>, order: seq<string>)
    requires Tallied(seen, freq0, order0)
    ensures Tallied(seen + [x], freq, order)
  {
    FreqMapSnoc(seen, x);
    DistinctSnoc(seen, x);
    if x in freq0 {
      freq, order := freq0[x := freq0[x] + 1], order0;
    } else {
      freq, order := freq0[x := 1], order0 + [x];
    }
  }

  /** The occurrences of `x` the counters record, 0 for a string never seen. */
  function Freq(freq: map<string, nat>, x: string): nat {
    if x in freq then freq[x] else 0
  }

  predicate DescendingFreq(s: seq<string>, freq: map<string, nat>) {
    forall i :: 0 < i < |s| ==> Freq(freq, s[i - 1]) >= Freq(freq, s[i])
  }

  /** Insert `x` after every element counted at least as often. */
  function InsertByFreq(x: string, s: seq<string>, freq: map<string, nat>): (r: seq<string>)
    requires DescendingFreq(s, freq)
    ensures DescendingFreq(r, freq)
    ensures multiset(r) == multiset(s) + multiset{x}
    ensures |r| > 0 && (r[0] == x || (|s| > 0 && r[0] == s[0]))
    decreases |s|
  {
    if |s| == 0 then [x]
    else if Freq(freq, x) > Freq(freq, s[0]) then [x] + s
    else
      DescendingTail(s, freq);
      var rest := InsertByFreq(x, s[1..], freq);
      InsertBehind(x, s, freq, rest);
      [s[0]] + rest
  }

  lemma DescendingTail(s: seq<string>, freq: map<string, nat>)
    requires |s| > 0 && DescendingFreq(s, freq)
    ensures DescendingFreq(s[1..], freq)
  {
    var tail := s[1..];
    forall i | 0 < i < |tail| ensures Freq(freq, tail[i - 1]) >= Freq(freq, tail[i]) {
      assert tail[i - 1] == s[i] && tail[i] == s[i + 1];
    }
  }

  /** Keeping the head and inserting behind it keeps the order and adds `x`. */
  lemma InsertBehind(x: string, s: seq<string>, freq: map<string, nat>, rest: seq<string>)
    requires |s| > 0 && DescendingFreq(s, freq) && Freq(freq, x) <= Freq(freq, s[0])
    requires DescendingFreq(rest, freq)
    requires multiset(rest) == multiset(s[1..]) + multiset{x}
    requires |rest| > 0 && (rest[0] == x || (|s[1..]| > 0 && rest[0] == s[1..][0]))
    ensures DescendingFreq([s[0]] + rest, freq)
    ensures multiset([s[0]] + rest) == multiset(s) + multiset{x}
  {
    var r := [s[0]] + rest;
    assert s == [s[0]] + s[1..];
    forall i | 0 < i < |r| ensures Freq(freq, r[i - 1]) >= Freq(freq, r[i]) {
      if i == 1 {
        if rest[0] != x {
          assert rest[0] == s[1];
        }
      } else {
        assert r[i - 1] == rest[i - 2] && r[i] == rest[i - 1];
      }
    }
  }

  /**
   * `keys.sort((a, b) => freq.get(b) - freq.get(a))`: a stable sort, most
   * frequent first, and a permutation of `keys`.
   */
  function RankByFreq(keys: seq<string>, freq: map<string, nat>): (r: seq<string>)
    ensures DescendingFreq(r, freq)
    ensures multiset(r) == multiset(keys)
    decreases |keys|
  {
    if |keys| == 0 then []
    else
      assert keys == keys[..|keys| - 1] + [keys[|keys| - 1]];
      InsertByFreq(keys[|keys| - 1], RankByFreq(keys[..|keys| - 1], freq), freq)
  }

  /** Keys counted exactly `f` times. */
  function AtFreq(freq: map<string, nat>, f: nat): string -> bool {
    x => Freq(freq, x) == f
  }

  /** In a list by non-increasing count, an earlier key is counted at least as often as a later one. */
  lemma {:induction false} DescendingAt(s: seq<string>, freq: map<string, nat>, i: nat, j: nat)
    requires DescendingFreq(s, freq) && i <= j < |s|
    ensures Freq(freq, s[i]) >= Freq(freq, s[j])
    decreases j - i
  {
    if i < j {
      DescendingAt(s, freq, i + 1, j);
    }
  }

  /** No key of a list headed by a less frequent key is counted `f` times. */
  lemma NoneAtFreq(s: seq<string>, freq: map<string, nat>, f: nat)
    requires |s| > 0 && DescendingFreq(s, freq) && Freq(freq, s[0]) < f
    ensures Filter(s, AtFreq(freq, f)) == []
  {
    var r := Filter(s, AtFreq(freq, f));
    if r != [] {
      assert r[0] in s;
      var j :| 0 <= j < |s| && s[j] == r[0];
      DescendingAt(s, freq, 0, j);
    }
  }

  /** `x` goes behind every key already counted as often as it is. */
  lemma {:induction false} InsertByFreqStable(x: string, s: seq<string>, freq: map<string, nat>, f: nat)
    requires DescendingFreq(s, freq)
    ensures Filter(InsertByFreq(x, s, freq), AtFreq(freq, f)) ==
            Filter(s, AtFreq(freq, f)) + (if Freq(freq, x) == f then [x] else [])
    decreases |s|
  {
    var p := AtFreq(freq, f);
    if |s| == 0 {
      assert [x][..0] == [];
    } else if Freq(freq, x) > Freq(freq, s[0]) {
      FilterCons(x, s, p);
      if Freq(freq, x) == f {
        NoneAtFreq(s, freq, f);
      }
    } else {
      DescendingTail(s, freq);
      InsertByFreqStable(x, s[1..], freq, f);
      InsertBehindStable(x, s, freq, f);
    }
  }

  /** Inserting behind the head leaves the head in front. */
  lemma InsertBehindHead(x: string, s: seq<string>, freq: map<string, nat>)
    requires |s| > 0 && DescendingFreq(s, freq) && Freq(freq, x) <= Freq(freq, s[0])
    requires DescendingFreq(s[1..], freq)
    ensures InsertByFreq(x, s, freq) == [s[0]] + InsertByFreq(x, s[1..], freq)
  {
  }

  /** Filtering splits off the head. */
  lemma FilterHead(s: seq<string>, p: string -> bool)
    requires |s| > 0
    ensures Filter(s, p) == (if p(s[0]) then [s[0]] else []) + Filter(s[1..], p)
  {
    FilterCons(s[0], s[1..], p);
    assert s == [s[0]] + s[1..];
  }

  /** The filter step of `InsertByFreqStable` when `x` goes behind the head. */
  lemma InsertBehindStable(x: string, s: seq<string>, freq: map<string, nat>, f: nat)
    requires |s| > 0 && DescendingFreq(s, freq) && Freq(freq, x) <= Freq(freq, s[0])
    requires DescendingFreq(s[1..], freq)
    requires Filter(InsertByFreq(x, s[1..], freq), AtFreq(freq, f)) ==
             Filter(s[1..], AtFreq(freq, f)) + (if Freq(freq, x) == f then [x] else [])
    ensures Filter(InsertByFreq(x, s, freq), AtFreq(freq, f)) ==
            Filter(s, AtFreq(freq, f)) + (if Freq(freq, x) == f then [x] else [])
  {
    var p := AtFreq(freq, f);
    var r := InsertByFreq(x, s, freq);
    InsertBehindHead(x, s, freq);
    FilterHead(r, p);
    FilterHead(s, p);
    assert r[0] == s[0] && r[1..] == InsertByFreq(x, s[1..], freq);
    ConcatAssoc(if p(s[0]) then [s[0]] else [], Filter(s[1..], p), if Freq(freq, x) == f then [x] else []);
  }

  /**
   * The sort is stable: keys counted equally often keep the order they have
   * in `keys`.
   */
  lemma {:induction false} RankByFreqStable(keys: seq<string>, freq: map<string, nat>)
    ensures forall f :: Filter(RankByFreq(keys, freq), AtFreq(freq, f)) == Filter(keys, AtFreq(freq, f))
    decreases |keys|
  {
    if |keys| > 0 {
      var init, last := keys[..|keys| - 1], keys[|keys| - 1];
      RankByFreqStable(init, freq);
      assert keys == init + [last];
      forall f ensures Filter(RankByFreq(keys, freq), AtFreq(freq, f)) == Filter(keys, AtFreq(freq, f)) {
        InsertByFreqStable(last, RankByFreq(init, freq), freq, f);
        FilterSnoc(init, last, AtFreq(freq, f));
      }
    }
  }

  /** The keys of a tally, most frequent first. */
  function Ranked(seen: seq<string>): seq<string> {
    RankByFreq(Distinct(seen), FreqMap(seen))
  }

  /** The ranking lists every string seen exactly once, and by non-increasing count. */
  lemma RankedFacts(seen: seq<string>)
    ensures NoDuplicates(Ranked(seen))
    ensures forall x :: x in Ranked(seen) <==> x in seen
    ensures forall i :: 0 < i < |Ranked(seen)| ==>
      multiset(seen)[Ranked(seen)[i - 1]] >= multiset(seen)[Ranked(seen)[i]]
  {
    var r := Ranked(seen);
    NoDuplicatesPermutation(Distinct(seen), r);
    forall x ensures x in r <==> x in Distinct(seen) {
      assert x in r <==> x in multiset(r);
    }
    forall i | 0 < i < |r| ensures multiset(seen)[r[i - 1]] >= multiset(seen)[r[i]] {
      assert r[i - 1] in multiset(r) && r[i] in multiset(r);
    }
  }

  // ------------------------------------------------------------ seeds

  /** A `getsourcecode` reply's first row; a missing row or field is "". */
  datatype SourceRow = SourceRow(contractName: string, sourceCode: string)

  /** `isContract`: the row has a non-blank contract name or source. */
  predicate HasSource(row: SourceRow) {
    Trim(row.contractName) != "" || Trim(row.sourceCode) != ""
  }

  /** The check answered, and found no verified source. */
  predicate IsEoa(check: string -> Option<SourceRow>, a: string) {
    check(a).Some? && !HasSource(check(a).value)
  }

  /** The candidates the seed loop would push, in order. */
  function Eoas(ns: seq<string>, check: string -> Option<SourceRow>): seq<string>
    decreases |ns|
  {
    if |ns| == 0 then []
    else
      var n := ns[|ns| - 1];
      Eoas(ns[..|ns| - 1], check) + (if IsEoa(check, n) then [n] else [])
  }

  lemma {:induction false} EoasMeaning(ns: seq<string>, check: string -> Option<SourceRow>)
    ensures forall x :: x in Eoas(ns, check) <==> x in ns && IsEoa(check, x)
    decreases |ns|
  {
    if |ns| > 0 {
      var init := ns[..|ns| - 1];
      EoasMeaning(init, check);
      assert forall x :: x in ns <==> x in init || x == ns[|ns| - 1];
    }
  }

  lemma {:induction false} EoasAppend(a: seq<string>, b: seq<string>, check: string -> Option<SourceRow>)
    ensures Eoas(a + b, check) == Eoas(a, check) + Eoas(b, check)
    decreases |b|
  {
    if |b| == 0 {
      assert a + b == a;
    } else {
      var b', x := b[..|b| - 1], b[|b| - 1];
      EoasAppend(a, b', check);
      EoasAppendStep(a, b', x, check);
      LastSplit(b);
    }
  }

  /** Appending one more candidate to both sides keeps the split. */
  lemma EoasAppendStep(a: seq<string>, b: seq<string>, x: string, check: string -> Option<SourceRow>)
    requires Eoas(a + b, check) == Eoas(a, check) + Eoas(b, check)
    ensures Eoas(a + (b + [x]), check) == Eoas(a, check) + Eoas(b + [x], check)
  {
    var ex := if IsEoa(check, x) then [x] else [];
    assert a + (b + [x]) == (a + b) + [x];
    EoasSnoc(a + b, x, check);
    EoasSnoc(b, x, check);
    AppendAssoc(Eoas(a, check), Eoas(b, check), ex);
  }

  /**
   * The seeds: the wallet itself, then the not-yet-listed externally owned
   * neighbours in rank order, twelve at most.
   */
  function SeedsOf(me: string, myTxs: seq<ListedTx>, check: string -> Option<SourceRow>): seq<string> {
    Take(Distinct([me] + Eoas(Ranked(Neighbours(myTxs, me)), check)), MaxSeeds)
  }

  /** Once twelve seeds are found, later candidates change nothing. */
  lemma SeedsSaturate(me: string, pre: seq<string>, rest: seq<string>, check: string -> Option<SourceRow>)
    requires |Distinct([me] + Eoas(pre, check))| >= MaxSeeds
    ensures Take(Distinct([me] + Eoas(pre + rest, check)), MaxSeeds) == Distinct([me] + Eoas(pre, check))[..MaxSeeds]
  {
    var a, e := [me] + Eoas(pre, check), Eoas(rest, check);
    EoasAppend(pre, rest, check);
    assert [me] + Eoas(pre + rest, check) == a + e;
    DistinctPrefix(a, e);
    var d, d' := Distinct(a), Distinct(a + e);
    assert d'[..MaxSeeds] == d[..MaxSeeds];
  }

  /** The seed list that first reaches twelve is the final one. */
  lemma SeedsStop(me: string, prelim: seq<string>, i: nat, check: string -> Option<SourceRow>)
    requires i < |prelim| && |Distinct([me] + Eoas(prelim[..i + 1], check))| == MaxSeeds
    ensures Take(Distinct([me] + Eoas(prelim, check)), MaxSeeds) == Distinct([me] + Eoas(prelim[..i + 1], check))
  {
    SeedsSaturate(me, prelim[..i + 1], prelim[i + 1..], check);
    assert prelim[..i + 1] + prelim[i + 1..] == prelim;
  }

  /** The neighbour loop: `neighborFreq` and the order its keys were inserted in. */
  method NeighbourFreq(me: string, myTxs: seq<ListedTx>) returns (freq: map<string, nat>, order: seq<string>)
    ensures Tallied(Neighbours(myTxs, me), freq, order)
  {
    freq, order := map[], [];
    for j := 0 to |myTxs|
      invariant Tallied(Neighbours(myTxs[..j], me), freq, order)
    {
      ghost var seen := Neighbours(myTxs[..j], me);
      NeighboursSnoc(myTxs, me, j);
      var t := myTxs[j];
      var other := Counterparty(t, me);
      if !Succeeded(t) || other == "" {
        assert Neighbours(myTxs[..j + 1], me) == seen + [];
        assert seen + [] == seen;
        continue;
      }
      assert Neighbours(myTxs[..j + 1], me) == seen + [other];
      freq, order := Count(seen, freq, order, other);
    }
    assert myTxs[..|myTxs|] == myTxs;
  }

  /** One more candidate: it joins the seeds when it is externally owned and new. */
  lemma SeedStep(me: string, pre: seq<string>, n: string, check: string -> Option<SourceRow>)
    ensures Distinct([me] + Eoas(pre + [n], check)) ==
      if IsEoa(check, n) && n !in Distinct([me] + Eoas(pre, check))
      then Distinct([me] + Eoas(pre, check)) + [n]
      else Distinct([me] + Eoas(pre, check))
  {
    SeedListSnoc(me, pre, n, check);
    DistinctMaybeSnoc([me] + Eoas(pre, check), n, IsEoa(check, n));
  }

  lemma SeedListSnoc(me: string, pre: seq<string>, n: string, check: string -> Option<SourceRow>)
    ensures [me] + Eoas(pre + [n], check) == [me] + Eoas(pre, check) + (if IsEoa(check, n) then [n] else [])
  {
    EoasSnoc(pre, n, check);
    AppendAssoc([me], Eoas(pre, check), if IsEoa(check, n) then [n] else []);
  }

  lemma DistinctMaybeSnoc(a: seq<string>, n: string, add: bool)
    ensures Distinct(a + (if add then [n] else [])) ==
      if add && n !in Distinct(a) then Distinct(a) + [n] else Distinct(a)
  {
    if add {
      DistinctSnoc(a, n);
    } else {
      assert a + [] == a;
    }
  }

  lemma EoasSnoc(pre: seq<string>, n: string, check: string -> Option<SourceRow>)
    ensures Eoas(pre + [n], check) == Eoas(pre, check) + (if IsEoa(check, n) then [n] else [])
  {
    assert (pre + [n])[..|pre|] == pre;
  }

  /** One neighbour's turn: an externally owned one not yet among the seeds is pushed. */
  method ConsiderSeed(ghost me: string, ghost pre: seq<string>, n: string, ic: Option<SourceRow>,
                      ghost check: string -> Option<SourceRow>, seeds: seq<string>) returns (next: seq<string>)
    requires ic == check(n)
    requires seeds == Distinct([me] + Eoas(pre, check))
    ensures next == Distinct([me] + Eoas(pre + [n], check))
    ensures ic.None? ==> next == seeds
    ensures |next| <= |seeds| + 1
  {
    SeedStep(me, pre, n, check);
    next := seeds;
    if ic.Some? {
      if !HasSource(ic.value) && n !in seeds {
        next := seeds + [n];
      }
    }
  }

  /** The seed loop over the ranked neighbours, stopping at twelve. */
  method PickSeeds(me: string, prelim: seq<string>, check: string -> Option<SourceRow>) returns (seeds: seq<string>)
    ensures seeds == Take(Distinct([me] + Eoas(prelim, check)), MaxSeeds)
  {
    seeds := [me];
    assert Eoas(prelim[..0], check) == [];
    assert Distinct([me]) == [me];
    var i := 0;
    while i < |prelim|
      invariant i <= |prelim|
      invariant seeds == Distinct([me] + Eoas(prelim[..i], check))
      invariant |seeds| < MaxSeeds
    {
      var n := prelim[i];
      PrefixSnoc(prelim, i);
      var ic := check(n);
      seeds := ConsiderSeed(me, prelim[..i], n, ic, check, seeds);
      if ic.Some? && |seeds| >= MaxSeeds {
        SeedsStop(me, prelim, i, check);
        break;
      }
      i := i + 1;
    }
    if i == |prelim| {
      assert prelim[..i] == prelim;
    }
  }

  /** `buildSeedsFromMyWallet`, after its `txlist` request answered `myTxs`. */
  method SeedsFrom(me: string, myTxs: seq<ListedTx>, check: string -> Option<SourceRow>) returns (seeds: seq<string>)
    ensures seeds == SeedsOf(me, myTxs, check)
  {
    var freq, order := NeighbourFreq(me, myTxs);
    var prelim := RankByFreq(order, freq);
    seeds := PickSeeds(me, prelim, check);
  }

  /** `buildSeedsFromMyWallet()`: an unset wallet or a failed `txlist` request throws. */
  method BuildSeeds(me: string, txsOf: string -> Option<seq<ListedTx>>, check: string -> Option<SourceRow>)
    returns (r: Result<seq<string>, string>)
    ensures r.Failure? <==> me == "" || txsOf(me).None?
    ensures r.Success? ==> r.value == SeedsOf(me, txsOf(me).value, check)
  {
    if me == "" {
      return Failure("MY_WALLET is not set");
    }
    var myTxs := txsOf(me);
    if myTxs.None? {
      return Failure("txlist request failed");
    }
    var seeds := SeedsFrom(me, myTxs.value, check);
    return Success(seeds);
  }

  /** The ranked externally owned neighbours are exactly the externally owned neighbours. */
  lemma RankedEoas(ns: seq<string>, check: string -> Option<SourceRow>)
    ensures forall x :: x in Eoas(Ranked(ns), check) <==> x in ns && IsEoa(check, x)
  {
    RankedFacts(ns);
    EoasMeaning(Ranked(ns), check);
  }

  /**
   * The seeds begin with the wallet, hold no duplicates and are at most
   * twelve; every other seed is a neighbour the check found externally
   * owned; and while fewer than twelve, every such neighbour is a seed.
   */
  lemma SeedsFacts(me: string, myTxs: seq<ListedTx>, check: string -> Option<SourceRow>)
    ensures var s := SeedsOf(me, myTxs, check);
      && |s| <= MaxSeeds && |s| > 0 && s[0] == me && NoDuplicates(s)
      && (forall x :: x in s && x != me ==> x in Neighbours(myTxs, me) && IsEoa(check, x))
      && (|s| < MaxSeeds ==> forall n :: n in Neighbours(myTxs, me) && IsEoa(check, n) ==> n in s)
    ensures var s, ns := SeedsOf(me, myTxs, check), Neighbours(myTxs, me);
      forall x, n :: x in s && x != me && n in ns && IsEoa(check, n) && n !in s ==> multiset(ns)[x] >= multiset(ns)[n]
  {
    SeedsLeftOut(me, myTxs, check);
    var ns := Neighbours(myTxs, me);
    var all := [me] + Eoas(Ranked(ns), check);
    var d := Distinct(all);
    var s := SeedsOf(me, myTxs, check);
    RankedEoas(ns, check);
    DistinctPrefix([me], Eoas(Ranked(ns), check));
    assert Distinct([me]) == [me];
    assert s == d[..|s|];
    forall x | x in s && x != me ensures x in ns && IsEoa(check, x) {
      assert x in d;
      assert x in all;
    }
    if |s| < MaxSeeds {
      forall n | n in ns && IsEoa(check, n) ensures n in s {
        assert n in all;
      }
    }
  }

  lemma DescendingInit(s: seq<string>, freq: map<string, nat>)
    requires |s| > 0 && DescendingFreq(s, freq)
    ensures DescendingFreq(s[..|s| - 1], freq)
  {
    var init := s[..|s| - 1];
    forall i | 0 < i < |init| ensures Freq(freq, init[i - 1]) >= Freq(freq, init[i]) {
      assert init[i - 1] == s[i - 1] && init[i] == s[i];
    }
  }

  lemma DescendingSnoc(s: seq<string>, y: string, freq: map<string, nat>)
    requires DescendingFreq(s, freq)
    requires |s| > 0 ==> Freq(freq, s[|s| - 1]) >= Freq(freq, y)
    ensures DescendingFreq(s + [y], freq)
  {
    var r := s + [y];
    forall i | 0 < i < |r| ensures Freq(freq, r[i - 1]) >= Freq(freq, r[i]) {
      if i < |s| {
        assert r[i - 1] == s[i - 1] && r[i] == s[i];
      }
    }
  }

  /** Keeping some keys of a list by non-increasing count keeps the order. */
  lemma {:induction false} FilterDescending(s: seq<string>, freq: map<string, nat>, p: string -> bool)
    requires DescendingFreq(s, freq)
    ensures DescendingFreq(Filter(s, p), freq)
    decreases |s|
  {
    if |s| > 0 {
      var init, last := s[..|s| - 1], s[|s| - 1];
      DescendingInit(s, freq);
      FilterDescending(init, freq, p);
      var e := Filter(init, p);
      if p(last) {
        if |e| > 0 {
          assert e[|e| - 1] in init;
          var k :| 0 <= k < |init| && init[k] == e[|e| - 1];
          DescendingAt(s, freq, k, |s| - 1);
        }
        DescendingSnoc(e, last, freq);
      }
    }
  }

  function EoaTest(check: string -> Option<SourceRow>): string -> bool {
    a => IsEoa(check, a)
  }

  /** The seed candidates are the neighbours the check found externally owned, in order. */
  lemma {:induction false} EoasFilter(ns: seq<string>, check: string -> Option<SourceRow>)
    ensures Eoas(ns, check) == Filter(ns, EoaTest(check))
    decreases |ns|
  {
    if |ns| > 0 {
      EoasFilter(ns[..|ns| - 1], check);
    }
  }

  /**
   * Once there are twelve seeds, a neighbour the check found externally owned
   * but left out is counted no more often than any seed besides the wallet.
   */
  lemma SeedsLeftOut(me: string, myTxs: seq<ListedTx>, check: string -> Option<SourceRow>)
    ensures var s, ns := SeedsOf(me, myTxs, check), Neighbours(myTxs, me);
      forall x, n :: x in s && x != me && n in ns && IsEoa(check, n) && n !in s ==> multiset(ns)[x] >= multiset(ns)[n]
  {
    var ns := Neighbours(myTxs, me);
    RankedEoasDistinct(ns, check);
    RankedSeedsLeftOut(me, ns, check, SeedsOf(me, myTxs, check));
  }

  /** `SeedsLeftOut` for any list of neighbours. */
  lemma RankedSeedsLeftOut(me: string, ns: seq<string>, check: string -> Option<SourceRow>, s: seq<string>)
    requires NoDuplicates(Eoas(Ranked(ns), check))
    requires s == Take(Distinct([me] + Eoas(Ranked(ns), check)), MaxSeeds)
    ensures forall x, n :: x in s && x != me && n in ns && IsEoa(check, n) && n !in s ==> multiset(ns)[x] >= multiset(ns)[n]
  {
    var r := Ranked(ns);
    var e := Eoas(r, check);
    var f := Filter(e, NotMe(me));
    SeedsBehind(me, e, MaxSeeds);
    var k := |s| - 1;
    RankedEoas(ns, check);
    EoasFilter(r, check);
    FilterDescending(r, FreqMap(ns), EoaTest(check));
    FilterDescending(e, FreqMap(ns), NotMe(me));
    forall x, n | x in s && x != me && n in ns && IsEoa(check, n) && n !in s
      ensures multiset(ns)[x] >= multiset(ns)[n]
    {
      assert x in f[..k] && x in f;
      assert n in f && n !in f[..k];
      PrefixBeatsRest(f, FreqMap(ns), k, x, n);
    }
  }

  /** The externally owned neighbours are ranked without duplicates. */
  lemma RankedEoasDistinct(ns: seq<string>, check: string -> Option<SourceRow>)
    ensures NoDuplicates(Eoas(Ranked(ns), check))
  {
    var r := Ranked(ns);
    RankedFacts(ns);
    EoasFilter(r, check);
    FilterNoDuplicates(r, EoaTest(check));
  }

  /** The first `n` seeds are the wallet followed by the first other candidates. */
  lemma SeedsBehind(me: string, e: seq<string>, n: nat)
    requires NoDuplicates(e)
    ensures var s := Take(Distinct([me] + e), n);
      n > 0 ==> |s| > 0 && |s| - 1 <= |Filter(e, NotMe(me))| && s == [me] + Filter(e, NotMe(me))[..|s| - 1]
  {
    DistinctBehind(me, e);
    var s := Take(Distinct([me] + e), n);
    if n > 0 {
      var f := Filter(e, NotMe(me));
      assert s == ([me] + f)[..|s|];
      assert ([me] + f)[..|s|] == [me] + f[..|s| - 1];
    }
  }

  /** Every entry but the wallet. */
  function NotMe(me: string): string -> bool {
    a => a != me
  }

  /** Prepending the wallet to a list without duplicates drops only its later occurrence. */
  lemma {:induction false} DistinctBehind(me: string, e: seq<string>)
    requires NoDuplicates(e)
    ensures Distinct([me] + e) == [me] + Filter(e, NotMe(me))
    decreases |e|
  {
    if |e| == 0 {
      assert [me] + e == [me];
      assert Distinct([me]) == [me];
    } else {
      var init, y := e[..|e| - 1], e[|e| - 1];
      NoDuplicatesInit(e);
      DistinctBehind(me, init);
      DistinctStep(me, init, y);
      assert e == init + [y];
    }
  }

  /** A list without duplicates: so is its front, and its last entry is not in it. */
  lemma NoDuplicatesInit(e: seq<string>)
    requires |e| > 0 && NoDuplicates(e)
    ensures NoDuplicates(e[..|e| - 1]) && e[|e| - 1] !in e[..|e| - 1]
  {
    var init := e[..|e| - 1];
    forall i, j | 0 <= i < j < |init| ensures init[i] != init[j] {
      assert init[i] == e[i] && init[j] == e[j];
    }
    forall k | 0 <= k < |init| ensures init[k] != e[|e| - 1] {
      assert init[k] == e[k];
    }
  }

  /** One more entry in `DistinctBehind`. */
  lemma DistinctStep(me: string, init: seq<string>, y: string)
    requires y !in init
    requires Distinct([me] + init) == [me] + Filter(init, NotMe(me))
    ensures Distinct([me] + (init + [y])) == [me] + Filter(init + [y], NotMe(me))
  {
    if y == me {
      DistinctStepWallet(me, init);
    } else {
      DistinctStepOther(me, init, y);
    }
  }

  lemma DistinctStepWallet(me: string, init: seq<string>)
    requires Distinct([me] + init) == [me] + Filter(init, NotMe(me))
    ensures Distinct([me] + (init + [me])) == [me] + Filter(init + [me], NotMe(me))
  {
    var a := [me] + init;
    calc {
      Distinct([me] + (init + [me]));
      { assert [me] + (init + [me]) == a + [me]; }
      Distinct(a + [me]);
      { assert a[0] == me; DistinctSnoc(a, me); }
      Distinct(a);
      [me] + Filter(init, NotMe(me));
      { FilterSnoc(init, me, NotMe(me)); }
      [me] + Filter(init + [me], NotMe(me));
    }
  }

  lemma DistinctStepOther(me: string, init: seq<string>, y: string)
    requires y !in init && y != me
    requires Distinct([me] + init) == [me] + Filter(init, NotMe(me))
    ensures Distinct([me] + (init + [y])) == [me] + Filter(init + [y], NotMe(me))
  {
    var fi := Filter(init, NotMe(me));
    DistinctSnocNew(me, init, y);
    FilterSnocOther(me, init, y);
    ConcatAssoc([me], fi, [y]);
    ConcatAssoc([me], init, [y]);
  }

  lemma DistinctSnocNew(me: string, init: seq<string>, y: string)
    requires y !in init && y != me
    ensures Distinct([me] + init + [y]) == Distinct([me] + init) + [y]
  {
    var a := [me] + init;
    assert y !in a;
    DistinctSnoc(a, y);
  }

  lemma FilterSnocOther(me: string, init: seq<string>, y: string)
    requires y != me
    ensures Filter(init + [y], NotMe(me)) == Filter(init, NotMe(me)) + [y]
  {
    FilterSnoc(init, y, NotMe(me));
  }

  /** In a list by non-increasing count, a key in a prefix is counted at least as often as one beyond it. */
  lemma PrefixBeatsRest(f: seq<string>, freq: map<string, nat>, k: nat, x: string, n: string)
    requires DescendingFreq(f, freq) && k <= |f|
    requires x in f[..k] && n in f && n !in f[..k]
    ensures Freq(freq, x) >= Freq(freq, n)
  {
    var i :| 0 <= i < k && f[..k][i] == x;
    var j :| 0 <= j < |f| && f[j] == n;
    DescendingAt(f, freq, i, j);
  }
  // ------------------------------------------------------------ discovery

  /** Every seed's `txlist` reply, or None when one of the requests throws. */
  function SeedTxs(seeds: seq<string>, txsOf: string -> Option<seq<ListedTx>>): Option<seq<seq<ListedTx>>>
    decreases |seeds|
  {
    if |seeds| == 0 then Some([])
    else
      var init := SeedTxs(seeds[..|seeds| - 1], txsOf);
      var last := txsOf(seeds[|seeds| - 1]);
      if init.None? || last.None? then None else Some(init.value + [last.value])
  }

  lemma SeedTxsFails(seeds: seq<string>, txsOf: string -> Option<seq<ListedTx>>)
    ensures SeedTxs(seeds, txsOf).None? <==> exists a :: a in seeds && txsOf(a).None?
  {
    if |seeds| > 0 {
      SeedTxsFails(seeds[..|seeds| - 1], txsOf);
      assert forall a :: a in seeds <==> a in seeds[..|seeds| - 1] || a == seeds[|seeds| - 1];
    }
  }

  /** The destinations counted over all seeds, seed by seed. */
  function AllTargets(lists: seq<seq<ListedTx>>): seq<string>
    decreases |lists|
  {
    if |lists| == 0 then [] else AllTargets(lists[..|lists| - 1]) + Targets(lists[|lists| - 1])
  }

  /** `candidates.slice(0, 1000)` */
  function CandidatesOf(targets: seq<string>): seq<string> {
    Take(Ranked(targets), MaxCandidates)
  }

  /**
   * As many candidates as there are distinct destinations, up to 1000, each a
   * counted destination, listed once, most frequent first; none is left out
   * when there are at most 1000, and one left out is counted no more often
   * than the last candidate.
   */
  lemma CandidatesFacts(targets: seq<string>)
    ensures var c := CandidatesOf(targets);
      && |c| == (if |Distinct(targets)| <= MaxCandidates then |Distinct(targets)| else MaxCandidates)
      && NoDuplicates(c)
      && (forall x :: x in c ==> x in targets)
      && (forall i :: 0 < i < |c| ==> multiset(targets)[c[i - 1]] >= multiset(targets)[c[i]])
    ensures |Distinct(targets)| <= MaxCandidates ==> forall x :: x in targets ==> x in CandidatesOf(targets)
    ensures var c := CandidatesOf(targets);
      forall x :: x in targets && x !in c ==> |c| > 0 && multiset(targets)[c[|c| - 1]] >= multiset(targets)[x]
  {
    CandidatesShape(targets);
    CandidatesLeftOut(targets);
  }

  /** The size, the members and the order of the candidates. */
  lemma CandidatesShape(targets: seq<string>)
    ensures var c := CandidatesOf(targets);
      && |c| == (if |Distinct(targets)| <= MaxCandidates then |Distinct(targets)| else MaxCandidates)
      && NoDuplicates(c)
      && (forall x :: x in c ==> x in targets)
      && (forall i :: 0 < i < |c| ==> multiset(targets)[c[i - 1]] >= multiset(targets)[c[i]])
  {
    var r := Ranked(targets);
    RankedFacts(targets);
    var c := CandidatesOf(targets);
    assert c == r[..|c|];
    forall i | 0 < i < |c| ensures multiset(targets)[c[i - 1]] >= multiset(targets)[c[i]] {
      assert c[i - 1] == r[i - 1] && c[i] == r[i];
    }
    assert |r| == |Distinct(targets)| by {
      assert |multiset(r)| == |multiset(Distinct(targets))|;
    }
  }

  /**
   * No destination is left out of the candidates when there are at most 1000;
   * one left out is counted no more often than the last candidate.
   */
  lemma CandidatesLeftOut(targets: seq<string>)
    ensures |Distinct(targets)| <= MaxCandidates ==> forall x :: x in targets ==> x in CandidatesOf(targets)
    ensures var c := CandidatesOf(targets);
      forall x :: x in targets && x !in c ==> |c| > 0 && multiset(targets)[c[|c| - 1]] >= multiset(targets)[x]
  {
    var r := Ranked(targets);
    var c := CandidatesOf(targets);
    RankedFacts(targets);
    assert c == r[..|c|];
    assert |r| == |Distinct(targets)| by {
      assert |multiset(r)| == |multiset(Distinct(targets))|;
    }
    forall x | x in targets && x !in c
      ensures |c| > 0 && multiset(targets)[c[|c| - 1]] >= multiset(targets)[x]
    {
      assert x in r;
      LeftOutNoMoreFrequent(r, FreqMap(targets), |c|, x);
      assert c[|c| - 1] == r[|c| - 1];
    }
  }

  /** A key left out of a prefix of a list by non-increasing count is counted no more often than the prefix's last key. */
  lemma LeftOutNoMoreFrequent(r: seq<string>, freq: map<string, nat>, k: nat, x: string)
    requires DescendingFreq(r, freq) && 0 < k <= |r| && x in r && x !in r[..k]
    ensures Freq(freq, r[k - 1]) >= Freq(freq, x)
  {
    var j :| 0 <= j < |r| && r[j] == x;
    DescendingAt(r, freq, k - 1, j);
  }

  /** The `getsourcecode` blob: contract name, a space, source code. */
  function Blob(row: SourceRow): string {
    row.contractName + " " + row.sourceCode
  }

  /** An address filed under `k`: a verified contract whose blob mentions a keyword of `k`. */
  predicate Qualifies(check: string -> Option<SourceRow>, blobOf: string -> Option<SourceRow>, a: string, k: ProtoKey) {
    && check(a).Some? && HasSource(check(a).value)
    && blobOf(a).Some? && MatchKeyword(Blob(blobOf(a).value), DiscoveryKeywords(k))
  }

  /** `out[k]` after the candidates `addrs`: each qualifying address pushed once. */
  function Filed(addrs: seq<string>, check: string -> Option<SourceRow>, blobOf: string -> Option<SourceRow>,
                 k: ProtoKey): (r: seq<string>)
    ensures NoDuplicates(r)
    ensures forall a :: a in r <==> a in addrs && Qualifies(check, blobOf, a, k)
    decreases |addrs|
  {
    if |addrs| == 0 then []
    else
      var init, a := addrs[..|addrs| - 1], addrs[|addrs| - 1];
      assert forall x :: x in addrs <==> x in init || x == a;
      var r := Filed(init, check, blobOf, k);
      if Qualifies(check, blobOf, a, k) && a !in r then r + [a] else r
  }

  lemma FiledSnoc(addrs: seq<string>, i: nat, check: string -> Option<SourceRow>,
                  blobOf: string -> Option<SourceRow>, k: ProtoKey)
    requires i < |addrs|
    ensures Filed(addrs[..i + 1], check, blobOf, k) ==
      var r := Filed(addrs[..i], check, blobOf, k);
      if Qualifies(check, blobOf, addrs[i], k) && addrs[i] !in r then r + [addrs[i]] else r
  {
    assert addrs[..i + 1][..i] == addrs[..i];
  }

  lemma KeywordKeysDistinct(j: nat)
    requires j < |KeywordKeys|
    ensures KeywordKeys[j] !in KeywordKeys[..j]
  {
  }

  /** `out` after the protocols `KeywordKeys[..j]` had their turn for `addr`. */
  ghost predicate PushedUpTo(out0: map<ProtoKey, seq<string>>, out: map<ProtoKey, seq<string>>,
                             addr: string, blob: string, j: nat)
    requires j <= |KeywordKeys|
    requires forall k :: k in out0
  {
    forall k :: k in out && out[k] ==
                  if k in KeywordKeys[..j] && MatchKeyword(blob, DiscoveryKeywords(k)) && addr !in out0[k]
                  then out0[k] + [addr] else out0[k]
  }

  lemma PushStep(out0: map<ProtoKey, seq<string>>, prev: map<ProtoKey, seq<string>>, out: map<ProtoKey, seq<string>>,
                 addr: string, blob: string, j: nat)
    requires j < |KeywordKeys| && forall k :: k in out0
    requires PushedUpTo(out0, prev, addr, blob, j)
    requires var k := KeywordKeys[j];
      out == if MatchKeyword(blob, DiscoveryKeywords(k)) && addr !in prev[k] then prev[k := prev[k] + [addr]] else prev
    ensures PushedUpTo(out0, out, addr, blob, j + 1)
  {
    PrefixSnoc(KeywordKeys, j);
    KeywordKeysDistinct(j);
  }

  /** The inner loop: push `addr` onto `out[k]` for every protocol `k` whose keywords the blob mentions. */
  method FileAddress(out0: map<ProtoKey, seq<string>>, addr: string, blob: string)
    returns (out: map<ProtoKey, seq<string>>)
    requires forall k :: k in out0
    ensures forall k :: k in out && out[k] ==
                         if MatchKeyword(blob, DiscoveryKeywords(k)) && addr !in out0[k] then out0[k] + [addr] else out0[k]
  {
    out := out0;
    for j := 0 to |KeywordKeys|
      invariant PushedUpTo(out0, out, addr, blob, j)
    {
      var k := KeywordKeys[j];
      ghost var prev := out;
      if MatchKeyword(blob, DiscoveryKeywords(k)) && addr !in out[k] {
        out := out[k := out[k] + [addr]];
      }
      PushStep(out0, prev, out, addr, blob, j);
    }
    forall k ensures k in KeywordKeys[..|KeywordKeys|] {
      KeywordKeysComplete(k);
      assert KeywordKeys[..|KeywordKeys|] == KeywordKeys;
    }
  }

  /** `out` holds, for every protocol, the addresses filed from `pre`. */
  ghost predicate FiledUpTo(pre: seq<string>, check: string -> Option<SourceRow>, blobOf: string -> Option<SourceRow>,
                            out: map<ProtoKey, seq<string>>) {
    forall k :: k in out && out[k] == Filed(pre, check, blobOf, k)
  }

  lemma FiledStep(pre: seq<string>, addr: string, check: string -> Option<SourceRow>,
                  blobOf: string -> Option<SourceRow>, k: ProtoKey)
    ensures Filed(pre + [addr], check, blobOf, k) ==
      var r := Filed(pre, check, blobOf, k);
      if Qualifies(check, blobOf, addr, k) && addr !in r then r + [addr] else r
  {
    assert (pre + [addr])[..|pre|] == pre;
  }

  /** A candidate without verified source, or whose blob request failed, is filed nowhere. */
  lemma FiledSkip(pre: seq<string>, addr: string, check: string -> Option<SourceRow>,
                  blobOf: string -> Option<SourceRow>, out: map<ProtoKey, seq<string>>)
    requires FiledUpTo(pre, check, blobOf, out)
    requires !(check(addr).Some? && HasSource(check(addr).value) && blobOf(addr).Some?)
    ensures FiledUpTo(pre + [addr], check, blobOf, out)
  {
    forall k ensures k in out && out[k] == Filed(pre + [addr], check, blobOf, k) {
      FiledStep(pre, addr, check, blobOf, k);
    }
  }

  /** A verified candidate is filed under the protocols its blob mentions. */
  lemma FiledAdd(pre: seq<string>, addr: string, check: string -> Option<SourceRow>,
                 blobOf: string -> Option<SourceRow>, out0: map<ProtoKey, seq<string>>, out: map<ProtoKey, seq<string>>)
    requires FiledUpTo(pre, check, blobOf, out0)
    requires check(addr).Some? && HasSource(check(addr).value) && blobOf(addr).Some?
    requires forall k :: k in out && out[k] ==
                         if MatchKeyword(Blob(blobOf(addr).value), DiscoveryKeywords(k)) && addr !in out0[k]
                         then out0[k] + [addr] else out0[k]
    ensures FiledUpTo(pre + [addr], check, blobOf, out)
  {
    forall k ensures k in out && out[k] == Filed(pre + [addr], check, blobOf, k) {
      FiledStep(pre, addr, check, blobOf, k);
    }
  }

  /** One candidate's turn in the filing loop. */
  method FileCandidate(ghost pre: seq<string>, addr: string, check: string -> Option<SourceRow>,
                       blobOf: string -> Option<SourceRow>, out0: map<ProtoKey, seq<string>>)
    returns (out: map<ProtoKey, seq<string>>)
    requires forall k :: k in out0 && out0[k] == Filed(pre, check, blobOf, k)
    ensures forall k :: k in out && out[k] == Filed(pre + [addr], check, blobOf, k)
  {
    out := out0;
    var c := check(addr);
    if c.None? || !HasSource(c.value) {
      FiledSkip(pre, addr, check, blobOf, out0);
      return;
    }
    var b := blobOf(addr);
    if b.None? {
      FiledSkip(pre, addr, check, blobOf, out0);
      return;
    }
    out := FileAddress(out0, addr, Blob(b.value));
    FiledAdd(pre, addr, check, blobOf, out0, out);
  }

  /** The filing loop over the candidates. */
  method FileCandidates(limited: seq<string>, check: string -> Option<SourceRow>, blobOf: string -> Option<SourceRow>)
    returns (out: map<ProtoKey, seq<string>>)
    ensures forall k :: k in out && out[k] == Filed(limited, check, blobOf, k)
  {
    out := map k | k in KeywordKeys :: [];
    forall k ensures k in out {
      KeywordKeysComplete(k);
    }
    assert limited[..0] == [];
    for i := 0 to |limited|
      invariant forall k :: k in out && out[k] == Filed(limited[..i], check, blobOf, k)
    {
      PrefixSnoc(limited, i);
      out := FileCandidate(limited[..i], limited[i], check, blobOf, out);
    }
    assert limited[..|limited|] == limited;
  }

  lemma AppendAssoc(a: seq<string>, b: seq<string>, c: seq<string>)
    ensures a + (b + c) == a + b + c
  {
  }

  /** One transaction's turn in the inner tally loop. */
  method TallyTx(ghost before: seq<string>, t: ListedTx, freq0: map<string, nat>, order0: seq<string>)
    returns (freq: map<string, nat>, order: seq<string>)
    requires Tallied(before, freq0, order0)
    ensures Tallied(before + TargetOf(t), freq, order)
  {
    var to := Lower(t.to);
    if to == "" || !Succeeded(t) {
      assert before + TargetOf(t) == before;
      return freq0, order0;
    }
    freq, order := Count(before, freq0, order0, to);
  }

  /** The inner tally loop over one seed's transactions. */
  method TallyTargets(ghost seen: seq<string>, freq0: map<string, nat>, order0: seq<string>, txs: seq<ListedTx>)
    returns (freq: map<string, nat>, order: seq<string>)
    requires Tallied(seen, freq0, order0)
    ensures Tallied(seen + Targets(txs), freq, order)
  {
    freq, order := freq0, order0;
    assert Targets(txs[..0]) == [] && seen + [] == seen;
    for j := 0 to |txs|
      invariant Tallied(seen + Targets(txs[..j]), freq, order)
    {
      TargetsSnoc(txs, j);
      freq, order := TallyTx(seen + Targets(txs[..j]), txs[j], freq, order);
      AppendAssoc(seen, Targets(txs[..j]), TargetOf(txs[j]));
    }
    assert txs[..|txs|] == txs;
  }

  /** The outer tally loop: `toFreq` over every seed's transactions; a failed request throws. */
  method TargetFreq(seeds: seq<string>, txsOf: string -> Option<seq<ListedTx>>)
    returns (ok: bool, freq: map<string, nat>, order: seq<string>)
    ensures ok <==> SeedTxs(seeds, txsOf).Some?
    ensures ok ==> Tallied(AllTargets(SeedTxs(seeds, txsOf).value), freq, order)
  {
    freq, order := map[], [];
    ghost var lists: seq<seq<ListedTx>> := [];
    for i := 0 to |seeds|
      invariant SeedTxs(seeds[..i], txsOf) == Some(lists)
      invariant Tallied(AllTargets(lists), freq, order)
    {
      assert seeds[..i + 1][..i] == seeds[..i];
      var txs := txsOf(seeds[i]);
      if txs.None? {
        SeedTxsPrefix(seeds, i + 1, txsOf);
        return false, freq, order;
      }
      freq, order := TallyTargets(AllTargets(lists), freq, order, txs.value);
      assert (lists + [txs.value])[..|lists|] == lists;
      lists := lists + [txs.value];
    }
    assert seeds[..|seeds|] == seeds;
    ok := true;
  }

  /** `discoverProtocolsFromSeeds(seeds)`: a failed `txlist` request of any seed throws. */
  method DiscoverFromSeeds(seeds: seq<string>, txsOf: string -> Option<seq<ListedTx>>,
                           check: string -> Option<SourceRow>, blobOf: string -> Option<SourceRow>)
    returns (r: Result<map<ProtoKey, seq<string>>, string>)
    ensures r.Failure? <==> SeedTxs(seeds, txsOf).None?
    ensures r.Success? ==>
              forall k :: k in r.value && r.value[k] == Filed(CandidatesOf(AllTargets(SeedTxs(seeds, txsOf).value)), check, blobOf, k)
  {
    var ok, freq, order := TargetFreq(seeds, txsOf);
    if !ok {
      return Failure("txlist request failed");
    }
    var candidates := RankByFreq(order, freq);
    var limited := Take(candidates, MaxCandidates);
    var out := FileCandidates(limited, check, blobOf);
    return Success(out);
  }

  /** A failed request of a seed in a prefix fails the whole list. */
  lemma SeedTxsPrefix(seeds: seq<string>, n: nat, txsOf: string -> Option<seq<ListedTx>>)
    requires n <= |seeds| && SeedTxs(seeds[..n], txsOf).None?
    ensures SeedTxs(seeds, txsOf).None?
  {
    SeedTxsFails(seeds[..n], txsOf);
    SeedTxsFails(seeds, txsOf);
    var a :| a in seeds[..n] && txsOf(a).None?;
  }

  /**
   * `run()` without the file writing: seeds, then discovery. `wallet` is the
   * `MY_WALLET` setting, lower-cased before use.
   */
  method Run(wallet: string, txsOf: string -> Option<seq<ListedTx>>,
             check: string -> Option<SourceRow>, blobOf: string -> Option<SourceRow>)
    returns (r: Result<map<ProtoKey, seq<string>>, string>)
    ensures var me := Lower(wallet);
      me == "" || txsOf(me).None? ==> r.Failure?
    ensures var me := Lower(wallet);
      me != "" && txsOf(me).Some? && SeedTxs(SeedsOf(me, txsOf(me).value, check), txsOf).Some? ==> r.Success?
    ensures var me := Lower(wallet);
      r.Success? ==> (
      && me != "" && txsOf(me).Some?
      && var seeds := SeedsOf(me, txsOf(me).value, check);
         && SeedTxs(seeds, txsOf).Some?
         && (forall k :: k in r.value &&
               r.value[k] == Filed(CandidatesOf(AllTargets(SeedTxs(seeds, txsOf).value)), check, blobOf, k)))
  {
    var me := Lower(wallet);
    var seeds := BuildSeeds(me, txsOf, check);
    if seeds.Failure? {
      return Failure(seeds.error);
    }
    r := DiscoverFromSeeds(seeds.value, txsOf, check, blobOf);
  }
}
