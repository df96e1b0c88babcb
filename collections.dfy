/**
 * Sequence and set operations the JavaScript code writes with `filter`,
 * `map`, `new Set(...)`, `slice` and `reduce`.
 */
module Collections {

  /** `s.filter(p)` */
  function Filter<T(!new)>(s: seq<T>, p: T -> bool): (r: seq<T>)
    ensures |r| <= |s|
    ensures forall x :: x in r <==> x in s && p(x)
    decreases |s|
  {
    if |s| == 0 then []
    else if p(s[|s| - 1]) then Filter(s[..|s| - 1], p) + [s[|s| - 1]]
    else Filter(s[..|s| - 1], p)
  }

  /** `s.map(f)` */
  function Map<T, U>(s: seq<T>, f: T -> U): (r: seq<U>)
    ensures |r| == |s|
    ensures forall i :: 0 <= i < |s| ==> r[i] == f(s[i])
  {
    seq(|s|, i requires 0 <= i < |s| => f(s[i]))
  }

  /** `s.filter(p).length` */
  function CountIf<T(!new)>(s: seq<T>, p: T -> bool): (n: nat)
    ensures n <= |s|
  {
    |Filter(s, p)|
  }

  /** The elements of `s` as a set, `new Set(s)`. */
  function Elements<T(!new)>(s: seq<T>): (r: set<T>)
    ensures forall x :: x in r <==> x in s
  {
    set x | x in s
  }

  /** `s.slice(-n)`: the last `n` elements; `slice(-0)` is `slice(0)`, the whole sequence. */
  function TakeLast<T>(s: seq<T>, n: nat): (r: seq<T>)
    ensures n > 0 ==> |r| <= n
    ensures n > 0 && |s| <= n ==> r == s
    ensures |r| <= |s| && r == s[|s| - |r|..]
  {
    if n == 0 || |s| <= n then s else s[|s| - n..]
  }

  /** `s.slice(0, n)` */
  function Take<T>(s: seq<T>, n: nat): (r: seq<T>)
    ensures |r| <= n && |r| <= |s|
    ensures |r| == n || |r| == |s|
    ensures r == s[..|r|]
    ensures |s| <= n ==> r == s
  {
    if |s| <= n then s else s[..n]
  }

  /** `s.reduce((acc, x) => acc + f(x), 0)` */
  function SumOf<T>(s: seq<T>, f: T -> real): real
    decreases |s|
  {
    if |s| == 0 then 0.0 else SumOf(s[..|s| - 1], f) + f(s[|s| - 1])
  }

  lemma {:induction false} SumOfNonNegative<T>(s: seq<T>, f: T -> real)
    requires forall x :: x in s ==> f(x) >= 0.0
    ensures SumOf(s, f) >= 0.0
    decreases |s|
  {
    if |s| > 0 {
      SumOfNonNegative(s[..|s| - 1], f);
    }
  }

  /** `new Set(s.map(f))` */
  function Image<T(==,!new), U(==,!new)>(s: seq<T>, f: T -> U): (r: set<U>)
    ensures forall y :: y in r <==> exists x :: x in s && f(x) == y
  {
    set x | x in s :: f(x)
  }

  /** A prefix one longer is the shorter prefix and the next element. */
  /** A non-empty sequence is its front followed by its last element. */
  lemma LastSplit<T>(s: seq<T>)
    requires |s| > 0
    ensures s[..|s| - 1] + [s[|s| - 1]] == s
  {
  }

  lemma PrefixSnoc<T>(s: seq<T>, i: nat)
    requires i < |s|
    ensures s[..i + 1] == s[..i] + [s[i]]
  {
  }

  /** Filtering keeps a sequence whose every element passes. */
  lemma {:induction false} FilterAll<T(!new)>(s: seq<T>, p: T -> bool)
    requires forall x :: x in s ==> p(x)
    ensures Filter(s, p) == s
    decreases |s|
  {
    if |s| > 0 {
      FilterAll(s[..|s| - 1], p);
      assert s == s[..|s| - 1] + [s[|s| - 1]];
    }
  }

  /** A weaker filter keeps at least as many elements. */
  lemma {:induction false} CountIfMono<T(!new)>(s: seq<T>, p: T -> bool, q: T -> bool)
    requires forall x :: x in s && p(x) ==> q(x)
    ensures CountIf(s, p) <= CountIf(s, q)
    decreases |s|
  {
    if |s| > 0 {
      CountIfMono(s[..|s| - 1], p, q);
      assert s[|s| - 1] in s;
    }
  }

  /** Filtering a sequence extended by one element. */
  lemma FilterSnoc<T(!new)>(s: seq<T>, x: T, p: T -> bool)
    ensures Filter(s + [x], p) == Filter(s, p) + (if p(x) then [x] else [])
    ensures CountIf(s + [x], p) == CountIf(s, p) + (if p(x) then 1 else 0)
  {
    assert (s + [x])[..|s|] == s;
  }

  /** Filtering a sequence that starts with a given element. */
  lemma {:induction false} FilterCons<T(!new)>(x: T, s: seq<T>, p: T -> bool)
    ensures Filter([x] + s, p) == (if p(x) then [x] else []) + Filter(s, p)
    decreases |s|
  {
    if |s| > 0 {
      var init, y := s[..|s| - 1], s[|s| - 1];
      FilterCons(x, init, p);
      FilterConsStep(x, init, y, p);
      LastSplit(s);
    }
  }

  /** One more element at the back keeps the split of `FilterCons`. */
  lemma FilterConsStep<T(!new)>(x: T, s: seq<T>, y: T, p: T -> bool)
    requires Filter([x] + s, p) == (if p(x) then [x] else []) + Filter(s, p)
    ensures Filter([x] + (s + [y]), p) == (if p(x) then [x] else []) + Filter(s + [y], p)
  {
    var head := if p(x) then [x] else [];
    var last := if p(y) then [y] else [];
    assert [x] + (s + [y]) == ([x] + s) + [y];
    FilterSnoc([x] + s, y, p);
    FilterSnoc(s, y, p);
    ConcatAssoc(head, Filter(s, p), last);
  }

  lemma ConcatAssoc<T>(a: seq<T>, b: seq<T>, c: seq<T>)
    ensures (a + b) + c == a + (b + c)
  {
  }

  /** `s.reverse()` on a copy. */
  function Reverse<T>(s: seq<T>): (r: seq<T>)
    ensures |r| == |s|
    ensures forall i :: 0 <= i < |s| ==> r[i] == s[|s| - 1 - i]
  {
    seq(|s|, i requires 0 <= i < |s| => s[|s| - 1 - i])
  }

  /** Summing over a sequence extended by one element. */
  lemma SumOfSnoc<T>(s: seq<T>, x: T, f: T -> real)
    ensures SumOf(s + [x], f) == SumOf(s, f) + f(x)
  {
    assert (s + [x])[..|s|] == s;
  }

  /** Extending the sequence by one element adds its image. */
  lemma ImageSnoc<T(!new), U(!new)>(s: seq<T>, x: T, f: T -> U)
    ensures Image(s + [x], f) == Image(s, f) + {f(x)}
  {
    assert forall y :: y in s + [x] <==> y in s || y == x;
  }

  /** A set built from a sequence has at most as many elements as the sequence. */
  lemma {:induction false} ImageSize<T(!new), U(!new)>(s: seq<T>, f: T -> U)
    ensures |Image(s, f)| <= |s|
    decreases |s|
  {
    if |s| > 0 {
      var init := s[..|s| - 1];
      ImageSize(init, f);
      assert (set x | x in s :: f(x)) == (set x | x in init :: f(x)) + {f(s[|s| - 1])} by {
        assert forall x :: x in s <==> x in init || x == s[|s| - 1];
      }
    }
  }

  lemma ElementsSnoc<T(!new)>(s: seq<T>, x: T)
    ensures Elements(s + [x]) == Elements(s) + {x}
  {
  }

  lemma ElementsSize<T(!new)>(s: seq<T>)
    ensures |Elements(s)| <= |s|
  {
    var id := (x: T) => x;
    ImageSize(s, id);
    assert Elements(s) == set x | x in s :: id(x);
  }

  /**
   * When `g` is determined by `f` on the elements of `s`, there are no more
   * distinct `g` values than distinct `f` values.
   */
  lemma {:induction false} CoarserImage<T(!new), U(!new), V(!new)>(s: seq<T>, f: T -> U, g: T -> V)
    requires forall x, y :: x in s && y in s && f(x) == f(y) ==> g(x) == g(y)
    ensures |Image(s, g)| <= |Image(s, f)|
    decreases |s|
  {
    if |s| > 0 {
      var init := s[..|s| - 1];
      var last := s[|s| - 1];
      assert s == init + [last];
      assert forall x :: x in init ==> x in s;
      CoarserImage(init, f, g);
      ImageSnoc(init, last, f);
      ImageSnoc(init, last, g);
      var F := Image(init, f);
      var G := Image(init, g);
      if f(last) in F {
        var y :| y in init && f(y) == f(last);
        assert g(last) in G;
      }
      AddBoth(F, G, f(last), g(last));
    }
  }

  /** Adding one element to each of two sets keeps the order of their sizes when the second is old whenever the first is. */
  lemma AddBoth<U, V>(F: set<U>, G: set<V>, u: U, v: V)
    requires |G| <= |F| && (u in F ==> v in G)
    ensures |G + {v}| <= |F + {u}|
  {
    if u in F {
      assert G + {v} == G && F + {u} == F;
    } else {
      assert |F + {u}| == |F| + 1;
    }
  }

  /** The image of a subset is no larger than the image of the whole set. */
  lemma SubsetSize<T>(a: set<T>, b: set<T>)
    requires a <= b
    ensures |a| <= |b|
  {
    assert b == a + (b - a);
  }

  predicate NoDuplicates<T(==)>(s: seq<T>) {
    forall i, j :: 0 <= i < j < |s| ==> s[i] != s[j]
  }

  /** The position of the first occurrence of `x` in `s`. */
  function FirstIndex<T(==)>(s: seq<T>, x: T): (k: nat)
    requires x in s
    ensures k < |s| && s[k] == x
    ensures forall j :: 0 <= j < k ==> s[j] != x
    decreases |s|
  {
    if x in s[..|s| - 1] then FirstIndex(s[..|s| - 1], x) else |s| - 1
  }

  /** `Array.from(new Set(s))`: the distinct elements of `s` in first-occurrence order. */
  function Distinct<T(==,!new)>(s: seq<T>): (r: seq<T>)
    ensures forall x :: x in r <==> x in s
    ensures |r| <= |s|
    ensures NoDuplicates(r)
    decreases |s|
  {
    if |s| == 0 then []
    else if s[|s| - 1] in s[..|s| - 1] then Distinct(s[..|s| - 1])
    else Distinct(s[..|s| - 1]) + [s[|s| - 1]]
  }

  /** `Distinct` keeps the order in which elements first occur. */
  lemma {:induction false} DistinctOrder<T(!new)>(s: seq<T>)
    ensures forall i, j :: 0 <= i < j < |Distinct(s)| ==>
      FirstIndex(s, Distinct(s)[i]) < FirstIndex(s, Distinct(s)[j])
    decreases |s|
  {
    if |s| > 0 {
      var init := s[..|s| - 1];
      DistinctOrder(init);
      var r := Distinct(s);
      forall i, j | 0 <= i < j < |r| ensures FirstIndex(s, r[i]) < FirstIndex(s, r[j]) {
        assert r[i] in init by {
          if s[|s| - 1] !in init { assert r[i] == Distinct(init)[i]; }
        }
        if s[|s| - 1] in init || j < |Distinct(init)| {
          assert r[j] == Distinct(init)[j] && r[i] == Distinct(init)[i];
        }
      }
    }
  }

  /** Appending elements only extends `Distinct`: the old result stays a prefix. */
  lemma {:induction false} DistinctPrefix<T(!new)>(s: seq<T>, t: seq<T>)
    ensures Distinct(s) <= Distinct(s + t)
    decreases |t|
  {
    if |t| == 0 {
      assert s + t == s;
    } else {
      var t' := t[..|t| - 1];
      DistinctPrefix(s, t');
      assert (s + t)[..|s + t| - 1] == s + t';
    }
  }

  /** A sequence without duplicates is its own `Distinct`. */
  lemma {:induction false} DistinctOfDistinct<T(!new)>(s: seq<T>)
    requires NoDuplicates(s)
    ensures Distinct(s) == s
    decreases |s|
  {
    if |s| > 0 {
      var init := s[..|s| - 1];
      DistinctOfDistinct(init);
      assert s[|s| - 1] !in init;
      assert s == init + [s[|s| - 1]];
    }
  }

  /** Dropping entries never increases a sum of non-negative terms. */
  lemma {:induction false} SumOfFilterLe<T(!new)>(s: seq<T>, p: T -> bool, f: T -> real)
    requires forall x :: x in s ==> f(x) >= 0.0
    ensures SumOf(Filter(s, p), f) <= SumOf(s, f)
    decreases |s|
  {
    if |s| > 0 {
      var init := s[..|s| - 1];
      SumOfFilterLe(init, p, f);
      if p(s[|s| - 1]) {
        SumOfSnoc(Filter(init, p), s[|s| - 1], f);
      }
    }
  }

  /** Filtering keeps a list free of duplicates. */
  lemma {:induction false} FilterNoDuplicates<T(!new)>(s: seq<T>, p: T -> bool)
    requires NoDuplicates(s)
    ensures NoDuplicates(Filter(s, p))
    decreases |s|
  {
    if |s| > 0 {
      var init, last := s[..|s| - 1], s[|s| - 1];
      assert NoDuplicates(init) by {
        forall i, j | 0 <= i < j < |init| ensures init[i] != init[j] {
          assert init[i] == s[i] && init[j] == s[j];
        }
      }
      assert last !in init by {
        forall k | 0 <= k < |init| ensures init[k] != last {
          assert init[k] == s[k];
        }
      }
      FilterNoDuplicates(init, p);
    }
  }

  /** No duplicates means every element occurs at most once. */
  lemma {:induction false} NoDuplicatesCount<T>(s: seq<T>)
    ensures NoDuplicates(s) <==> forall x :: multiset(s)[x] <= 1
    decreases |s|
  {
    if |s| > 0 {
      var init, last := s[..|s| - 1], s[|s| - 1];
      NoDuplicatesCount(init);
      assert s == init + [last];
      assert multiset(s) == multiset(init) + multiset{last};
      if NoDuplicates(s) {
        assert NoDuplicates(init) by {
          forall i, j | 0 <= i < j < |init| ensures init[i] != init[j] {
            assert init[i] == s[i] && init[j] == s[j];
          }
        }
        assert last !in init by {
          forall k | 0 <= k < |init| ensures init[k] != last {
            assert init[k] == s[k];
          }
        }
        assert multiset(init)[last] == 0;
      } else {
        var i, j :| 0 <= i < j < |s| && s[i] == s[j];
        if j < |s| - 1 {
          assert init[i] == init[j];
          var x :| multiset(init)[x] > 1;
          assert multiset(s)[x] > 1;
        } else {
          assert s[i] in init by { assert init[i] == s[i]; }
          assert multiset(s)[last] >= 2;
        }
      }
    }
  }

  /** A permutation of a duplicate-free sequence is duplicate-free. */
  lemma NoDuplicatesPermutation<T>(a: seq<T>, b: seq<T>)
    requires multiset(a) == multiset(b) && NoDuplicates(a)
    ensures NoDuplicates(b)
  {
    NoDuplicatesCount(a);
    NoDuplicatesCount(b);
  }

  // ------------------------------------------------------------ counting by key

  /** How many elements of `s` have the key `k`. */
  function KeyCount<T(!new), K(==)>(s: seq<T>, key: T -> K, k: K): (n: nat)
    ensures n <= |s|
  {
    CountIf(s, (x: T) => key(x) == k)
  }

  /** One more element adds one to its own key and leaves every other key as it was. */
  lemma KeyCountSnoc<T(!new), K>(s: seq<T>, x: T, key: T -> K, k: K)
    ensures KeyCount(s + [x], key, k) == KeyCount(s, key, k) + (if key(x) == k then 1 else 0)
  {
    FilterSnoc(s, x, (y: T) => key(y) == k);
  }

  /** A key no element has counts none. */
  lemma {:induction false} KeyCountAbsent<T(!new), K(!new)>(s: seq<T>, key: T -> K, k: K)
    requires k !in Image(s, key)
    ensures KeyCount(s, key, k) == 0
    decreases |s|
  {
    if |s| > 0 {
      var init := s[..|s| - 1];
      assert s == init + [s[|s| - 1]];
      assert Image(init, key) <= Image(s, key);
      KeyCountAbsent(init, key, k);
      KeyCountSnoc(init, s[|s| - 1], key, k);
    }
  }

  /** `byKey` holds, for every key seen so far, the number of elements with that key. */
  ghost predicate KeyTallied<T(!new), K(!new)>(seen: seq<T>, key: T -> K, byKey: map<K, nat>) {
    && byKey.Keys == Image(seen, key)
    && forall k :: k in byKey ==> byKey[k] == KeyCount(seen, key, k)
  }

  /** `byKey.set(k, (byKey.get(k) || 0) + 1)` for the key of `x`. */
  method TallyKey<T(!new), K(==,!new)>(ghost seen: seq<T>, x: T, key: T -> K, byKey0: map<K, nat>)
    returns (byKey: map<K, nat>)
    requires KeyTallied(seen, key, byKey0)
    ensures KeyTallied(seen + [x], key, byKey)
  {
    var k := key(x);
    byKey := byKey0[k := (if k in byKey0 then byKey0[k] else 0) + 1];
    ImageSnoc(seen, x, key);
    forall d | d in byKey ensures byKey[d] == KeyCount(seen + [x], key, d) {
      KeyCountSnoc(seen, x, key, d);
      if d != k {
        assert d in byKey0;
      } else if k !in byKey0 {
        KeyCountAbsent(seen, key, k);
      }
    }
  }

  /** A counter map filled in one pass: one entry per key, counting its elements. */
  method CountByKey<T(!new), K(==,!new)>(s: seq<T>, key: T -> K) returns (byKey: map<K, nat>)
    ensures byKey.Keys == Image(s, key)
    ensures forall k :: k in byKey ==> byKey[k] == KeyCount(s, key, k)
  {
    byKey := map[];
    for j := 0 to |s|
      invariant KeyTallied(s[..j], key, byKey)
    {
      PrefixSnoc(s, j);
      byKey := TallyKey(s[..j], s[j], key, byKey);
    }
    assert s[..|s|] == s;
  }

  /** Some key has at least `n` elements exactly when some counter reaches `n`. */
  lemma SomeKeyReaches<T(!new), K(!new)>(s: seq<T>, key: T -> K, byKey: map<K, nat>, n: nat)
    requires byKey.Keys == Image(s, key)
    requires forall k :: k in byKey ==> byKey[k] == KeyCount(s, key, k)
    ensures (exists k :: k in byKey && byKey[k] >= n) <==> (exists x :: x in s && KeyCount(s, key, key(x)) >= n)
  {
    if exists k :: k in byKey && byKey[k] >= n {
      var k :| k in byKey && byKey[k] >= n;
      var x :| x in s && key(x) == k;
    }
    if exists x :: x in s && KeyCount(s, key, key(x)) >= n {
      var x :| x in s && KeyCount(s, key, key(x)) >= n;
      assert key(x) in byKey;
    }
  }
}
