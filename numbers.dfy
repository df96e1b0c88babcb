/**
 * The number helpers the scoring and badge code writes inline:
 * `Math.round`, the `[0, 1]` clamp, counting the items that hold, and the
 * progress percentage `Math.round(done / total * 100)`.  Numbers are reals;
 * IEEE rounding is not modelled.
 */
module Numbers {

  /** `Math.round(x)`: the nearest integer, a half rounded up. */
  function Round(x: real): (r: int)
    ensures r as real - 0.5 <= x < r as real + 0.5
  {
    (x + 0.5).Floor
  }

  lemma RoundMono(x: real, y: real)
    requires x <= y
    ensures Round(x) <= Round(y)
  {
  }

  lemma RoundOfInt(n: int)
    ensures Round(n as real) == n
  {
  }

  /** Rounding a value between two integers stays between them. */
  lemma RoundBetween(x: real, lo: int, hi: int)
    requires lo as real <= x <= hi as real
    ensures lo <= Round(x) <= hi
  {
    RoundMono(lo as real, x);
    RoundMono(x, hi as real);
    RoundOfInt(lo);
    RoundOfInt(hi);
  }

  function MaxReal(a: real, b: real): (r: real)
    ensures r >= a && r >= b && (r == a || r == b)
  {
    if a >= b then a else b
  }

  /** `Math.max(0, Math.min(1, x))` */
  function Clamp01(x: real): (r: real)
    ensures 0.0 <= r <= 1.0
    ensures 0.0 <= x <= 1.0 ==> r == x
    ensures x < 0.0 ==> r == 0.0
    ensures x > 1.0 ==> r == 1.0
  {
    if x < 0.0 then 0.0 else if x > 1.0 then 1.0 else x
  }

  /** `items.filter(i => i.ok).length` */
  function CountTrue(bs: seq<bool>): (n: nat)
    ensures n <= |bs|
    ensures n == 0 <==> forall i :: 0 <= i < |bs| ==> !bs[i]
    ensures n == |bs| <==> forall i :: 0 <= i < |bs| ==> bs[i]
    decreases |bs|
  {
    if |bs| == 0 then 0
    else CountTrue(bs[..|bs| - 1]) + (if bs[|bs| - 1] then 1 else 0)
  }

  /**
   * `Math.round((done / total) * 100)`; every caller passes the length of a
   * fixed, non-empty item list as `total`.
   */
  function Percent(done: nat, total: nat): (pct: int)
    requires 0 < total
  {
    Round(done as real / total as real * 100.0)
  }

  /** Multiplying by a positive factor keeps an order. */
  lemma ScaleMono(a: real, b: real, c: real)
    requires a <= b && c > 0.0
    ensures a * c <= b * c
    ensures a < b ==> a * c < b * c
  {
    assert (b - a) * c >= 0.0;
    assert a < b ==> (b - a) * c > 0.0;
  }

  /** A quotient compares with `c` as its numerator compares with `c` times the divisor. */
  lemma QuotientCompare(n: real, d: real, c: real)
    requires d > 0.0
    ensures n / d <= c <==> n <= c * d
    ensures n / d < c <==> n < c * d
  {
    var q := n / d;
    assert q * d == n;
    if q <= c {
      ScaleMono(q, c, d);
    } else {
      ScaleMono(c, q, d);
    }
  }

  /**
   * The percentage lies in [0, 100]; on the short item lists the badges
   * use it is 100 exactly when every item is done, and 0 exactly when none is.
   */
  lemma PercentBounds(done: nat, total: nat)
    requires 0 < total <= 100 && done <= total
    ensures 0 <= Percent(done, total) <= 100
    ensures Percent(done, total) == 100 <==> done == total
    ensures Percent(done, total) == 0 <==> done == 0
  {
    var n, d := done as real, total as real;
    var x := n / d * 100.0;
    QuotientCompare(n, d, 1.0);
    QuotientCompare(n, d, 0.995);
    QuotientCompare(n, d, 0.005);
    QuotientCompare(0.0 - n, d, 0.0);
    RoundBetween(x, 0, 100);
  }

  /** The percentages a six-item list can show. */
  lemma PercentOfSix()
    ensures Percent(0, 6) == 0 && Percent(1, 6) == 17 && Percent(2, 6) == 33 && Percent(3, 6) == 50
    ensures Percent(4, 6) == 67 && Percent(5, 6) == 83 && Percent(6, 6) == 100
  {
  }

  // ------------------------------------------------------------ extremes

  /** The position of the first largest value. */
  function FirstMaxIndex(v: seq<int>): (k: nat)
    requires |v| > 0
    ensures k < |v|
    ensures forall j :: 0 <= j < |v| ==> v[j] <= v[k]
    ensures forall j :: 0 <= j < k ==> v[j] < v[k]
    decreases |v|
  {
    if |v| == 1 then 0
    else
      var k := FirstMaxIndex(v[..|v| - 1]);
      if v[|v| - 1] > v[k] then |v| - 1 else k
  }

  /** The position of the first smallest value. */
  function FirstMinIndex(v: seq<int>): (k: nat)
    requires |v| > 0
    ensures k < |v|
    ensures forall j :: 0 <= j < |v| ==> v[k] <= v[j]
    ensures forall j :: 0 <= j < k ==> v[k] < v[j]
    decreases |v|
  {
    if |v| == 1 then 0
    else
      var k := FirstMinIndex(v[..|v| - 1]);
      if v[|v| - 1] < v[k] then |v| - 1 else k
  }

  /** The position of the last smallest value. */
  function LastMinIndex(v: seq<int>): (k: nat)
    requires |v| > 0
    ensures k < |v|
    ensures forall j :: 0 <= j < |v| ==> v[k] <= v[j]
    ensures forall j :: k < j < |v| ==> v[k] < v[j]
    decreases |v|
  {
    if |v| == 1 then 0
    else
      var k := LastMinIndex(v[..|v| - 1]);
      if v[|v| - 1] <= v[k] then |v| - 1 else k
  }
}
