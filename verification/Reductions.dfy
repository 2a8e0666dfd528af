/** Smallest and largest element of a vector. */
module Reductions {
  // horizontal_min1 and horizontal_max1 of vector_convert.h, which fold the vector in half. NaN is
  // excluded by the callers.

  import opened IndexLists

  /** min: a < b ? a : b and max: a > b ? a : b */
  function Pick(max: bool, a: real, b: real): real {
    if max then (if a > b then a else b) else (if a < b then a else b)
  }

  function PickAll(max: bool, a: seq<real>, b: seq<real>): (r: seq<real>)
    requires |a| == |b|
    ensures |r| == |a| && forall i :: 0 <= i < |a| ==> r[i] == Pick(max, a[i], b[i])
  {
    seq(|a|, i requires 0 <= i < |a| => Pick(max, a[i], b[i]))
  }

  /** The element e is in s, and none is better. */
  predicate IsBest(max: bool, s: seq<real>, e: real) {
    e in s && forall i :: 0 <= i < |s| ==> if max then s[i] <= e else e <= s[i]
  }

  /** What permute functions leave in the elements that can have any value. */
  type Junk = (seq<int>, int) -> real

  /** A permute of a 128-bit vector. */
  function Permuted(idx: seq<int>, x: seq<real>, junk: Junk): (r: seq<real>)
    requires |idx| == |x| && forall i :: 0 <= i < |idx| ==> idx[i] == V_DC || 0 <= idx[i] < |x|
    ensures |r| == |x|
    ensures forall i :: 0 <= i < |idx| && idx[i] != V_DC ==> r[i] == x[idx[i]]
  {
    seq(|x|, i requires 0 <= i < |x| => if idx[i] == V_DC then junk(idx, i) else x[idx[i]])
  }

  /** The list puts h elements, from element h on, in the first places. */
  predicate BringsDown(idx: seq<int>, h: nat) {
    2 * h <= |idx| && forall i :: 0 <= i < |idx| ==> idx[i] == if i < h then h + i else V_DC
  }

  /** The first h elements of b have the same best one as the first 2 * h elements of x. */
  ghost predicate Folded(max: bool, x: seq<real>, b: seq<real>, h: nat)
    requires 2 * h <= |x| && h <= |b|
  {
    forall e :: IsBest(max, b[..h], e) <==> IsBest(max, x[..2 * h], e)
  }

  lemma FoldHalves(max: bool, low: seq<real>, high: seq<real>, b: seq<real>, e: real)
    requires |low| == |high| == |b| > 0
    requires forall i :: 0 <= i < |b| ==> b[i] == Pick(max, low[i], high[i]) || b[i] == Pick(max, high[i], low[i])
    ensures IsBest(max, b, e) <==> IsBest(max, low + high, e)
  {
    var x, h := low + high, |low|;
    if IsBest(max, b, e) {
      forall i | 0 <= i < 2 * h ensures if max then x[i] <= e else e <= x[i] {
        assert x[i] == if i < h then low[i] else high[i - h];
        var k := if i < h then i else i - h;
        assert if max then b[k] <= e else e <= b[k];
      }
      var k :| 0 <= k < h && b[k] == e;
      assert x[k] == low[k] && x[h + k] == high[k];
    }
    if IsBest(max, x, e) {
      forall i | 0 <= i < h ensures if max then b[i] <= e else e <= b[i] {
        assert x[i] == low[i] && x[h + i] == high[i];
      }
      var k :| 0 <= k < 2 * h && x[k] == e;
      var i := if k < h then k else k - h;
      assert x[i] == low[i] && x[h + i] == high[i];
      assert b[i] == e;
    }
  }

  /** One step: bring down the second half and combine it with the first. */
  method Fold(max: bool, x: seq<real>, idx: seq<int>, ghost h: nat, junk: Junk) returns (b: seq<real>)
    requires |idx| == |x| && BringsDown(idx, h) && h > 0
    ensures |b| == |x| && Folded(max, x, b, h)
  {
    var a := Permuted(idx, x, junk);
    b := PickAll(max, a, x);
    forall e ensures IsBest(max, b[..h], e) <==> IsBest(max, x[..2 * h], e) {
      assert x[..2 * h] == x[..h] + x[h..2 * h];
      FoldHalves(max, x[..h], x[h..2 * h], b[..h], e);
    }
  }

  lemma BestOfOne(max: bool, s: seq<real>)
    requires |s| == 1
    ensures IsBest(max, s, s[0])
  {
  }

  /** The branches for 128-bit vectors of 2, 4, 8 and 16 elements. */
  method HorizontalBest128(max: bool, x: seq<real>, junk: Junk) returns (e: real)
    requires |x| == 2 || |x| == 4 || |x| == 8 || |x| == 16
    ensures IsBest(max, x, e)
  {
    var b := x;
    if |x| == 2 {
      b := Fold(max, b, [1, V_DC], 1, junk);
    } else if |x| == 4 {
      b := Fold(max, b, [2, 3, V_DC, V_DC], 2, junk);
      b := Fold(max, b, [1, V_DC, V_DC, V_DC], 1, junk);
    } else if |x| == 8 {
      b := Fold(max, b, [4, 5, 6, 7, V_DC, V_DC, V_DC, V_DC], 4, junk);
      b := Fold(max, b, [2, 3, V_DC, V_DC, V_DC, V_DC, V_DC, V_DC], 2, junk);
      b := Fold(max, b, [1, V_DC, V_DC, V_DC, V_DC, V_DC, V_DC, V_DC], 1, junk);
    } else {
      b := Fold(max, b, [8, 9, 10, 11, 12, 13, 14, 15, V_DC, V_DC, V_DC, V_DC, V_DC, V_DC, V_DC, V_DC], 8, junk);
      b := Fold(max, b, [4, 5, 6, 7, V_DC, V_DC, V_DC, V_DC, V_DC, V_DC, V_DC, V_DC, V_DC, V_DC, V_DC, V_DC], 4, junk);
      b := Fold(max, b, [2, 3, V_DC, V_DC, V_DC, V_DC, V_DC, V_DC, V_DC, V_DC, V_DC, V_DC, V_DC, V_DC, V_DC, V_DC],
                2, junk);
      b := Fold(max, b, [1, V_DC, V_DC, V_DC, V_DC, V_DC, V_DC, V_DC, V_DC, V_DC, V_DC, V_DC, V_DC, V_DC, V_DC, V_DC],
                1, junk);
    }
    e := b[0];
    BestOfOne(max, b[..1]);
    assert x[..|x|] == x;
  }

  // ----- vectors of truth values

  function Values(x: seq<bool>): (v: seq<real>)
    ensures |v| == |x| && forall i :: 0 <= i < |x| ==> v[i] == if x[i] then 1.0 else 0.0
  {
    seq(|x|, i requires 0 <= i < |x| => if x[i] then 1.0 else 0.0)
  }

  /** The branch for boolean vectors: horizontal_and and horizontal_or give the smallest and the
      largest truth value. */
  method HorizontalTruth(max: bool, x: seq<bool>) returns (e: bool)
    requires |x| > 0
    ensures IsBest(max, Values(x), if e then 1.0 else 0.0)
  {
    if max {
      e := exists i :: 0 <= i < |x| && x[i];
    } else {
      e := forall i :: 0 <= i < |x| ==> x[i];
    }
    WitnessOf(max, x, e);
  }

  lemma WitnessOf(max: bool, x: seq<bool>, e: bool)
    requires |x| > 0 && e == if max then exists i :: 0 <= i < |x| && x[i] else forall i :: 0 <= i < |x| ==> x[i]
    ensures (if e then 1.0 else 0.0) in Values(x)
  {
    var v := Values(x);
    assert x[0] == e || exists i :: 0 <= i < |x| && x[i] == e;
    var i :| 0 <= i < |x| && x[i] == e;
    assert v[i] == if e then 1.0 else 0.0;
  }

  function Doubled(n: nat, levels: nat): (m: nat)
    ensures n > 0 ==> m >= n
  {
    if levels == 0 then n else 2 * Doubled(n, levels - 1)
  }

  /** horizontal_min1 and horizontal_max1. Vectors of more than 128 bits are split into halves,
      as many times as there are doublings above 128 bits. */
  method HorizontalBest(max: bool, x: seq<real>, ghost n: nat, levels: nat, junk: Junk) returns (e: real)
    requires (n == 2 || n == 4 || n == 8 || n == 16) && |x| == Doubled(n, levels)
    ensures IsBest(max, x, e)
    decreases levels
  {
    if levels == 0 {
      e := HorizontalBest128(max, x, junk);
    } else {
      var half := |x| / 2;
      e := HorizontalBest(max, PickAll(max, x[..half], x[half..]), n, levels - 1, junk);
      FoldHalves(max, x[..half], x[half..], PickAll(max, x[..half], x[half..]), e);
      assert x[..half] + x[half..] == x;
    }
  }
}
