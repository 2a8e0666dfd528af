/** Bit masks for zeroing, blending and moving. */
module Masks {
  // A compact mask is the sequence of its bits, lowest bit first.

  import opened IndexLists
  import opened Vectors
  import opened BitNumbers

  type Mask = seq<bool>

  // ----- zeroing

  method ZeroMask(a: seq<int>) returns (m: Mask)
    ensures |m| == |a| && forall i :: 0 <= i < |a| ==> (m[i] <==> a[i] >= 0)
  {
    m := seq(|a|, _ => false);
    for i := 0 to |a|
      invariant |m| == |a|
      invariant forall k :: 0 <= k < i ==> (m[k] <==> a[k] >= 0)
      invariant forall k :: i <= k < |a| ==> !m[k]
    {
      if a[i] >= 0 { m := m[i := true]; }
    }
  }

  method ZeroMaskBroad(a: seq<int>, s: nat) returns (u: Vec)
    ensures |u| == |a| && Sized(u, s)
    ensures forall i :: 0 <= i < |a| ==> u[i] == if a[i] >= 0 then Ones(s) else Zero(s)
  {
    u := ZeroVec(|a|, s);
    for i := 0 to |a|
      invariant |u| == |a| && Sized(u, s)
      invariant forall k :: 0 <= k < i ==> u[k] == if a[k] >= 0 then Ones(s) else Zero(s)
      invariant forall k :: i <= k < |a| ==> u[k] == Zero(s)
    {
      u := u[i := if a[i] >= 0 then Ones(s) else Zero(s)];
    }
  }

  /** Zeroing moves: elements whose mask bit is 0 become zero. */
  function MaskzMov(m: Mask, y: Vec, s: nat): (r: Vec)
    requires |m| == |y|
    ensures |r| == |y|
    ensures forall i :: 0 <= i < |y| ==> r[i] == if m[i] then y[i] else Zero(s)
  {
    seq(|y|, i requires 0 <= i < |y| => if m[i] then y[i] else Zero(s))
  }

  /** Blending moves: elements whose mask bit is 1 come from b. */
  function MaskMov(m: Mask, a: Vec, b: Vec): (r: Vec)
    requires |m| == |a| == |b|
    ensures |r| == |a|
    ensures forall i :: 0 <= i < |a| ==> r[i] == if m[i] then b[i] else a[i]
  {
    seq(|a|, i requires 0 <= i < |a| => if m[i] then b[i] else a[i])
  }

  /** The zeroing that ends most permute and blend functions: a compact mask from AVX512 on,
      a broad mask before that. Every element that is not asked for becomes zero, and then the
      vector meets the whole specification. */
  method ZeroUnused(instrset: nat, idx: seq<int>, s: nat, src: Vec, y0: Vec) returns (y: Vec)
    requires Sized(y0, s) && Routed(idx, src, y0)
    ensures Meets(idx, s, src, y)
  {
    if instrset >= 10 {
      var m := ZeroMask(idx);
      y := MaskzMov(m, y0, s);
    } else {
      var bm := ZeroMaskBroad(idx, s);
      y := And(bm, y0);
      forall i | 0 <= i < |y| ensures y[i] == if idx[i] >= 0 then y0[i] else Zero(s) {
        AndWithMask(y0[i]);
      }
    }
  }

  // ----- collecting one bit of each index

  /** The bit of the mask for one index: bit number b & 0xFF of the index, inverted unless the
      option for this half of the vector is set. */
  function CollectedBit(ix: int, inLowerHalf: bool, b: nat): bool {
    if ix < 0 then FlagBit(b, 10)
    else FlagBit(ix, b % 256) == FlagBit(b, if inLowerHalf then 8 else 9)
  }

  method MakeBitMask(a: seq<int>, b: nat) returns (m: Mask)
    ensures |m| == |a|
    ensures forall i :: 0 <= i < |a| ==> m[i] == CollectedBit(a[i], i < |a| / 2, b)
    ensures forall i :: 0 <= i < |a| && a[i] < 0 ==> (m[i] <==> b / 1024 % 2 == 1)
    ensures forall i :: 0 <= i < |a| / 2 && a[i] >= 0 ==> (m[i] <==> FlagBit(a[i], b % 256) == (b / 256 % 2 == 1))
    ensures forall i :: |a| / 2 <= i < |a| && a[i] >= 0 ==> (m[i] <==> FlagBit(a[i], b % 256) == (b / 512 % 2 == 1))
  {
    HighBits(b);
    m := seq(|a|, _ => false);
    var j := b % 256;
    var i := 0;
    while i < |a|
      invariant 0 <= i <= |a| == |m|
      invariant forall k :: 0 <= k < i ==> m[k] == CollectedBit(a[k], k < |a| / 2, b)
      invariant forall k :: i <= k < |a| ==> !m[k]
    {
      var ix := a[i];
      var s;
      if ix < 0 {
        s := FlagBit(b, 10);
      } else {
        s := FlagBit(ix, j);
        var f;
        if i < |a| / 2 {
          f := FlagBit(b, 8);
        } else {
          f := FlagBit(b, 9);
        }
        if !f { s := !s; }
      }
      m := m[i := s];
      i := i + 1;
    }
  }

  // ----- rank of a bit

  /** The number of one bits among the lowest n. */
  function Rank(m: Mask, n: nat): (r: nat)
    requires n <= |m|
    ensures r <= n
  {
    if n == 0 then 0 else Rank(m, n - 1) + (if m[n - 1] then 1 else 0)
  }

  lemma {:induction false} RankDependsOnLowBits(m: Mask, m': Mask, n: nat)
    requires n <= |m| && n <= |m'| && forall k :: 0 <= k < n ==> m[k] == m'[k]
    ensures Rank(m, n) == Rank(m', n)
  {
    if n > 0 { RankDependsOnLowBits(m, m', n - 1); }
  }

  lemma {:induction false} RankOfRun(m: Mask, lo: nat, hi: nat, bit: bool)
    requires lo <= hi <= |m| && forall k :: lo <= k < hi ==> m[k] == bit
    ensures Rank(m, hi) == Rank(m, lo) + if bit then hi - lo else 0
  {
    if lo < hi { RankOfRun(m, lo, hi - 1, bit); }
  }

  lemma {:induction false} RankGrows(m: Mask, k: nat, n: nat)
    requires k <= n <= |m|
    ensures Rank(m, k) <= Rank(m, n)
    ensures k < n && m[k] ==> Rank(m, k) < Rank(m, n)
  {
    if k < n { RankGrows(m, k, n - 1); }
  }

  // ----- compression

  /** The position of the last non-negative index among the first n, or -1. */
  function LastWanted(a: seq<int>, n: nat): (p: int)
    requires n <= |a|
    ensures -1 <= p < n
    ensures forall k :: p < k < n ==> a[k] < 0
    ensures p >= 0 ==> a[p] >= 0
  {
    if n == 0 then -1 else if a[n - 1] >= 0 then n - 1 else LastWanted(a, n - 1)
  }

  function SetBits(m: Mask, lo: nat, hi: nat): (r: Mask)
    requires lo <= hi <= |m|
    ensures |r| == |m| && forall k :: 0 <= k < |m| ==> r[k] == (m[k] || lo <= k < hi)
  {
    seq(|m|, k requires 0 <= k < |m| => m[k] || lo <= k < hi)
  }

  /** The dummy bits are set one by one. */
  method FillBits(m: Mask, last: int, count: nat) returns (r: Mask)
    requires last >= -1 && last + count <= |m|
    requires count > 0
    ensures r == SetBits(m, last + 1, last + count)
  {
    r := m;
    var j := 1;
    while j < count
      invariant 1 <= j <= count
      invariant r == SetBits(m, last + 1, last + j)
    {
      r := r[last + j := true];
      j := j + 1;
    }
  }

  /** The state of compress_mask after n indexes: the bits below the last source hold the
      ranks, and no bit is set above it. */
  ghost predicate CompressBits(a: seq<int>, n: nat, m: Mask, lasti: int, lastp: int)
    requires n <= |a|
  {
    && |m| == |a| && -1 <= lasti < |a|
    && lastp == LastWanted(a, n) && lasti == LastSource(a, n)
    && Rank(m, lasti + 1) == lastp + 1
    && (forall k :: lasti < k < |m| ==> !m[k])
    && (forall i :: 0 <= i < n && a[i] >= 0 ==> a[i] <= lasti && m[a[i]] && Rank(m, a[i]) == i)
  }

  lemma CompressOne(a: seq<int>, n: nat, m: Mask, m': Mask, lasti: int, lastp: int)
    requires n < |a| && InRange(a, |a|) && FitsCompress(a, |a|) && a[n] >= 0
    requires CompressBits(a, n, m, lasti, lastp)
    requires lasti + n - lastp <= a[n]
    requires m' == SetBits(m[a[n] := true], lasti + 1, lasti + n - lastp)
    ensures CompressBits(a, n + 1, m', a[n], n)
  {
    var ix, mid := a[n], lasti + n - lastp;
    RankDependsOnLowBits(m, m', lasti + 1);
    RankOfRun(m', lasti + 1, mid, true);
    RankOfRun(m', mid, ix, false);
    forall i | 0 <= i < n && a[i] >= 0 ensures a[i] <= lasti && m'[a[i]] && Rank(m', a[i]) == i {
      RankDependsOnLowBits(m, m', a[i]);
    }
  }

  /** The last source, or -1. */
  function LastSource(a: seq<int>, n: nat): (v: int)
    requires n <= |a|
    ensures v >= -1
  {
    if LastWanted(a, n) >= 0 then a[LastWanted(a, n)] else -1
  }

  lemma CompressGap(a: seq<int>, n: nat)
    requires n < |a| && FitsCompress(a, |a|) && a[n] >= 0
    ensures a[n] - LastSource(a, n) >= n - LastWanted(a, n) > 0
  {
    assert LastWanted(a, n) >= 0 ==> a[n] - a[LastWanted(a, n)] >= n - LastWanted(a, n);
  }

  /** One index of the loop of compress_mask. */
  method CompressAdd(a: seq<int>, i: nat, m0: Mask, lasti: int, lastp: int) returns (m: Mask)
    requires i < |a| && InRange(a, |a|) && FitsCompress(a, |a|) && a[i] >= 0
    requires CompressBits(a, i, m0, lasti, lastp)
    ensures CompressBits(a, i + 1, m, a[i], i)
  {
    CompressGap(a, i);
    assert ValidIndex(a[i], |a|);
    m := m0[a[i] := true];
    m := FillBits(m, lasti, i - lastp);
    CompressOne(a, i, m0, m, lasti, lastp);
  }

  /** compress_mask, for lists that fit compression: the source of element i has rank i. */
  method CompressMask(a: seq<int>) returns (m: Mask)
    requires InRange(a, |a|) && FitsCompress(a, |a|)
    ensures |m| == |a|
    ensures forall i :: 0 <= i < |a| && a[i] >= 0 ==> a[i] < |m| && m[a[i]] && Rank(m, a[i]) == i
    ensures Rank(m, |m|) == LastWanted(a, |a|) + 1
  {
    m := seq(|a|, _ => false);
    var lasti, lastp := -1, -1;
    for i := 0 to |a|
      invariant CompressBits(a, i, m, lasti, lastp)
    {
      var ix := a[i];
      if ix >= 0 {
        m := CompressAdd(a, i, m, lasti, lastp);
        lastp, lasti := i, ix;
      }
    }
    RankOfRun(m, lasti + 1, |m|, false);
  }

  /** The selected elements, next to each other. */
  function Selected(m: Mask, v: Vec, n: nat): (r: Vec)
    requires n <= |m| == |v|
    ensures |r| == Rank(m, n)
  {
    if n == 0 then [] else Selected(m, v, n - 1) + (if m[n - 1] then [v[n - 1]] else [])
  }

  lemma {:induction false} SelectedAt(m: Mask, v: Vec, n: nat, k: nat)
    requires k < n <= |m| == |v| && m[k]
    ensures Rank(m, k) < Rank(m, n)
    ensures Selected(m, v, n)[Rank(m, k)] == v[k]
  {
    RankGrows(m, k, n);
    if k < n - 1 {
      SelectedAt(m, v, n - 1, k);
    }
  }

  lemma {:induction false} SelectedSized(m: Mask, v: Vec, n: nat, s: nat)
    requires n <= |m| == |v| && Sized(v, s)
    ensures Sized(Selected(m, v, n), s)
  {
    if n > 0 { SelectedSized(m, v, n - 1, s); }
  }

  /** The compression instruction, with zeros at the end. */
  function CompressZ(m: Mask, v: Vec, s: nat): (r: Vec)
    requires |m| == |v|
    ensures |r| == |v|
  {
    Selected(m, v, |v|) + ZeroVec(|v| - Rank(m, |m|), s)
  }

  lemma CompressSound(a: seq<int>, s: nat, v: Vec, m: Mask)
    requires |a| == |v| == |m| && Sized(v, s) && InRange(a, |a|)
    requires forall i :: 0 <= i < |a| && a[i] >= 0 ==> a[i] < |m| && m[a[i]] && Rank(m, a[i]) == i
    requires Rank(m, |m|) == LastWanted(a, |a|) + 1
    ensures Sized(CompressZ(m, v, s), s) && Routed(a, v, CompressZ(m, v, s))
    ensures !ZeroBeforeLast(a, |a|) ==> Meets(a, s, v, CompressZ(m, v, s))
  {
    var y := CompressZ(m, v, s);
    SelectedSized(m, v, |v|, s);
    forall i | 0 <= i < |a| && 0 <= a[i] < |v| ensures y[i] == v[a[i]] {
      SelectedAt(m, v, |v|, a[i]);
    }
  }

  // ----- expansion

  /** The expansion instruction. */
  function ExpandZ(m: Mask, v: Vec, s: nat): (r: Vec)
    requires |m| == |v|
    ensures |r| == |v|
  {
    seq(|v|, i requires 0 <= i < |v| => if m[i] then RankGrows(m, i, |m|); v[Rank(m, i)] else Zero(s))
  }

  ghost predicate ExpandBits(a: seq<int>, n: nat, m: Mask, lasti: int, lastp: int)
    requires n <= |a|
  {
    && |m| == |a| && -1 <= lasti <= lastp
    && lastp == LastWanted(a, n) && lasti == LastSource(a, n)
    && Rank(m, lastp + 1) == lasti + 1
    && (forall k :: lastp < k < |m| ==> !m[k])
    && (forall i :: 0 <= i < n && a[i] >= 0 ==> m[i] && Rank(m, i) == a[i])
    && (forall k :: 0 <= k < |m| && m[k] && a[k] < 0 ==> SkipsSource(a, |a|))
  }

  lemma ExpandGap(a: seq<int>, n: nat)
    requires n < |a| && FitsExpand(a, |a|) && a[n] >= 0
    ensures 0 < a[n] - LastSource(a, n) <= n - LastWanted(a, n)
  {
    assert LastWanted(a, n) >= 0 ==> 0 < a[n] - a[LastWanted(a, n)] <= n - LastWanted(a, n);
  }

  lemma SourceSkipped(a: seq<int>, n: nat)
    requires n < |a| && FitsExpand(a, |a|) && a[n] >= 0 && a[n] - LastSource(a, n) > 1
    ensures SkipsSource(a, |a|)
  {
    var v := LastSource(a, n) + 1;
    assert !Uses(a, |a|, v) by {
      forall k | 0 <= k < |a| ensures a[k] != v {
      }
    }
    assert 0 <= v < a[n];
  }

  /** The new bits in m' are the dummies lo to hi and bit n. */
  lemma ExpandRanks(m: Mask, m': Mask, n: nat, lo: nat, hi: nat)
    requires lo <= hi <= n < |m| && m' == SetBits(m[n := true], lo, hi)
    requires forall k :: lo <= k < |m| ==> !m[k]
    ensures Rank(m', n) == Rank(m, lo) + hi - lo && Rank(m', n + 1) == Rank(m', n) + 1
    ensures forall k :: 0 <= k < lo ==> m'[k] == m[k] && Rank(m', k) == Rank(m, k)
    ensures forall k :: n < k < |m| ==> !m'[k]
  {
    RankDependsOnLowBits(m, m', lo);
    RankOfRun(m', lo, hi, true);
    RankOfRun(m', hi, n, false);
    forall k | 0 <= k < lo ensures m'[k] == m[k] && Rank(m', k) == Rank(m, k) {
      RankDependsOnLowBits(m, m', k);
    }
  }

  /** One more bit m'[n], with dummies between the previous one and it. */
  ghost predicate OneMoreBit(a: seq<int>, n: nat, m: Mask, m': Mask, lasti: int, lastp: int) {
    && n < |a| && FitsExpand(a, |a|) && a[n] >= 0
    && ExpandBits(a, n, m, lasti, lastp)
    && lasti < a[n] && lastp + a[n] - lasti <= n
    && m' == SetBits(m[n := true], lastp + 1, lastp + a[n] - lasti)
  }

  lemma ExpandOneRanks(a: seq<int>, n: nat, m: Mask, m': Mask, lasti: int, lastp: int)
    requires OneMoreBit(a, n, m, m', lasti, lastp)
    ensures |m'| == |a| && m'[n] && Rank(m', n) == a[n] && Rank(m', n + 1) == a[n] + 1
    ensures forall k :: n < k < |m'| ==> !m'[k]
    ensures forall k :: 0 <= k <= lastp ==> m'[k] == m[k] && Rank(m', k) == Rank(m, k)
  {
    var lo, hi := lastp + 1, lastp + a[n] - lasti;
    ExpandRanks(m, m', n, lo, hi);
    BitIsSet(m, n, lo, hi);
  }

  lemma KeptRanks(a: seq<int>, n: nat, m: Mask, m': Mask, lasti: int, lastp: int)
    requires n <= |a| == |m'| && ExpandBits(a, n, m, lasti, lastp)
    requires forall k :: 0 <= k <= lastp ==> m'[k] == m[k] && Rank(m', k) == Rank(m, k)
    ensures forall i :: 0 <= i < n && a[i] >= 0 ==> m'[i] && Rank(m', i) == a[i]
  {
    forall i | 0 <= i < n && a[i] >= 0 ensures m'[i] && Rank(m', i) == a[i] {
      assert i <= LastWanted(a, n);
    }
  }

  lemma BitIsSet(m: Mask, n: nat, lo: nat, hi: nat)
    requires lo <= hi <= n < |m|
    ensures SetBits(m[n := true], lo, hi)[n]
  {
  }

  lemma ExpandOneDummies(a: seq<int>, n: nat, m: Mask, m': Mask, lasti: int, lastp: int)
    requires OneMoreBit(a, n, m, m', lasti, lastp)
    ensures forall k :: 0 <= k < |m'| && m'[k] && a[k] < 0 ==> SkipsSource(a, |a|)
  {
    if a[n] - lasti > 1 {
      SourceSkipped(a, n);
    }
  }

  lemma ExpandOne(a: seq<int>, n: nat, m: Mask, m': Mask, lasti: int, lastp: int)
    requires OneMoreBit(a, n, m, m', lasti, lastp)
    ensures ExpandBits(a, n + 1, m', a[n], n)
  {
    ExpandOneRanks(a, n, m, m', lasti, lastp);
    KeptRanks(a, n, m, m', lasti, lastp);
    ExpandOneDummies(a, n, m, m', lasti, lastp);
    assert LastWanted(a, n + 1) == n && LastSource(a, n + 1) == a[n];
  }

  /** One index of the loop of expand_mask. */
  method ExpandAdd(a: seq<int>, i: nat, m0: Mask, lasti: int, lastp: int) returns (m: Mask)
    requires i < |a| && FitsExpand(a, |a|) && a[i] >= 0
    requires ExpandBits(a, i, m0, lasti, lastp)
    ensures ExpandBits(a, i + 1, m, a[i], i)
  {
    ExpandGap(a, i);
    m := m0[i := true];
    m := FillBits(m, lastp, a[i] - lasti);
    ExpandOne(a, i, m0, m, lasti, lastp);
  }

  /** expand_mask, for lists that fit expansion: destination i has rank a[i]. A dummy bit is
      set only before the last element asked for, and only if the list skips some source. */
  method ExpandMask(a: seq<int>) returns (m: Mask)
    requires FitsExpand(a, |a|)
    ensures |m| == |a|
    ensures forall i :: 0 <= i < |a| && a[i] >= 0 ==> m[i] && Rank(m, i) == a[i]
    ensures forall k :: 0 <= k < |a| && m[k] && a[k] < 0 ==> SkipsSource(a, |a|) && k < LastWanted(a, |a|)
  {
    m := seq(|a|, _ => false);
    var lasti, lastp := -1, -1;
    for i := 0 to |a|
      invariant ExpandBits(a, i, m, lasti, lastp)
    {
      var ix := a[i];
      if ix >= 0 {
        m := ExpandAdd(a, i, m, lasti, lastp);
        lastp, lasti := i, ix;
      }
    }
  }

  lemma ExpandSound(a: seq<int>, s: nat, v: Vec, m: Mask)
    requires |a| == |v| == |m| && Sized(v, s)
    requires forall i :: 0 <= i < |a| && a[i] >= 0 ==> m[i] && Rank(m, i) == a[i]
    requires forall k :: 0 <= k < |a| && m[k] && a[k] < 0 ==> SkipsSource(a, |a|) && k < LastWanted(a, |a|)
    ensures Sized(ExpandZ(m, v, s), s) && Routed(a, v, ExpandZ(m, v, s))
    ensures !(SkipsSource(a, |a|) && ZeroBeforeLast(a, |a|)) ==> Meets(a, s, v, ExpandZ(m, v, s))
  {
    var last := LastWanted(a, |a|);
    forall i | 0 <= i < |a| && a[i] == -1 && m[i] ensures SkipsSource(a, |a|) && ZeroBeforeLast(a, |a|) {
      assert i < last && a[last] >= 0;
    }
  }
}
