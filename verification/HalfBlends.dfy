/** Emulation by blends of half the size. */
module HalfBlends {
  // Blends and permutes of vectors that the instruction set does not support (blend_half), level
  // upon level.

  import opened Options
  import opened IndexLists
  import opened Vectors
  import opened HalfIndexes
  import opened HalfRejections
  import Blend128
  import Blend256

  method NativeBlend(base: Base, instrset: nat, zextMissing: bool, idx: seq<int>, a: Vec, b: Vec)
      returns (r: Option<Vec>)
    requires base.Supported(instrset) && |idx| == |a| == |b| == base.Width()
    requires Sized(a, base.ElementSize()) && Sized(b, base.ElementSize())
    ensures r.None? <==> !InRange(idx, 2 * |a|)
    ensures r.Some? ==> Meets(idx, base.ElementSize(), a + b, r.value)
  {
    match base
    case Vec2d => r := Blend128.Blend2d(instrset, idx, a, b);
    case Vec4f => r := Blend128.Blend4f(instrset, idx, a, b);
    case Vec4d => r := Blend256.Blend4d(instrset, zextMissing, idx, a, b);
    case Vec8f => r := Blend256.Blend8f(instrset, zextMissing, idx, a, b);
  }

  /** selectblend: the four sources are the halves of a and b. */
  function SelectBlend(a: Vec, b: Vec, q: int): (r: Vec)
    requires |a| == |b| && |a| % 2 == 0
    ensures |r| == |a| / 2
  {
    var h := |a| / 2;
    if q == 0 then a[..h] else if q == 1 then a[h..] else if q == 2 then b[..h] else b[h..]
  }

  /** An element of a||b, found in its half-size source. */
  lemma QuarterElement(ix: nat, n: nat, a: Vec, b: Vec)
    requires n > 0 && |a| == |b| == 2 * n && ix < 4 * n
    ensures ix / n < 4 && ix % n < n && SelectBlend(a, b, ix / n)[ix % n] == (a + b)[ix]
  {
    Quarter(ix, n);
  }

  /** One element of a blend of two of the sources: what was asked for if it comes from one of
      them, zero if it comes from another source. */
  lemma PassElement(ix: int, n: nat, dozero: nat, src1: int, src2: int, s: nat, a: Vec, b: Vec, e: Elem)
    requires n > 0 && |a| == |b| == 2 * n && (dozero == 1 || dozero == 2) && 0 <= src1 < 4 && 0 <= src2 < 4
    requires var l, src := HalfIndex(ix, n, dozero, src1, src2), SelectBlend(a, b, src1) + SelectBlend(a, b, src2);
             (0 <= l < 2 * n ==> e == src[l]) && (l == -1 || !ValidIndex(l, 2 * n) ==> e == Zero(s))
    ensures 0 <= ix < 4 * n && (ix / n == src1 || ix / n == src2) ==> e == (a + b)[ix]
    ensures 0 <= ix && ix / n != src1 && ix / n != src2 ==> e == Zero(s)
    ensures ix < 0 && (dozero == 1 || ix != V_DC) ==> e == Zero(s)
  {
    if ix >= 0 {
      Quarter(ix, n);
      if ix < 4 * n { QuarterElement(ix, n, a, b); }
    }
  }

  // ----- one pass, and two passes together

  /** What a blend of sources src1 and src2 contributes. */
  ghost predicate PassDone(ind: seq<int>, dozero: nat, src1: int, src2: int, s: nat, a: Vec, b: Vec, x: Vec)
    requires |a| == |b| == 2 * |ind| && |ind| > 0
  {
    && Sized(x, s) && |x| == |ind|
    && forall j :: 0 <= j < |ind| ==> ElementDone(ind[j], |ind|, dozero, src1, src2, s, a, b, x[j])
  }

  ghost predicate ElementDone(ix: int, n: nat, dozero: nat, src1: int, src2: int, s: nat, a: Vec, b: Vec, e: Elem)
    requires n > 0 && |a| == |b| == 2 * n
  {
    && (0 <= ix < 4 * n && (ix / n == src1 || ix / n == src2) ==> e == (a + b)[ix])
    && (0 <= ix && ix / n != src1 && ix / n != src2 ==> e == Zero(s))
    && (ix < 0 && (dozero == 1 || ix != V_DC) ==> e == Zero(s))
  }

  lemma PassResult(ind: seq<int>, L: seq<int>, dozero: nat, src1: int, src2: int, s: nat, a: Vec, b: Vec, x: Vec)
    requires |ind| > 0 && |L| == |ind| && |a| == |b| == 2 * |ind| && (dozero == 1 || dozero == 2) && 0 <= src1 < 4
    requires 0 <= src2 < 4
    requires forall j :: 0 <= j < |ind| ==> L[j] == HalfIndex(ind[j], |ind|, dozero, src1, src2)
    requires Meets(Sanitized(L, 2 * |ind|), s, SelectBlend(a, b, src1) + SelectBlend(a, b, src2), x)
    ensures PassDone(ind, dozero, src1, src2, s, a, b, x)
  {
    forall j | 0 <= j < |ind| ensures ElementDone(ind[j], |ind|, dozero, src1, src2, s, a, b, x[j]) {
      PassElement(ind[j], |ind|, dozero, src1, src2, s, a, b, x[j]);
    }
  }

  lemma OnePass(ind: seq<int>, src1: int, src2: int, s: nat, a: Vec, b: Vec, x: Vec)
    requires |ind| > 0 && |a| == |b| == 2 * |ind| && 0 <= src1 < 4 && 0 <= src2 < 4
    requires PassDone(ind, 2, src1, src2, s, a, b, x) && Covers(ind, |ind|, [src1, src2])
    ensures Meets(Sanitized(ind, 4 * |ind|), s, a + b, x)
  {
    forall j | 0 <= j < |ind|
      ensures ValidIndex(ind[j], 4 * |ind|) && ind[j] >= 0 ==> x[j] == (a + b)[ind[j]]
      ensures !ValidIndex(ind[j], 4 * |ind|) || ind[j] == -1 ==> x[j] == Zero(s)
    {
      assert ElementDone(ind[j], |ind|, 2, src1, src2, s, a, b, x[j]);
      if ind[j] >= 0 { Quarter(ind[j], |ind|); }
    }
  }

  lemma OneElementOfTwo(ix: int, n: nat, src0: int, src1: int, src2: int, src3: int, s: nat, a: Vec, b: Vec,
                        e0: Elem, e1: Elem)
    requires n > 0 && |a| == |b| == 2 * n && |e0| == |e1| == s
    requires 0 <= src0 < 4 && 0 <= src1 < 4 && 0 <= src2 < 4 && 0 <= src3 < 4
    requires ElementDone(ix, n, 1, src0, src1, s, a, b, e0) && ElementDone(ix, n, 1, src2, src3, s, a, b, e1)
    requires 0 <= ix < 4 * n ==> ix / n in [src0, src1, src2, src3]
    ensures OrElem(e0, e1) == if 0 <= ix < 4 * n then (a + b)[ix] else Zero(s)
  {
    if ix >= 0 { Quarter(ix, n); }
    OrWithZero(e0);
    OrWithZero(e1);
    OrWithSelf(e0);
  }

  /** An element that both passes select is not changed by OR. This happens when three sources
      are used: the padding makes the second pass select the first source of the vector again. */
  lemma TwoPasses(ind: seq<int>, src: seq<int>, s: nat, a: Vec, b: Vec, x0: Vec, x1: Vec)
    requires |ind| > 0 && |a| == |b| == 2 * |ind| && |src| == 4 && forall k :: 0 <= k < 4 ==> 0 <= src[k] < 4
    requires PassDone(ind, 1, src[0], src[1], s, a, b, x0) && PassDone(ind, 1, src[2], src[3], s, a, b, x1)
    requires Covers(ind, |ind|, src)
    ensures Meets(Sanitized(ind, 4 * |ind|), s, a + b, Or(x0, x1))
  {
    var x := Or(x0, x1);
    assert src == [src[0], src[1], src[2], src[3]];
    forall j | 0 <= j < |ind| ensures x[j] == if 0 <= ind[j] < 4 * |ind| then (a + b)[ind[j]] else Zero(s) {
      OneElementOfTwo(ind[j], |ind|, src[0], src[1], src[2], src[3], s, a, b, x0[j], x1[j]);
    }
  }

  // ----- the recursion

  /** blend_half: one half of the result of a blend of a and b. The order of the sources is a.low,
      a.high, b.low, b.high. The branch for no sources has no else, so that the blends after it
      are instantiated all the same, and reject what they reject. */
  method BlendHalf(base: Base, levels: nat, instrset: nat, zextMissing: bool, ind: seq<int>, a: Vec, b: Vec)
      returns (r: Option<Vec>)
    requires base.Supported(instrset) && |ind| == WidthAt(base, levels) && |a| == |b| == 2 * |ind|
    requires Sized(a, base.ElementSize()) && Sized(b, base.ElementSize())
    ensures r.None? <==> HalfRejected(base, levels, ind)
    ensures r.Some? ==> Meets(Sanitized(ind, 4 * |ind|), base.ElementSize(), a + b, r.value)
    decreases levels, 1
  {
    var N, s := |ind|, base.ElementSize();
    var sources, nsrc, used := ListSources(N, ind);
    CoveredBy(ind, N, sources, nsrc, used);
    assert forall k :: 0 <= k < 4 ==> 0 <= sources[k] < 4 by {
      forall k | 0 <= k < nsrc ensures 0 <= sources[k] < 4 { assert sources[..nsrc][k] == sources[k]; }
    }
    var uindex := if nsrc > 2 then 1 else 2;
    var x0 := BlendPass(base, levels, instrset, zextMissing, ind, uindex, sources[0], sources[1], a, b);
    if x0.None? {
      return None;
    }
    if nsrc == 0 {
      return Some(ZeroVec(N, s));
    }
    if nsrc > 2 {
      if N == 2 {
        FewSources(ind, N, used);
        assert false;
      }
      var x1 := BlendPass(base, levels, instrset, zextMissing, ind, 1, sources[2], sources[3], a, b);
      TwoPasses(ind, sources, s, a, b, x0.value, x1.value);
      return Some(Or(x0.value, x1.value));
    }
    OnePass(ind, sources[0], sources[1], s, a, b, x0.value);
    return x0;
  }

  /** A blend of two of the four sources. */
  method BlendPass(base: Base, levels: nat, instrset: nat, zextMissing: bool, ind: seq<int>, dozero: nat,
                   src1: int, src2: int, a: Vec, b: Vec) returns (x: Option<Vec>)
    requires base.Supported(instrset) && |ind| == WidthAt(base, levels) && |a| == |b| == 2 * |ind|
    requires Sized(a, base.ElementSize()) && Sized(b, base.ElementSize())
    requires (dozero == 1 || dozero == 2) && 0 <= src1 < 4 && 0 <= src2 < 4
    ensures dozero == 1 ==> x.Some?
    ensures dozero == 2 && CountedSources(ind, |ind|) <= 2 && Covers(ind, |ind|, [src1, src2]) ==>
      (x.None? <==> HalfRejected(base, levels, ind))
    ensures x.Some? ==> PassDone(ind, dozero, src1, src2, base.ElementSize(), a, b, x.value)
    decreases levels, 0, 1
  {
    var L := BlendHalfIndexes(ind, dozero, src1, src2);
    HalfIndexInRange(ind, L, dozero, src1, src2);
    x := EmulatedBlend(base, levels, instrset, zextMissing, L, SelectBlend(a, b, src1), SelectBlend(a, b, src2));
    if dozero == 1 {
      LegalAccepted(base, levels, L);
    } else if Covers(ind, |ind|, [src1, src2]) {
      RejectedStep(base, levels, ind, L, src1, src2);
    }
    if x.Some? {
      PassResult(ind, L, dozero, src1, src2, base.ElementSize(), a, b, x.value);
    }
  }

  /** What an accepted list gets: every element that is there, any value for V_DC, and zero for
      everything else. */
  lemma SanitizedMeans(idx: seq<int>, s: nat, src: Vec, y: Vec)
    requires Meets(Sanitized(idx, |src|), s, src, y)
    ensures |y| == |idx|
    ensures forall i :: 0 <= i < |idx| && 0 <= idx[i] < |src| ==> y[i] == src[idx[i]]
    ensures forall i :: 0 <= i < |idx| && !(0 <= idx[i] < |src|) && idx[i] != V_DC ==> y[i] == Zero(s)
  {
    var z := Sanitized(idx, |src|);
    forall i | 0 <= i < |idx|
      ensures 0 <= idx[i] < |src| ==> y[i] == src[idx[i]]
      ensures !(0 <= idx[i] < |src|) && idx[i] != V_DC ==> y[i] == Zero(s)
    {
      assert z[i] == if ValidIndex(idx[i], |src|) then idx[i] else -1;
    }
  }

  lemma TwoHalves(idx: seq<int>, n: nat, s: nat, src: Vec, lo: Vec, hi: Vec)
    requires |idx| == 2 * n
    requires Meets(Sanitized(idx[..n], |src|), s, src, lo) && Meets(Sanitized(idx[n..], |src|), s, src, hi)
    ensures Meets(Sanitized(idx, |src|), s, src, lo + hi)
  {
    var y, z := lo + hi, Sanitized(idx, |src|);
    forall i | 0 <= i < |idx|
      ensures 0 <= z[i] < |src| ==> y[i] == src[z[i]]
      ensures z[i] == -1 ==> y[i] == Zero(s)
      ensures |y[i]| == s
    {
      if i < n {
        assert Sanitized(idx[..n], |src|)[i] == z[i];
      } else {
        assert Sanitized(idx[n..], |src|)[i - n] == z[i];
      }
    }
  }

  /** Blends at any number of doublings above a supported width, and exactly which lists they
      reject. An accepted list gets what it asks for, where everything illegal is read as -1. */
  method EmulatedBlend(base: Base, levels: nat, instrset: nat, zextMissing: bool, idx: seq<int>, a: Vec, b: Vec)
      returns (r: Option<Vec>)
    requires base.Supported(instrset) && |idx| == |a| == |b| == WidthAt(base, levels)
    requires Sized(a, base.ElementSize()) && Sized(b, base.ElementSize())
    ensures r.None? <==> Rejected(base, levels, idx)
    ensures r.Some? ==> Meets(Sanitized(idx, 2 * |a|), base.ElementSize(), a + b, r.value)
    decreases levels, 0, 0
  {
    if levels == 0 {
      r := NativeBlend(base, instrset, zextMissing, idx, a, b);
      if r.Some? {
        SanitizedInRange(idx, 2 * |a|);
      }
    } else {
      r := WideBlend(base, levels, instrset, zextMissing, idx, a, b);
    }
  }

  /** blend4(Vec4d), blend8(Vec8f) and so on, from two halves. */
  method WideBlend(base: Base, levels: nat, instrset: nat, zextMissing: bool, idx: seq<int>, a: Vec, b: Vec)
      returns (r: Option<Vec>)
    requires levels > 0 && base.Supported(instrset) && |idx| == |a| == |b| == WidthAt(base, levels)
    requires Sized(a, base.ElementSize()) && Sized(b, base.ElementSize())
    ensures r.None? <==> Rejected(base, levels, idx)
    ensures r.Some? ==> Meets(Sanitized(idx, 2 * |a|), base.ElementSize(), a + b, r.value)
    decreases levels - 1, 2
  {
    var n := |idx| / 2;
    var x0 := BlendHalf(base, levels - 1, instrset, zextMissing, idx[..n], a, b);
    var x1 := BlendHalf(base, levels - 1, instrset, zextMissing, idx[n..], a, b);
    if x0.None? || x1.None? {
      return None;
    }
    TwoHalves(idx, n, base.ElementSize(), a + b, x0.value, x1.value);
    r := Some(x0.value + x1.value);
  }

  /** Permutes above the supported width: each half of the result is a blend of the two halves
      of the vector. */
  method EmulatedPermute(base: Base, levels: nat, instrset: nat, zextMissing: bool, idx: seq<int>, a: Vec)
      returns (r: Option<Vec>)
    requires levels > 0 && base.Supported(instrset) && |idx| == |a| == WidthAt(base, levels)
    requires Sized(a, base.ElementSize())
    ensures r.None? <==> PermuteRejected(base, levels, idx)
    ensures r.Some? ==> Meets(Sanitized(idx, |a|), base.ElementSize(), a, r.value)
  {
    var n := |idx| / 2;
    var low, high := a[..n], a[n..];
    var x0 := EmulatedBlend(base, levels - 1, instrset, zextMissing, idx[..n], low, high);
    var x1 := EmulatedBlend(base, levels - 1, instrset, zextMissing, idx[n..], low, high);
    if x0.None? || x1.None? {
      return None;
    }
    assert low + high == a;
    TwoHalves(idx, n, base.ElementSize(), a, x0.value, x1.value);
    r := Some(x0.value + x1.value);
  }
}
