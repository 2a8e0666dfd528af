/** Blend functions for 128-bit vectors of float and double, the SSE ones (vectorf128.h). */
module Blend128 {
  import opened Options
  import opened IndexLists
  import PermScan
  import opened BlendScan
  import opened BlendPlanning
  import opened Vectors
  import opened Intrinsics
  import opened LargeBlocks
  import opened Masks
  import opened RegisterBytes
  import opened BlendSplits
  import opened BlendFits
  import opened Permute128
  import Blend256
  import PermuteFits

  // ----- selection by a broad mask

  function NotElem(x: Elem): (e: Elem)
    ensures |e| == |x|
  {
    seq(|x|, k requires 0 <= k < |x| => !x[k])
  }

  /** (s & a) | (~s & b), element by element. */
  function SelectBroad(m: Vec, a: Vec, b: Vec): (r: Vec)
    requires |m| == |a| == |b| && forall i :: 0 <= i < |m| ==> |m[i]| == |a[i]| == |b[i]|
    ensures |r| == |m|
    ensures forall i :: 0 <= i < |r| ==> r[i] == OrElem(AndElem(m[i], a[i]), AndElem(NotElem(m[i]), b[i]))
  {
    seq(|m|, i requires 0 <= i < |m| => OrElem(AndElem(m[i], a[i]), AndElem(NotElem(m[i]), b[i])))
  }

  method MakeBroadMask(m: Mask, s: nat) returns (u: Vec)
    ensures |u| == |m| && Sized(u, s)
    ensures forall i :: 0 <= i < |m| ==> u[i] == if m[i] then Ones(s) else Zero(s)
  {
    u := ZeroVec(|m|, s);
    for i := 0 to |m|
      invariant |u| == |m| && Sized(u, s)
      invariant forall k :: 0 <= k < i ==> u[k] == if m[k] then Ones(s) else Zero(s)
    {
      u := u[i := if m[i] then Ones(s) else Zero(s)];
    }
  }

  lemma SelectElement(x: Elem, y: Elem, s: nat)
    requires |x| == |y| == s
    ensures OrElem(AndElem(Ones(s), x), AndElem(NotElem(Ones(s)), y)) == x
    ensures OrElem(AndElem(Zero(s), x), AndElem(NotElem(Zero(s)), y)) == y
  {
    AndWithMask(x);
    AndWithMask(y);
    OrWithZero(x);
    OrWithZero(y);
    assert NotElem(Ones(s)) == Zero(s) && NotElem(Zero(s)) == Ones(s);
  }

  /** Choosing between two vectors by a mask of bits, in the way the instruction set allows. */
  method MergeByMask(instrset: nat, m: Mask, a: Vec, b: Vec, s: nat) returns (y: Vec)
    requires |m| == |a| == |b| && Sized(a, s) && Sized(b, s)
    ensures y == MaskMov(m, a, b)
  {
    if instrset >= 5 {
      y := MaskMov(m, a, b);
    } else {
      var bm := MakeBroadMask(m, s);
      y := SelectBroad(bm, b, a);
      forall i | 0 <= i < |y| ensures y[i] == MaskMov(m, a, b)[i] {
        SelectElement(b[i], a[i], s);
      }
    }
  }

  // ----- Vec2d

  method OneSourcePd(instrset: nat, idx: seq<int>, a: Vec, b: Vec, fromA: bool) returns (y: Vec)
    requires instrset >= 2 && |idx| == |a| == |b| == 2 && Sized(a, 8) && Sized(b, 8) && InRange(idx, 4)
    requires if fromA then !UsesB(idx, 2) else !UsesA(idx, 2)
    ensures Meets(idx, 8, a + b, y)
  {
    var r;
    if fromA {
      Blend256.OnlyAInRange(idx);
      r := Permute2d(instrset, idx, a);
      OnlyA(idx, 8, a, b, r.value);
    } else {
      var forB := OnlyIndexes(idx);
      r := Permute2d(instrset, forB, b);
      OnlyB(idx, forB, 8, a, b, r.value);
    }
    y := r.value;
  }

  /** Bit log2(n) of each index; the bit of a negative index does not matter. */
  method SourceBits(idx: seq<int>, n: nat) returns (m: Mask)
    requires (n == 2 || n == 4) && |idx| == n && InRange(idx, 2 * n)
    ensures SelectsB(idx, n, m)
  {
    m := seq(n, i requires 0 <= i < n => idx[i] / n % 2 == 1);
    forall i | 0 <= i < n && idx[i] >= 0 ensures m[i] <==> idx[i] >= n {
      assert ValidIndex(idx[i], 2 * n);
    }
  }

  method SourceMaskPd(instrset: nat, idx: seq<int>) returns (m: Mask)
    requires |idx| == 2 && InRange(idx, 4)
    ensures SelectsB(idx, 2, m)
  {
    if 5 <= instrset < 10 {
      m := SourceBits(idx, 2);
    } else {
      m := MakeBitMask(idx, 0x301);
      SourceBit2(idx, m);
    }
  }

  method MergeOnlyPd(instrset: nat, idx: seq<int>, a: Vec, b: Vec) returns (y: Vec)
    requires |idx| == |a| == |b| == 2 && Sized(a, 8) && Sized(b, 8) && InRange(idx, 4) && !MovesA(idx, 2)
    requires !MovesB(idx, 2)
    ensures Sized(y, 8) && Routed(idx, a + b, y)
  {
    var m := SourceMaskPd(instrset, idx);
    NoPermutationFits(idx, a, b, m);
    y := MergeByMask(instrset, m, a, b, 8);
  }

  lemma LowTwoBits(p: nat, q: nat)
    ensures Bit((p + 256 * q) % 4, 0) == Bit(p, 0) && Bit((p + 256 * q) % 4, 1) == Bit(p, 1)
  {
    LowPart(p, q);
  }

  lemma LowPart(p: nat, q: nat)
    ensures (p + 256 * q) % 4 == p % 4
  {
  }

  /** shufpd with the two lowest bits of the plan word shifted down. */
  method ShuffleBlendPd(idx: seq<int>, a: Vec, b: Vec, evenFromB: bool, shufpattern: nat, rotpattern: nat)
      returns (y: Vec)
    requires |idx| == |a| == |b| == 2 && Sized(a, 8) && Sized(b, 8)
    requires Alternates(idx, 2, 2, evenFromB) && forall i :: 0 <= i < 2 ==> Bit(shufpattern, i) == idx[i] % 2
    ensures Sized(y, 8) && Routed(idx, a + b, y)
  {
    var imm := (shufpattern + 256 * rotpattern) % 4;
    LowTwoBits(shufpattern, rotpattern);
    ShufflePdFits(idx, a, b, evenFromB, imm);
    ShufflePdSized(a, b, imm, 8);
    ShufflePdSized(b, a, imm, 8);
    y := if evenFromB then ShufflePd(b, a, imm) else ShufflePd(a, b, imm);
  }

  /** Permute a and b separately, then merge; before SSE4.1 by OR, which also does the zeroing. */
  method SplitBlendPd(instrset: nat, idx: seq<int>, a: Vec, b: Vec) returns (y: Vec, done: bool)
    requires instrset >= 2 && |idx| == |a| == |b| == 2 && Sized(a, 8) && Sized(b, 8) && InRange(idx, 4)
    ensures Sized(y, 8) && Routed(idx, a + b, y)
    ensures done ==> Meets(idx, 8, a + b, y)
  {
    var dozero := if instrset >= 5 then 0 else 1;
    var forA, forB := BlendPermIndexes(idx, dozero);
    SplitInRange(idx, forA, forB, dozero);
    var ya := Permute2d(instrset, forA, a);
    var yb := Permute2d(instrset, forB, b);
    if instrset >= 5 {
      var m := SourceMaskPd(instrset, idx);
      MergeIsBlend(idx, a, b, forA, forB, ya.value, yb.value, m);
      y := MaskMov(m, ya.value, yb.value);
      done := false;
    } else {
      OrIsBlend(idx, 8, a, b, forA, forB, ya.value, yb.value);
      y := Or(ya.value, yb.value);
      done := true;
    }
  }

  method MoveBlendPd(instrset: nat, idx: seq<int>, a: Vec, b: Vec, flags: BlendPlan) returns (y: Vec, done: bool)
    requires instrset >= 2 && |idx| == |a| == |b| == 2 && Sized(a, 8) && Sized(b, 8) && InRange(idx, 4)
    requires Planned(1, 2, instrset, idx, flags)
    ensures Sized(y, 8) && Routed(idx, a + b, y)
    ensures done ==> Meets(idx, 8, a + b, y)
  {
    done := false;
    var u := flags.unpack;
    if !flags.permA && !flags.permB {
      y := MergeOnlyPd(instrset, idx, a, b);
    } else if u.lowAB || u.lowBA || u.highAB || u.highBA {
      y := Blend256.UnpackBlendPd(idx, a, b, u);
    } else if flags.shufab || flags.shufba {
      y := ShuffleBlendPd(idx, a, b, !flags.shufab, flags.shufpattern, flags.rotpattern);
    } else {
      y, done := SplitBlendPd(instrset, idx, a, b);
    }
  }

  method BlendAndZeroPd(instrset: nat, idx: seq<int>, a: Vec, b: Vec, flags: BlendPlan) returns (y: Vec)
    requires instrset >= 2 && |idx| == |a| == |b| == 2 && Sized(a, 8) && Sized(b, 8) && InRange(idx, 4)
    requires Planned(1, 2, instrset, idx, flags)
    ensures Meets(idx, 8, a + b, y)
  {
    var done;
    y, done := MoveBlendPd(instrset, idx, a, b, flags);
    if !done && flags.zeroing {
      y := ZeroUnused(instrset, idx, 8, a + b, y);
    }
  }

  /** blend2(Vec2d). */
  method Blend2d(instrset: nat, idx: seq<int>, a: Vec, b: Vec) returns (r: Option<Vec>)
    requires instrset >= 2 && |idx| == |a| == |b| == 2 && Sized(a, 8) && Sized(b, 8)
    ensures r.None? <==> !InRange(idx, 4)
    ensures r.Some? ==> Meets(idx, 8, a + b, r.value)
  {
    PermuteFits.LaneSizesAre();
    var flags := BlendFlags(PermScan.Shape(1, 2), instrset, idx);
    if flags.outOfRange {
      return None;
    }
    var y;
    if flags.allzero {
      y := ZeroVec(2, 8);
    } else if !flags.fromB || !flags.fromA {
      y := OneSourcePd(instrset, idx, a, b, !flags.fromB);
    } else {
      y := BlendAndZeroPd(instrset, idx, a, b, flags);
    }
    return Some(y);
  }

  // ----- Vec4f

  method OneSourcePs(instrset: nat, idx: seq<int>, a: Vec, b: Vec, fromA: bool) returns (y: Vec)
    requires instrset >= 2 && |idx| == |a| == |b| == 4 && Sized(a, 4) && Sized(b, 4) && InRange(idx, 8)
    requires if fromA then !UsesB(idx, 4) else !UsesA(idx, 4)
    ensures Meets(idx, 4, a + b, y)
  {
    var r;
    if fromA {
      Blend256.OnlyAInRange(idx);
      r := Permute4f(instrset, idx, a);
      OnlyA(idx, 4, a, b, r.value);
    } else {
      var forB := OnlyIndexes(idx);
      r := Permute4f(instrset, forB, b);
      OnlyB(idx, forB, 4, a, b, r.value);
    }
    y := r.value;
  }

  /** Blend pairs of elements as elements of double size. */
  method BlendPairsPs(instrset: nat, idx: seq<int>, a: Vec, b: Vec, addz: bool) returns (y: Vec)
    requires instrset >= 2 && |idx| == |a| == |b| == 4 && Sized(a, 4) && Sized(b, 4) && InRange(idx, 8)
    requires FitsLargeBlock(idx)
    requires !addz ==> !SplitsPair(idx)
    ensures Sized(y, 4) && Routed(idx, a + b, y)
    ensures !addz ==> Meets(idx, 4, a + b, y)
  {
    var L := LargeBlockIndexes(idx);
    BlockListInRange(idx, 8);
    var r := Blend2d(instrset, L, Paired(a), Paired(b));
    Blend256.PairedConcat(a, b);
    LargeBlockSound(idx, 4, a + b, r.value);
    y := Split(r.value, 4);
  }

  /** palignr by whole elements. */
  method AlignedPs(hi: Vec, lo: Vec, rotpattern: nat) returns (y: Vec)
    requires |hi| == |lo| == 4 && Sized(hi, 4) && Sized(lo, 4)
    requires PermScan.Elements(4, rotpattern) < 4 && rotpattern == PermScan.Bytes(4, PermScan.Elements(4, rotpattern))
    ensures Sized(y, 4) && y == AlignrLanes(hi, lo, 4, PermScan.Elements(4, rotpattern))
  {
    AlignElements(hi, lo, 4, PermScan.Elements(4, rotpattern));
    AlignrOneLane(hi, lo, PermScan.Elements(4, rotpattern));
    y := ElementsOf(AlignBytes(BytesOf(hi), BytesOf(lo), rotpattern), 4, 4);
  }

  /** palignr with the count in the plan word, in bytes. */
  method AlignPs(idx: seq<int>, a: Vec, b: Vec, t: Turns, rotpattern: nat, instrset: nat) returns (y: Vec)
    requires |idx| == |a| == |b| == 4 && Sized(a, 4) && Sized(b, 4)
    requires !BlendCrosses(idx, 4, 4, 4) && TurnsPlanned(4, instrset, idx, t, rotpattern) && (t.ab || t.ba)
    ensures Sized(y, 4) && Routed(idx, a + b, y)
  {
    ghost var count := PermScan.Elements(4, rotpattern);
    if t.ab {
      TurnFits(idx, a, b, 4, 4 + count);
      y := AlignedPs(a, b, rotpattern);
    } else {
      TurnFits(idx, a, b, 4, count);
      y := AlignedPs(b, a, rotpattern);
    }
  }

  method SourceMaskPs(instrset: nat, idx: seq<int>) returns (m: Mask)
    requires |idx| == 4 && InRange(idx, 8)
    ensures SelectsB(idx, 4, m)
  {
    if 5 <= instrset < 10 {
      m := SourceBits(idx, 4);
    } else {
      m := MakeBitMask(idx, 0x302);
      SourceBit4(idx, m);
    }
  }

  /** movss: the lowest element of b, the others of a. */
  function MoveLowest(a: Vec, b: Vec): (r: Vec)
    requires |a| == |b| == 4
  {
    [b[0], a[1], a[2], a[3]]
  }

  method MergePs(instrset: nat, m: Mask, ya: Vec, yb: Vec) returns (y: Vec)
    requires |m| == |ya| == |yb| == 4
    ensures y == MaskMov(m, ya, yb)
  {
    if instrset < 10 && m == [true, false, false, false] {
      y := MoveLowest(ya, yb);
    } else if instrset < 10 && m == [false, true, true, true] {
      y := MoveLowest(yb, ya);
    } else {
      y := MaskMov(m, ya, yb);
    }
  }

  lemma UnmovedRouted(idx: seq<int>, forA: seq<int>, forB: seq<int>, a: Vec, b: Vec)
    requires |idx| == |a| == |b| == |forA| == |forB|
    requires forall j :: 0 <= j < |idx| ==> forA[j] == IndexForA(idx[j], |idx|, 0)
    requires forall j :: 0 <= j < |idx| ==> forB[j] == IndexForB(idx[j], |idx|, 0)
    ensures !MovesA(idx, |idx|) ==> Routed(forA, a, a)
    ensures !MovesB(idx, |idx|) ==> Routed(forB, b, b)
  {
  }

  /** Permute a and b separately, each only if it needs to be, then merge under a mask. */
  method MaskedBlendPs(instrset: nat, idx: seq<int>, a: Vec, b: Vec, permA: bool, permB: bool) returns (y: Vec)
    requires instrset >= 5 && |idx| == |a| == |b| == 4 && Sized(a, 4) && Sized(b, 4) && InRange(idx, 8)
    requires (permA <==> MovesA(idx, 4)) && (permB <==> MovesB(idx, 4))
    ensures Sized(y, 4) && Routed(idx, a + b, y)
  {
    var forA, forB := BlendPermIndexes(idx, 0);
    SplitInRange(idx, forA, forB, 0);
    UnmovedRouted(idx, forA, forB, a, b);
    var ya, yb := a, b;
    if permA {
      var r := Permute4f(instrset, forA, a);
      ya := r.value;
    }
    if permB {
      var r := Permute4f(instrset, forB, b);
      yb := r.value;
    }
    var m := SourceMaskPs(instrset, idx);
    MergeIsBlend(idx, a, b, forA, forB, ya, yb, m);
    y := MergePs(instrset, m, ya, yb);
  }

  /** Before SSE4.1: permute both with zeroing, then OR. */
  method OrBlendPs(instrset: nat, idx: seq<int>, a: Vec, b: Vec) returns (y: Vec)
    requires instrset >= 2 && |idx| == |a| == |b| == 4 && Sized(a, 4) && Sized(b, 4) && InRange(idx, 8)
    ensures Meets(idx, 4, a + b, y)
  {
    var forA, forB := BlendPermIndexes(idx, 1);
    SplitInRange(idx, forA, forB, 1);
    var ya := Permute4f(instrset, forA, a);
    var yb := Permute4f(instrset, forB, b);
    OrIsBlend(idx, 4, a, b, forA, forB, ya.value, yb.value);
    y := Or(ya.value, yb.value);
  }

  method MoveBlendPs(instrset: nat, idx: seq<int>, a: Vec, b: Vec, flags: BlendPlan) returns (y: Vec, done: bool)
    requires instrset >= 2 && |idx| == |a| == |b| == 4 && Sized(a, 4) && Sized(b, 4) && InRange(idx, 8)
    requires Planned(1, 4, instrset, idx, flags)
    ensures Sized(y, 4) && Routed(idx, a + b, y)
    ensures done ==> Meets(idx, 4, a + b, y)
  {
    done := false;
    var u := flags.unpack;
    var blendonly := !flags.permA && !flags.permB;
    if u.lowAB || u.lowBA || u.highAB || u.highBA {
      y := Blend256.UnpackBlendPs(idx, a, b, u);
    } else if (flags.shufab || flags.shufba) && !blendonly {
      y := Blend256.ShuffleBlendPs(idx, a, b, !flags.shufab, flags.shufpattern, flags.rotpattern);
    } else if instrset >= 4 && (flags.turn.ab || flags.turn.ba) {
      y := AlignPs(idx, a, b, flags.turn, flags.rotpattern, instrset);
    } else if instrset >= 5 {
      y := MaskedBlendPs(instrset, idx, a, b, flags.permA, flags.permB);
    } else {
      y := OrBlendPs(instrset, idx, a, b);
      done := true;
    }
  }

  method BlendAndZeroPs(instrset: nat, idx: seq<int>, a: Vec, b: Vec, flags: BlendPlan) returns (y: Vec)
    requires instrset >= 2 && |idx| == |a| == |b| == 4 && Sized(a, 4) && Sized(b, 4) && InRange(idx, 8)
    requires Planned(1, 4, instrset, idx, flags)
    ensures Meets(idx, 4, a + b, y)
  {
    var done;
    if flags.largeblock {
      y := BlendPairsPs(instrset, idx, a, b, flags.addz);
      done := !flags.addz;
    } else {
      y, done := MoveBlendPs(instrset, idx, a, b, flags);
    }
    if !done && flags.zeroing {
      y := ZeroUnused(instrset, idx, 4, a + b, y);
    }
  }

  /** blend4(Vec4f). */
  method Blend4f(instrset: nat, idx: seq<int>, a: Vec, b: Vec) returns (r: Option<Vec>)
    requires instrset >= 2 && |idx| == |a| == |b| == 4 && Sized(a, 4) && Sized(b, 4)
    ensures r.None? <==> !InRange(idx, 8)
    ensures r.Some? ==> Meets(idx, 4, a + b, r.value)
  {
    PermuteFits.LaneSizesAre();
    var flags := BlendFlags(PermScan.Shape(1, 4), instrset, idx);
    if flags.outOfRange {
      return None;
    }
    var y;
    if flags.allzero {
      y := ZeroVec(4, 4);
    } else if !flags.fromB || !flags.fromA {
      y := OneSourcePs(instrset, idx, a, b, !flags.fromB);
    } else {
      y := BlendAndZeroPs(instrset, idx, a, b, flags);
    }
    return Some(y);
  }
}
