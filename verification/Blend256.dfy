/** Blend functions for the 256-bit vectors of float and of double (vectorf256.h). */
module Blend256 {
  import opened Options
  import opened IndexLists
  import PermScan
  import opened BlendScan
  import opened BlendPlanning
  import opened Vectors
  import opened Intrinsics
  import opened LargeBlocks
  import opened Masks
  import opened BlendSplits
  import opened BlendFits
  import opened Permute256
  import PermuteFits

  // ----- Vec4d

  /** One half of the result, when the block index of the pair says which half of a||b it is. */
  lemma BlendedHalf(x: int, y: int, a: Vec, b: Vec, j: int)
    requires |a| == |b| == 4 && PairFits(x, y) && ValidIndex(x, 8) && ValidIndex(y, 8)
    requires x >= 0 || y >= 0 ==> j == PairIndex(x, y)
    ensures var h := HalfOf(a, b, 8, j % 16);
            (x >= 0 ==> h[0] == (a + b)[x]) && (y >= 0 ==> h[1] == (a + b)[y])
  {
  }

  lemma BlendedHalfSized(a: Vec, b: Vec, field: nat)
    requires |a| == |b| == 4 && Sized(a, 8) && Sized(b, 8)
    ensures Sized(HalfOf(a, b, 8, field), 8)
  {
  }

  lemma BlendFromHalves(idx: seq<int>, src: Vec, h0: Vec, h1: Vec)
    requires |idx| == 4 && |src| == 8 && |h0| == |h1| == 2 && Sized(h0, 8) && Sized(h1, 8)
    requires (0 <= idx[0] < 8 ==> h0[0] == src[idx[0]]) && (0 <= idx[1] < 8 ==> h0[1] == src[idx[1]])
    requires (0 <= idx[2] < 8 ==> h1[0] == src[idx[2]]) && (0 <= idx[3] < 8 ==> h1[1] == src[idx[3]])
    ensures Sized(h0 + h1, 8) && Routed(idx, src, h0 + h1)
  {
    var y := h0 + h1;
    assert y[0] == h0[0] && y[1] == h0[1] && y[2] == h1[0] && y[3] == h1[1];
  }

  lemma BlendedLanes(idx: seq<int>, a: Vec, b: Vec, L: seq<int>)
    requires |idx| == |a| == |b| == 4 && Sized(a, 8) && Sized(b, 8) && InRange(idx, 8) && FitsLargeBlock(idx)
    requires L == BlockList(idx)
    ensures var y := HalfOf(a, b, 8, L[0] % 16) + HalfOf(a, b, 8, L[1] % 16);
            Sized(y, 8) && Routed(idx, a + b, y)
  {
    BlockPairs(idx);
    assert ValidIndex(idx[0], 8) && ValidIndex(idx[1], 8) && ValidIndex(idx[2], 8) && ValidIndex(idx[3], 8);
    BlendedHalf(idx[0], idx[1], a, b, L[0]);
    BlendedHalf(idx[2], idx[3], a, b, L[1]);
    BlendedHalfSized(a, b, L[0] % 16);
    BlendedHalfSized(a, b, L[1] % 16);
    BlendFromHalves(idx, a + b, HalfOf(a, b, 8, L[0] % 16), HalfOf(a, b, 8, L[1] % 16));
  }

  /** Blend and permute 128-bit blocks. */
  method BlendLanes(idx: seq<int>, a: Vec, b: Vec) returns (y: Vec)
    requires |idx| == |a| == |b| == 4 && Sized(a, 8) && Sized(b, 8) && InRange(idx, 8) && FitsLargeBlock(idx)
    ensures Sized(y, 8) && Routed(idx, a + b, y)
  {
    var L := LargeBlockPerm(idx);
    y := CombineHalves(a, b, L[0] % 16, L[1] % 16);
    BlendedLanes(idx, a, b, L);
  }

  /** The pattern of shufpd is the lower nibble of the plan word shifted down. */
  method ShuffleBlendPd(idx: seq<int>, a: Vec, b: Vec, evenFromB: bool, shufpattern: nat, rotpattern: nat)
      returns (y: Vec)
    requires |idx| == |a| == |b| == 4 && Sized(a, 8) && Sized(b, 8)
    requires Alternates(idx, 4, 4, evenFromB) && shufpattern < 16
    requires forall i :: 0 <= i < 4 ==> Bit(shufpattern, i) == idx[i] % 2
    ensures Sized(y, 8) && Routed(idx, a + b, y)
  {
    var imm := (shufpattern + 256 * rotpattern) % 16;
    assert imm == shufpattern;
    ShufflePdFits(idx, a, b, evenFromB, imm);
    ShufflePdSized(a, b, imm, 8);
    ShufflePdSized(b, a, imm, 8);
    y := if evenFromB then ShufflePd(b, a, imm) else ShufflePd(a, b, imm);
  }

  method UnpackBlendLowPd(idx: seq<int>, a: Vec, b: Vec, evenFromB: bool) returns (y: Vec)
    requires |idx| == |a| == |b| && |a| % 2 == 0 && |a| >= 2 && Sized(a, 8) && Sized(b, 8)
    requires !BlendCrosses(idx, |idx|, |idx|, 2) && LanesInterleave(idx, |idx|, 2, 0, evenFromB)
    ensures Sized(y, 8) && Routed(idx, a + b, y)
  {
    UnpackPdFits(idx, a, b, evenFromB, 0);
    y := if evenFromB then UnpackLowPd(b, a) else UnpackLowPd(a, b);
  }

  method UnpackBlendHighPd(idx: seq<int>, a: Vec, b: Vec, evenFromB: bool) returns (y: Vec)
    requires |idx| == |a| == |b| && |a| % 2 == 0 && |a| >= 2 && Sized(a, 8) && Sized(b, 8)
    requires !BlendCrosses(idx, |idx|, |idx|, 2) && LanesInterleave(idx, |idx|, 2, 1, evenFromB)
    ensures Sized(y, 8) && Routed(idx, a + b, y)
  {
    UnpackPdFits(idx, a, b, evenFromB, 1);
    y := if evenFromB then UnpackHighPd(b, a) else UnpackHighPd(a, b);
  }

  /** The unpack instruction that fits, in the order of preference of the source. */
  method UnpackBlendPd(idx: seq<int>, a: Vec, b: Vec, u: Unpacks) returns (y: Vec)
    requires |idx| == |a| == |b| && |a| % 2 == 0 && |a| >= 2 && Sized(a, 8) && Sized(b, 8)
    requires !BlendCrosses(idx, |idx|, |idx|, 2) && UnpacksPlanned(2, idx, u)
    requires u.lowAB || u.lowBA || u.highAB || u.highBA
    ensures Sized(y, 8) && Routed(idx, a + b, y)
  {
    if u.lowAB || u.lowBA {
      y := UnpackBlendLowPd(idx, a, b, !u.lowAB);
    } else {
      y := UnpackBlendHighPd(idx, a, b, !u.highAB);
    }
  }

  /** Permute a and b separately, then merge. */
  method SplitBlendPd(instrset: nat, zextMissing: bool, idx: seq<int>, a: Vec, b: Vec) returns (y: Vec)
    requires instrset >= 7 && |idx| == |a| == |b| == 4 && Sized(a, 8) && Sized(b, 8) && InRange(idx, 8)
    ensures Sized(y, 8) && Routed(idx, a + b, y)
  {
    var forA, forB := BlendPermIndexes(idx, 0);
    SplitInRange(idx, forA, forB, 0);
    var ya := Permute4d(instrset, zextMissing, forA, a);
    var yb := Permute4d(instrset, zextMissing, forB, b);
    var mb := MakeBitMask(idx, 0x302);
    SourceBit4(idx, mb);
    MergeIsBlend(idx, a, b, forA, forB, ya.value, yb.value, mb);
    y := MaskMov(mb, ya.value, yb.value);
  }

  method FullBlendPd(idx: seq<int>, a: Vec, b: Vec) returns (y: Vec)
    requires |idx| == |a| == |b| == 4 && Sized(a, 8) && Sized(b, 8) && InRange(idx, 8)
    ensures Meets(idx, 8, a + b, y)
  {
    var maskp := seq(4, i requires 0 <= i < 4 => idx[i] % 8);
    assert forall i :: 0 <= i < 4 && idx[i] >= 0 ==> ValidIndex(idx[i], 8);
    y := FullBlend(idx, 8, a, b, maskp);
  }

  method MergeOnlyPd(idx: seq<int>, a: Vec, b: Vec) returns (y: Vec)
    requires |idx| == |a| == |b| == 4 && Sized(a, 8) && Sized(b, 8) && InRange(idx, 8)
    requires !MovesA(idx, 4) && !MovesB(idx, 4)
    ensures Sized(y, 8) && Routed(idx, a + b, y)
  {
    var mb := MakeBitMask(idx, 0x302);
    SourceBit4(idx, mb);
    NoPermutationFits(idx, a, b, mb);
    y := MaskMov(mb, a, b);
  }

  /** Blends that use both sources. */
  method MoveBlendPd(instrset: nat, zextMissing: bool, idx: seq<int>, a: Vec, b: Vec, flags: BlendPlan)
      returns (y: Vec, done: bool)
    requires instrset >= 7 && |idx| == |a| == |b| == 4 && Sized(a, 8) && Sized(b, 8) && InRange(idx, 8)
    requires Planned(2, 2, instrset, idx, flags)
    ensures Sized(y, 8) && Routed(idx, a + b, y)
    ensures done ==> Meets(idx, 8, a + b, y)
  {
    done := false;
    var u := flags.unpack;
    if !flags.permA && !flags.permB {
      y := MergeOnlyPd(idx, a, b);
    } else if flags.largeblock {
      y := BlendLanes(idx, a, b);
    } else if u.lowAB || u.lowBA || u.highAB || u.highBA {
      y := UnpackBlendPd(idx, a, b, u);
    } else if flags.shufab || flags.shufba {
      y := ShuffleBlendPd(idx, a, b, !flags.shufab, flags.shufpattern, flags.rotpattern);
    } else if instrset >= 10 {
      y := FullBlendPd(idx, a, b);
      done := true;
    } else {
      y := SplitBlendPd(instrset, zextMissing, idx, a, b);
    }
  }

  lemma OnlyAInRange(idx: seq<int>)
    requires InRange(idx, 2 * |idx|) && !UsesB(idx, |idx|)
    ensures InRange(idx, |idx|)
  {
    forall i | 0 <= i < |idx| ensures ValidIndex(idx[i], |idx|) {
      assert ValidIndex(idx[i], 2 * |idx|);
    }
  }

  method OneSourcePd(instrset: nat, zextMissing: bool, idx: seq<int>, a: Vec, b: Vec, fromA: bool) returns (y: Vec)
    requires instrset >= 7 && |idx| == |a| == |b| == 4 && Sized(a, 8) && Sized(b, 8) && InRange(idx, 8)
    requires if fromA then !UsesB(idx, 4) else !UsesA(idx, 4)
    ensures Meets(idx, 8, a + b, y)
  {
    var r;
    if fromA {
      OnlyAInRange(idx);
      r := Permute4d(instrset, zextMissing, idx, a);
      OnlyA(idx, 8, a, b, r.value);
    } else {
      var forB := OnlyIndexes(idx);
      r := Permute4d(instrset, zextMissing, forB, b);
      OnlyB(idx, forB, 8, a, b, r.value);
    }
    y := r.value;
  }

  method BlendAndZeroPd(instrset: nat, zextMissing: bool, idx: seq<int>, a: Vec, b: Vec, flags: BlendPlan)
      returns (y: Vec)
    requires instrset >= 7 && |idx| == |a| == |b| == 4 && Sized(a, 8) && Sized(b, 8) && InRange(idx, 8)
    requires Planned(2, 2, instrset, idx, flags)
    ensures Meets(idx, 8, a + b, y)
  {
    var done;
    y, done := MoveBlendPd(instrset, zextMissing, idx, a, b, flags);
    if !done && flags.zeroing {
      y := ZeroUnused(instrset, idx, 8, a + b, y);
    }
  }

  /** blend4(Vec4d). Element idx[i] of a||b, or zero, whichever instructions are chosen. */
  method Blend4d(instrset: nat, zextMissing: bool, idx: seq<int>, a: Vec, b: Vec) returns (r: Option<Vec>)
    requires instrset >= 7 && |idx| == |a| == |b| == 4 && Sized(a, 8) && Sized(b, 8)
    ensures r.None? <==> !InRange(idx, 8)
    ensures r.Some? ==> Meets(idx, 8, a + b, r.value)
  {
    PermuteFits.LaneSizesAre();
    var flags := BlendFlags(PermScan.Shape(2, 2), instrset, idx);
    if flags.outOfRange {
      return None;
    }
    var y;
    if flags.allzero {
      y := ZeroVec(4, 8);
    } else if !flags.fromB || !flags.fromA {
      y := OneSourcePd(instrset, zextMissing, idx, a, b, !flags.fromB);
    } else {
      y := BlendAndZeroPd(instrset, zextMissing, idx, a, b, flags);
    }
    return Some(y);
  }

  // ----- Vec8f

  lemma PairedConcat(a: Vec, b: Vec)
    requires |a| % 2 == 0 && |b| % 2 == 0
    ensures Paired(a + b) == Paired(a) + Paired(b)
  {
    var l, r := Paired(a + b), Paired(a) + Paired(b);
    forall k | 0 <= k < |l| ensures l[k] == r[k] {
      if k < |a| / 2 {
        assert (a + b)[2 * k] == a[2 * k] && (a + b)[2 * k + 1] == a[2 * k + 1];
      } else {
        var j := k - |a| / 2;
        assert (a + b)[2 * k] == b[2 * j] && (a + b)[2 * k + 1] == b[2 * j + 1];
      }
    }
  }

  /** Blend pairs of elements as elements of double size. */
  method BlendPairsPs(instrset: nat, zextMissing: bool, idx: seq<int>, a: Vec, b: Vec, addz: bool) returns (y: Vec)
    requires instrset >= 7 && |idx| == |a| == |b| == 8 && Sized(a, 4) && Sized(b, 4) && InRange(idx, 16)
    requires FitsLargeBlock(idx)
    requires !addz ==> !SplitsPair(idx)
    ensures Sized(y, 4) && Routed(idx, a + b, y)
    ensures !addz ==> Meets(idx, 4, a + b, y)
  {
    var L := LargeBlockPerm(idx);
    BlockListInRange(idx, 16);
    var r := Blend4d(instrset, zextMissing, L, Paired(a), Paired(b));
    PairedConcat(a, b);
    LargeBlockSound(idx, 4, a + b, r.value);
    y := Split(r.value, 4);
  }

  method OneSourcePs(instrset: nat, zextMissing: bool, idx: seq<int>, a: Vec, b: Vec, fromA: bool) returns (y: Vec)
    requires instrset >= 7 && |idx| == |a| == |b| == 8 && Sized(a, 4) && Sized(b, 4) && InRange(idx, 16)
    requires if fromA then !UsesB(idx, 8) else !UsesA(idx, 8)
    ensures Meets(idx, 4, a + b, y)
  {
    var r;
    if fromA {
      OnlyAInRange(idx);
      r := Permute8f(instrset, zextMissing, idx, a);
      OnlyA(idx, 4, a, b, r.value);
    } else {
      var forA, forB := BlendPermIndexes(idx, 2);
      SplitInRange(idx, forA, forB, 2);
      r := Permute8f(instrset, zextMissing, forB, b);
      OnlyB(idx, forB, 4, a, b, r.value);
    }
    y := r.value;
  }

  method MergeOnlyPs(idx: seq<int>, a: Vec, b: Vec) returns (y: Vec)
    requires |idx| == |a| == |b| == 8 && Sized(a, 4) && Sized(b, 4) && InRange(idx, 16)
    requires !MovesA(idx, 8) && !MovesB(idx, 8)
    ensures Sized(y, 4) && Routed(idx, a + b, y)
  {
    var mb := MakeBitMask(idx, 0x303);
    SourceBit8(idx, mb);
    NoPermutationFits(idx, a, b, mb);
    y := MaskMov(mb, a, b);
  }

  method UnpackBlendLowPs(idx: seq<int>, a: Vec, b: Vec, evenFromB: bool) returns (y: Vec)
    requires |idx| == |a| == |b| && |a| % 4 == 0 && |a| >= 4 && Sized(a, 4) && Sized(b, 4)
    requires !BlendCrosses(idx, |idx|, |idx|, 4) && LanesInterleave(idx, |idx|, 4, 0, evenFromB)
    ensures Sized(y, 4) && Routed(idx, a + b, y)
  {
    BlendFits.UnpackLowPsFits(idx, a, b, evenFromB);
    UnpackPsSized(a, b, 4);
    UnpackPsSized(b, a, 4);
    y := if evenFromB then UnpackLowPs(b, a) else UnpackLowPs(a, b);
  }

  method UnpackBlendHighPs(idx: seq<int>, a: Vec, b: Vec, evenFromB: bool) returns (y: Vec)
    requires |idx| == |a| == |b| && |a| % 4 == 0 && |a| >= 4 && Sized(a, 4) && Sized(b, 4)
    requires !BlendCrosses(idx, |idx|, |idx|, 4) && LanesInterleave(idx, |idx|, 4, 2, evenFromB)
    ensures Sized(y, 4) && Routed(idx, a + b, y)
  {
    BlendFits.UnpackHighPsFits(idx, a, b, evenFromB);
    UnpackPsSized(a, b, 4);
    UnpackPsSized(b, a, 4);
    y := if evenFromB then UnpackHighPs(b, a) else UnpackHighPs(a, b);
  }

  /** The unpack instruction that fits, in the order of preference of the source. */
  method UnpackBlendPs(idx: seq<int>, a: Vec, b: Vec, u: Unpacks) returns (y: Vec)
    requires |idx| == |a| == |b| && |a| % 4 == 0 && |a| >= 4 && Sized(a, 4) && Sized(b, 4)
    requires !BlendCrosses(idx, |idx|, |idx|, 4) && UnpacksPlanned(4, idx, u)
    requires u.lowAB || u.lowBA || u.highAB || u.highBA
    ensures Sized(y, 4) && Routed(idx, a + b, y)
  {
    if u.lowAB || u.lowBA {
      y := UnpackBlendLowPs(idx, a, b, !u.lowAB);
    } else {
      y := UnpackBlendHighPs(idx, a, b, !u.highAB);
    }
  }

  method ShufpsBlend(idx: seq<int>, a: Vec, b: Vec, lowFromB: bool, imm: nat) returns (y: Vec)
    requires |idx| == |a| == |b| && |a| % 4 == 0 && Sized(a, 4) && Sized(b, 4)
    requires !BlendCrosses(idx, |idx|, |idx|, 4) && HalvesFrom(idx, |idx|, 4, lowFromB)
    requires forall i :: 0 <= i < |idx| && idx[i] >= 0 ==> Field2(imm, i % 4) == idx[i] % 4
    ensures Sized(y, 4) && Routed(idx, a + b, y)
  {
    BlendFits.ShufflePsFits(idx, a, b, lowFromB, imm);
    ShufflePsSized(a, b, imm, 4);
    ShufflePsSized(b, a, imm, 4);
    y := if lowFromB then ShufflePs(b, a, imm) else ShufflePs(a, b, imm);
  }

  /** The pattern of shufps is the lowest byte of the plan word shifted down. */
  method ShuffleBlendPs(idx: seq<int>, a: Vec, b: Vec, lowFromB: bool, shufpattern: nat, rotpattern: nat)
      returns (y: Vec)
    requires |idx| == |a| == |b| && |a| % 4 == 0 && Sized(a, 4) && Sized(b, 4)
    requires !BlendCrosses(idx, |idx|, |idx|, 4) && HalvesFrom(idx, |idx|, 4, lowFromB)
    requires shufpattern < 256 && forall i :: 0 <= i < |idx| && idx[i] >= 0 ==> Field2(shufpattern, i % 4) == idx[i] % 4
    ensures Sized(y, 4) && Routed(idx, a + b, y)
  {
    var imm := (shufpattern + 256 * rotpattern) % 256;
    assert imm == shufpattern;
    y := ShufpsBlend(idx, a, b, lowFromB, imm);
  }

  method SplitBlendPs(instrset: nat, zextMissing: bool, idx: seq<int>, a: Vec, b: Vec) returns (y: Vec)
    requires instrset >= 7 && |idx| == |a| == |b| == 8 && Sized(a, 4) && Sized(b, 4) && InRange(idx, 16)
    ensures Sized(y, 4) && Routed(idx, a + b, y)
  {
    var forA, forB := BlendPermIndexes(idx, 0);
    SplitInRange(idx, forA, forB, 0);
    var ya := Permute8f(instrset, zextMissing, forA, a);
    var yb := Permute8f(instrset, zextMissing, forB, b);
    var mb := MakeBitMask(idx, 0x303);
    SourceBit8(idx, mb);
    MergeIsBlend(idx, a, b, forA, forB, ya.value, yb.value, mb);
    y := MaskMov(mb, ya.value, yb.value);
  }

  method FullBlendPs(idx: seq<int>, a: Vec, b: Vec) returns (y: Vec)
    requires |idx| == |a| == |b| == 8 && Sized(a, 4) && Sized(b, 4) && InRange(idx, 16)
    ensures Meets(idx, 4, a + b, y)
  {
    var maskp := seq(8, i requires 0 <= i < 8 => idx[i] % 16);
    assert forall i :: 0 <= i < 8 && idx[i] >= 0 ==> ValidIndex(idx[i], 16);
    y := FullBlend(idx, 4, a, b, maskp);
  }

  /** Blends that use both sources and do not fit larger blocks. */
  method MoveBlendPs(instrset: nat, zextMissing: bool, idx: seq<int>, a: Vec, b: Vec, flags: BlendPlan)
      returns (y: Vec, done: bool)
    requires instrset >= 7 && |idx| == |a| == |b| == 8 && Sized(a, 4) && Sized(b, 4) && InRange(idx, 16)
    requires Planned(2, 4, instrset, idx, flags)
    ensures Sized(y, 4) && Routed(idx, a + b, y)
    ensures done ==> Meets(idx, 4, a + b, y)
  {
    done := false;
    var u := flags.unpack;
    if !flags.permA && !flags.permB {
      y := MergeOnlyPs(idx, a, b);
    } else if u.lowAB || u.lowBA || u.highAB || u.highBA {
      y := UnpackBlendPs(idx, a, b, u);
    } else if flags.shufab || flags.shufba {
      y := ShuffleBlendPs(idx, a, b, !flags.shufab, flags.shufpattern, flags.rotpattern);
    } else if instrset >= 10 {
      y := FullBlendPs(idx, a, b);
      done := true;
    } else {
      y := SplitBlendPs(instrset, zextMissing, idx, a, b);
    }
  }

  method BlendAndZeroPs(instrset: nat, zextMissing: bool, idx: seq<int>, a: Vec, b: Vec, flags: BlendPlan)
      returns (y: Vec)
    requires instrset >= 7 && |idx| == |a| == |b| == 8 && Sized(a, 4) && Sized(b, 4) && InRange(idx, 16)
    requires Planned(2, 4, instrset, idx, flags)
    ensures Meets(idx, 4, a + b, y)
  {
    var done;
    if flags.largeblock {
      y := BlendPairsPs(instrset, zextMissing, idx, a, b, flags.addz);
      done := !flags.addz;
    } else if !flags.fromB || !flags.fromA {
      y := OneSourcePs(instrset, zextMissing, idx, a, b, !flags.fromB);
      done := true;
    } else {
      y, done := MoveBlendPs(instrset, zextMissing, idx, a, b, flags);
    }
    if !done && flags.zeroing {
      y := ZeroUnused(instrset, idx, 4, a + b, y);
    }
  }

  /** blend8(Vec8f). Element idx[i] of a||b, or zero, whichever instructions are chosen. */
  method Blend8f(instrset: nat, zextMissing: bool, idx: seq<int>, a: Vec, b: Vec) returns (r: Option<Vec>)
    requires instrset >= 7 && |idx| == |a| == |b| == 8 && Sized(a, 4) && Sized(b, 4)
    ensures r.None? <==> !InRange(idx, 16)
    ensures r.Some? ==> Meets(idx, 4, a + b, r.value)
  {
    PermuteFits.LaneSizesAre();
    var flags := BlendFlags(PermScan.Shape(2, 4), instrset, idx);
    if flags.outOfRange {
      return None;
    }
    var y;
    if flags.allzero {
      y := ZeroVec(8, 4);
    } else {
      y := BlendAndZeroPs(instrset, zextMissing, idx, a, b, flags);
    }
    return Some(y);
  }
}
