/** Permutes of 256-bit vectors (vectorf256.h). */
module Permute256 {
  // The instruction set is a parameter: 7 is AVX, 8 is AVX2, 9 is AVX512F, 10 is AVX512VL/BW/DQ.

  import opened Options
  import opened IndexLists
  import opened PermScan
  import opened PermPlanning
  import opened Vectors
  import opened Intrinsics
  import opened LargeBlocks
  import opened Masks
  import opened PermuteFits

  // ----- Vec4d

  /** Same pattern in both lanes. */
  method MoveSamePd(idx: seq<int>, a: Vec, flags: PermPlan) returns (y: Vec)
    requires |idx| == |a| == 4 && Sized(a, 8)
    requires !CrossesLane(idx, 4, 2) && PatternPlanned(2, idx, flags)
    ensures Sized(y, 8) && Routed(idx, a, y)
  {
    if flags.punpckh {
      UnpackHighPdFits(idx, a);
      UnpackPdSized(a, a, 8);
      y := UnpackHighPd(a, a);
    } else if flags.punpckl {
      UnpackLowPdFits(idx, a);
      UnpackPdSized(a, a, 8);
      y := UnpackLowPd(a, a);
    } else {
      PermutePdFits(idx, a);
      PermutePdSized(a, LowBits(idx), 8);
      y := PermutePd(a, LowBits(idx));
    }
  }

  /** AVX: permute the two lanes separately. */
  method SplitLanesPd(idx: seq<int>, a: Vec) returns (y: Vec)
    requires |idx| == |a| == 4 && InRange(idx, 4) && Sized(a, 8)
    ensures Sized(y, 8) && Routed(idx, a, y)
  {
    var sw := Permute2f128(a, a, 8, 1);   // swap the two lanes
    assert sw == a[2..] + a[..2];
    var y1 := PermutePd(a, LowBits(idx));
    var y2 := PermutePd(sw, LowBits(idx));
    var blendm := MakeBitMask(idx, 0x101);
    LaneSplitPdFits(idx, a, sw, blendm);
    PermutePdSized(a, LowBits(idx), 8);
    PermutePdSized(sw, LowBits(idx), 8);
    y := MaskMov(blendm, y1, y2);
  }

  lemma Permute4x64Fits(idx: seq<int>, a: Vec)
    requires |idx| == |a| == 4 && InRange(idx, 4)
    ensures Routed(idx, a, Permute4x64(a, LowBitPairs(idx)))
  {
    forall i | 0 <= i < 4 && idx[i] >= 0 ensures Permute4x64(a, LowBitPairs(idx))[i] == a[idx[i]] {
      assert ValidIndex(idx[i], 4);
    }
  }

  /** Different patterns in the two lanes, and no rotation across lanes. */
  method MoveDifferentPd(instrset: nat, idx: seq<int>, a: Vec, flags: PermPlan) returns (y: Vec)
    requires instrset >= 7 && |idx| == |a| == 4 && InRange(idx, 4) && Sized(a, 8)
    requires AcrossLanesPlanned(2, instrset, idx, flags) && flags.ipattern == 0
    requires flags.crossLane <==> CrossesLane(idx, 4, 2)
    ensures Sized(y, 8) && Routed(idx, a, y)
  {
    if instrset >= 8 && flags.broadcast && flags.AboveFlags() == 0 {
      BroadcastFits(idx, a);
      y := BroadcastFirst(a);
    } else if !flags.crossLane {
      PermutePdFits(idx, a);
      PermutePdSized(a, LowBits(idx), 8);
      y := PermutePd(a, LowBits(idx));
    } else if instrset >= 8 {
      Permute4x64Fits(idx, a);
      y := Permute4x64(a, LowBitPairs(idx));
    } else {
      y := SplitLanesPd(idx, a);
    }
  }

  // ----- whole lanes of Vec4d

  /** One lane for both indexes of a pair, nothing for the other pair. */
  lemma ZextLowFits(idx: seq<int>, a: Vec)
    requires |idx| == |a| == 4 && Sized(a, 8) && FitsLargeBlock(idx) && !SplitsPair(idx)
    requires BlockList(idx)[0] == 0 && BlockList(idx)[1] < 0
    ensures Meets(idx, 8, a, ZextLow(a, 8))
  {
    BlockPairs(idx);
  }

  lemma ZextHighFits(idx: seq<int>, a: Vec)
    requires |idx| == |a| == 4 && Sized(a, 8) && FitsLargeBlock(idx) && !SplitsPair(idx)
    requires BlockList(idx)[0] == 1 && BlockList(idx)[1] < 0
    ensures Meets(idx, 8, a, ZextHigh(a, 8))
  {
    BlockPairs(idx);
  }

  /** One half of the result, when the block index of the pair says which half of a it is. */
  lemma HalfFits(x: int, y: int, a: Vec, j: int)
    requires |a| == 4 && PairFits(x, y) && ValidIndex(x, 4) && ValidIndex(y, 4)
    requires x >= 0 || y >= 0 ==> j == PairIndex(x, y)
    ensures var h := HalfOf(a, a, 8, j % 2);
            (x >= 0 ==> h[0] == a[x]) && (y >= 0 ==> h[1] == a[y])
  {
  }

  lemma HalvesSized(a: Vec, j: int)
    requires |a| == 4 && Sized(a, 8)
    ensures Sized(HalfOf(a, a, 8, j % 2), 8)
  {
  }

  /** vperm2f128 with the two fields of its pattern. */
  method CombineHalves(a: Vec, b: Vec, f0: nat, f1: nat) returns (y: Vec)
    requires |a| == |b| == 4 && f0 < 16 && f1 < 16
    ensures y == HalfOf(a, b, 8, f0) + HalfOf(a, b, 8, f1)
  {
    var pp := f0 + 16 * f1;
    assert pp % 16 == f0 && pp / 16 % 16 == f1;
    y := Permute2f128(a, b, 8, pp);
  }

  lemma FromHalves(idx: seq<int>, a: Vec, h0: Vec, h1: Vec)
    requires |idx| == |a| == 4 && !HasZero(idx) && |h0| == |h1| == 2 && Sized(h0, 8) && Sized(h1, 8)
    requires (idx[0] >= 0 ==> idx[0] < 4 && h0[0] == a[idx[0]]) && (idx[1] >= 0 ==> idx[1] < 4 && h0[1] == a[idx[1]])
    requires (idx[2] >= 0 ==> idx[2] < 4 && h1[0] == a[idx[2]]) && (idx[3] >= 0 ==> idx[3] < 4 && h1[1] == a[idx[3]])
    ensures Meets(idx, 8, a, h0 + h1)
  {
    var y := h0 + h1;
    assert y[0] == h0[0] && y[1] == h0[1] && y[2] == h1[0] && y[3] == h1[1];
  }

  /** _mm256_permute2f128_pd with one bit of the block index of each pair. */
  method SwapLanes(idx: seq<int>, a: Vec, L: seq<int>) returns (y: Vec)
    requires |idx| == |a| == 4 && Sized(a, 8) && InRange(idx, 4) && FitsLargeBlock(idx) && !HasZero(idx)
    requires L == BlockList(idx)
    ensures Meets(idx, 8, a, y)
  {
    y := CombineHalves(a, a, L[0] % 2, L[1] % 2);
    ghost var h0, h1 := HalfOf(a, a, 8, L[0] % 2), HalfOf(a, a, 8, L[1] % 2);
    BlockPairs(idx);
    assert ValidIndex(idx[0], 4) && ValidIndex(idx[1], 4) && ValidIndex(idx[2], 4) && ValidIndex(idx[3], 4);
    HalfFits(idx[0], idx[1], a, L[0]);
    HalfFits(idx[2], idx[3], a, L[1]);
    HalvesSized(a, L[0]);
    HalvesSized(a, L[1]);
    FromHalves(idx, a, h0, h1);
  }

  lemma BlockPairs(idx: seq<int>)
    requires |idx| == 4 && FitsLargeBlock(idx)
    ensures PairFits(idx[0], idx[1]) && PairFits(idx[2], idx[3])
    ensures SplitsPair(idx) <==> PairSplit(idx[0], idx[1]) || PairSplit(idx[2], idx[3])
    ensures BlockList(idx)[0] == BlockIndex(idx[0], idx[1], SplitsPair(idx))
    ensures BlockList(idx)[1] == BlockIndex(idx[2], idx[3], SplitsPair(idx))
  {
    assert First(idx, 0) == idx[0] && Second(idx, 0) == idx[1];
    assert First(idx, 1) == idx[2] && Second(idx, 1) == idx[3];
  }

  method ExtendLanes(idx: seq<int>, a: Vec, L: seq<int>, addz: bool) returns (r: Option<Vec>)
    requires |idx| == |a| == 4 && Sized(a, 8) && FitsLargeBlock(idx)
    requires L == BlockList(idx) && (!addz ==> !SplitsPair(idx))
    ensures r.Some? ==> Meets(idx, 8, a, r.value)
  {
    if L[0] == 0 && L[1] == -1 && !addz {
      ZextLowFits(idx, a);
      return Some(ZextLow(a, 8));
    }
    if L[0] == 1 && L[1] < 0 && !addz {
      ZextHighFits(idx, a);
      return Some(ZextHigh(a, 8));
    }
    return None;
  }

  /** Permutations of whole lanes, if one of the lane instructions fits. */
  method MoveLanes(zextMissing: bool, idx: seq<int>, a: Vec, flags: PermPlan) returns (r: Option<Vec>)
    requires |idx| == |a| == 4 && Sized(a, 8) && InRange(idx, 4) && FitsLargeBlock(idx)
    requires (!flags.addz ==> !SplitsPair(idx)) && (flags.zeroing <==> HasZero(idx))
    ensures r.Some? ==> Meets(idx, 8, a, r.value)
  {
    var L := LargeBlockPerm(idx);
    if !zextMissing {
      r := ExtendLanes(idx, a, L, flags.addz);
      if r.Some? {
        return;
      }
    }
    if flags.perm && !flags.zeroing {
      var y := SwapLanes(idx, a, L);
      return Some(y);
    }
    return None;
  }

  method MovePd(instrset: nat, idx: seq<int>, a: Vec, flags: PermPlan) returns (y: Vec)
    requires instrset >= 7 && |idx| == |a| == 4 && InRange(idx, 4) && Sized(a, 8)
    requires Planned(2, 2, instrset, idx, flags) && flags.perm
    ensures Sized(y, 8) && Routed(idx, a, y)
  {
    if flags.samePattern {
      y := MoveSamePd(idx, a, flags);
    } else {
      y := MoveDifferentPd(instrset, idx, a, flags);
    }
  }

  /** Rotation across lanes includes the zeroing. */
  method RotatePd(idx: seq<int>, a: Vec, rot: nat) returns (y: Vec)
    requires |idx| == |a| == 4 && InRange(idx, 4) && Sized(a, 8) && rot < 4 && RotatesBy(idx, |idx|, rot)
    ensures Meets(idx, 8, a, y)
  {
    var zm := ZeroMask(idx);
    BigRotationFits(idx, a, rot);
    y := MaskzMov(zm, Alignr(a, a, rot), 8);
  }

  method MoveAndZeroPd(instrset: nat, idx: seq<int>, a: Vec, flags: PermPlan) returns (y: Vec)
    requires instrset >= 7 && |idx| == |a| == 4 && InRange(idx, 4) && Sized(a, 8)
    requires Planned(2, 2, instrset, idx, flags)
    ensures Meets(idx, 8, a, y)
  {
    y := a;
    if flags.perm {
      if instrset >= 10 && !flags.samePattern && !(flags.broadcast && flags.AboveFlags() == 0) && flags.rotateBig {
        y := RotatePd(idx, a, flags.AboveFlags() % 256);
        return;
      }
      y := MovePd(instrset, idx, a, flags);
    } else {
      NothingMoves(idx, 8, a);
    }
    if flags.zeroing {
      y := ZeroUnused(instrset, idx, 8, a, y);
    }
  }

  /** permute4(Vec4d). A list with an index out of range is rejected at compile time; for all
      other lists the result is what the list asks for, whichever instructions are chosen. */
  method Permute4d(instrset: nat, zextMissing: bool, idx: seq<int>, a: Vec) returns (r: Option<Vec>)
    requires instrset >= 7 && |idx| == |a| == 4 && Sized(a, 8)
    ensures r.None? <==> !InRange(idx, 4)
    ensures r.Some? ==> Meets(idx, 8, a, r.value)
  {
    LaneSizesAre();
    var flags := PermFlags(Shape(2, 2), instrset, idx);
    if flags.outOfRange {
      return None;
    }
    if flags.allzero {
      return Some(ZeroVec(4, 8));
    }
    if flags.largeblock {
      r := MoveLanes(zextMissing, idx, a, flags);
      if r.Some? {
        return;
      }
    }
    var y := MoveAndZeroPd(instrset, idx, a, flags);
    return Some(y);
  }

  // ----- Vec8f

  /** Same pattern in both lanes. */
  method MoveSamePs(idx: seq<int>, a: Vec, flags: PermPlan) returns (y: Vec)
    requires |idx| == |a| == 8 && Sized(a, 4)
    requires !CrossesLane(idx, 8, 4) && PatternPlanned(4, idx, flags)
    ensures Sized(y, 4) && Routed(idx, a, y)
  {
    if flags.punpckh {
      UnpackHighPsFits(idx, a);
      y := UnpackHighPs(a, a);
    } else if flags.punpckl {
      UnpackLowPsFits(idx, a);
      y := UnpackLowPs(a, a);
    } else {
      y := ShuffleSamePs(idx, a, flags.ipattern % 256);
    }
  }

  method ShuffleSamePs(idx: seq<int>, a: Vec, pattern: nat) returns (y: Vec)
    requires |idx| == |a| == 8 && Sized(a, 4)
    requires !CrossesLane(idx, 8, 4) && FieldsPlanned(4, idx, pattern)
    ensures Sized(y, 4) && Routed(idx, a, y)
  {
    ShufflePsFits(idx, a, pattern);
    y := ShufflePs(a, a, pattern);
  }

  method BroadcastPs(idx: seq<int>, a: Vec, flags: PermPlan) returns (y: Vec)
    requires |idx| == |a| == 8 && Sized(a, 4) && flags.rotCount < 8
    requires forall i :: 0 <= i < 8 && idx[i] >= 0 ==> idx[i] == flags.rotCount
    ensures Sized(y, 4) && Routed(idx, a, y)
  {
    y := a;
    var e := flags.AboveFlags() % 16;
    assert e == flags.rotCount;
    if e > 0 {
      y := Alignr(y, y, e);
    }
    y := BroadcastFirst(y);
  }

  /** Zero extension, compression and expansion fill some of the unused elements with zeros. */
  method SpreadPs(instrset: nat, idx: seq<int>, a: Vec, flags: PermPlan) returns (y: Vec)
    requires |idx| == |a| == 8 && InRange(idx, 8) && Sized(a, 4) && SpreadPlanned(idx, flags)
    requires flags.zext || flags.compress || flags.expand
    ensures Sized(y, 4) && Routed(idx, a, y)
    ensures !flags.addz2 ==> Meets(idx, 4, a, y)
  {
    if flags.zext {
      ZextFits(idx, 4, a);
      y := ZextElements(a, 4);
    } else if flags.compress {
      var m := CompressMask(idx);
      CompressSound(idx, 4, a, m);
      y := CompressZ(m, a, 4);
    } else {
      var m := ExpandMask(idx);
      ExpandSound(idx, 4, a, m);
      y := ExpandZ(m, a, 4);
    }
  }

  /** AVX: permute the two lanes separately. */
  method SplitLanesPs(idx: seq<int>, a: Vec, permmask: seq<int>) returns (y: Vec)
    requires |idx| == |a| == |permmask| == 8 && InRange(idx, 8) && Sized(a, 4)
    requires forall i :: 0 <= i < 8 && idx[i] >= 0 ==> permmask[i] == idx[i]
    ensures Sized(y, 4) && Routed(idx, a, y)
  {
    var sw := Permute2f128(a, a, 4, 1);   // swap the two lanes
    assert sw == a[4..] + a[..4];
    var y1 := PermutevarPs(a, permmask);
    var y2 := PermutevarPs(sw, permmask);
    var blendm := MakeBitMask(idx, 0x102);
    LaneSplitPsFits(idx, a, sw, permmask, blendm);
    y := MaskMov(blendm, y1, y2);
  }

  /** Different patterns in the two lanes. */
  method MoveDifferentPs(instrset: nat, idx: seq<int>, a: Vec, flags: PermPlan) returns (y: Vec)
    requires instrset >= 7 && |idx| == |a| == 8 && InRange(idx, 8) && Sized(a, 4)
    requires flags.crossLane <==> CrossesLane(idx, 8, 4)
    requires flags.rotateBig ==> flags.rotCount < 8 && RotatesBy(idx, |idx|, flags.rotCount)
    ensures Sized(y, 4) && Routed(idx, a, y)
  {
    if instrset >= 10 && flags.rotateBig {
      var rot := flags.AboveFlags() % 256;
      BigRotationFits(idx, a, rot);
      y := Alignr(a, a, rot);
    } else if !flags.crossLane {
      var m := seq(8, i requires 0 <= i < 8 => idx[i] % 4);
      PermutevarPsFits(idx, a, m);
      y := PermutevarPs(a, m);
    } else {
      var permmask := seq(8, i requires 0 <= i < 8 => idx[i] % 8);
      assert forall i :: 0 <= i < 8 && idx[i] >= 0 ==> ValidIndex(idx[i], 8) && permmask[i] == idx[i];
      if instrset >= 8 {
        PermutevarAllFits(idx, a, permmask);
        y := PermutevarAll(a, permmask);
      } else {
        y := SplitLanesPs(idx, a, permmask);
      }
    }
  }

  /** The single-precision permutation proper. Some instructions zero what is to be zeroed;
      then nothing is left to do. */
  method MovePs(instrset: nat, idx: seq<int>, a: Vec, flags: PermPlan) returns (y: Vec, done: bool)
    requires instrset >= 7 && |idx| == |a| == 8 && InRange(idx, 8) && Sized(a, 4)
    requires Planned(2, 4, instrset, idx, flags) && flags.perm
    ensures Sized(y, 4) && Routed(idx, a, y)
    ensures done ==> Meets(idx, 4, a, y)
  {
    done := false;
    if flags.samePattern {
      y := MoveSamePs(idx, a, flags);
    } else if flags.broadcast && (instrset >= 10 || (instrset >= 8 && flags.AboveFlags() == 0)) {
      y := BroadcastPs(idx, a, flags);
    } else if (instrset >= 8 && flags.zext) || (instrset >= 10 && (flags.compress || flags.expand)) {
      y := SpreadPs(instrset, idx, a, flags);
      done := !flags.addz2;
    } else {
      y := MoveDifferentPs(instrset, idx, a, flags);
    }
  }

  /** Permute pairs of elements as elements of double size. */
  method MovePairsPs(instrset: nat, zextMissing: bool, idx: seq<int>, a: Vec, addz: bool) returns (y: Vec)
    requires instrset >= 7 && |idx| == |a| == 8 && InRange(idx, 8) && Sized(a, 4) && FitsLargeBlock(idx)
    requires !addz ==> !SplitsPair(idx)
    ensures Sized(y, 4) && Routed(idx, a, y)
    ensures !addz ==> Meets(idx, 4, a, y)
  {
    var L := LargeBlockPerm(idx);
    BlockListInRange(idx, 8);
    var r := Permute4d(instrset, zextMissing, L, Paired(a));
    LargeBlockSound(idx, 4, a, r.value);
    y := Split(r.value, 4);
  }

  method MoveAndZeroPs(instrset: nat, zextMissing: bool, idx: seq<int>, a: Vec, flags: PermPlan) returns (y: Vec)
    requires instrset >= 7 && |idx| == |a| == 8 && InRange(idx, 8) && Sized(a, 4)
    requires Planned(2, 4, instrset, idx, flags)
    ensures Meets(idx, 4, a, y)
  {
    y := a;
    if flags.perm {
      var done;
      if flags.largeblock {
        y := MovePairsPs(instrset, zextMissing, idx, a, flags.addz);
        done := !flags.addz;
      } else {
        y, done := MovePs(instrset, idx, a, flags);
      }
      if done {
        return;
      }
    } else {
      NothingMoves(idx, 4, a);
    }
    if flags.zeroing {
      y := ZeroUnused(instrset, idx, 4, a, y);
    }
  }

  /** permute8(Vec8f). A list with an index out of range is rejected at compile time; for all
      other lists the result is what the list asks for, whichever instructions are chosen. */
  method Permute8f(instrset: nat, zextMissing: bool, idx: seq<int>, a: Vec) returns (r: Option<Vec>)
    requires instrset >= 7 && |idx| == |a| == 8 && Sized(a, 4)
    ensures r.None? <==> !InRange(idx, 8)
    ensures r.Some? ==> Meets(idx, 4, a, r.value)
  {
    LaneSizesAre();
    var flags := PermFlags(Shape(2, 4), instrset, idx);
    if flags.outOfRange {
      return None;
    }
    if flags.allzero {
      return Some(ZeroVec(8, 4));
    }
    var y := MoveAndZeroPs(instrset, zextMissing, idx, a, flags);
    return Some(y);
  }
}
