/** Permute functions for 128-bit vectors of float and double (vectorf128.h). */
module Permute128 {
  // The instruction set is a parameter: 2 is SSE2, 3 is SSE3, 4 is SSSE3, 5 is SSE4.1 and 10 is
  // AVX512VL/BW/DQ.

  import opened Options
  import opened IndexLists
  import opened PermScan
  import opened PermPlanning
  import opened Vectors
  import opened Intrinsics
  import opened LargeBlocks
  import opened Masks
  import opened PermuteFits
  import opened RegisterBytes
  import opened ByteShuffles

  // ----- shifts, for any element size

  lemma OneLaneColumns(idx: seq<int>, i: nat)
    requires i < |idx| && InRange(idx, |idx|)
    ensures Column(i, |idx|) == i && (idx[i] >= 0 ==> Column(idx[i], |idx|) == idx[i] < |idx|)
  {
    assert ValidIndex(idx[i], |idx|);
  }

  /** A left shift puts every element asked for in its place, and zeros below them. */
  lemma ShiftLeftFits(idx: seq<int>, s: nat, a: Vec, rot: nat)
    requires |idx| == |a| && InRange(idx, |a|) && Sized(a, s) && rot < |a|
    requires LanesRotateBy(idx, |a|, rot) && ColumnsFree(idx, |a|, 0, |a| - rot)
    ensures var y := ZeroVec(|a| - rot, s) + a[..rot];
      && Sized(y, s) && Routed(idx, a, y)
      && (forall i :: 0 <= i < |a| - rot ==> y[i] == Zero(s))
  {
    var y := ZeroVec(|a| - rot, s) + a[..rot];
    forall i | 0 <= i < |idx| && 0 <= idx[i] < |a| ensures y[i] == a[idx[i]] {
      OneLaneColumns(idx, i);
    }
  }

  lemma ShiftRightFits(idx: seq<int>, s: nat, a: Vec, rot: nat)
    requires |idx| == |a| && InRange(idx, |a|) && Sized(a, s) && rot < |a|
    requires LanesRotateBy(idx, |a|, rot) && ColumnsFree(idx, |a|, |a| - rot, |a|)
    ensures var y := a[rot..] + ZeroVec(rot, s);
      && Sized(y, s) && Routed(idx, a, y)
      && (forall i :: |a| - rot <= i < |a| ==> y[i] == Zero(s))
  {
    var y := a[rot..] + ZeroVec(rot, s);
    forall i | 0 <= i < |idx| && 0 <= idx[i] < |a| ensures y[i] == a[idx[i]] {
      OneLaneColumns(idx, i);
    }
  }

  /** A left shift by the number of bytes that the plan word gives. The count is not zero,
      because something moves. */
  lemma NoRotationNoMove(idx: seq<int>)
    requires |idx| > 0 && InRange(idx, |idx|) && Moves(idx)
    ensures !LanesRotateBy(idx, |idx|, 0)
  {
    var i :| 0 <= i < |idx| && idx[i] >= 0 && idx[i] != i;
    OneLaneColumns(idx, i);
  }

  lemma ByteCounts(n: nat, rot: nat)
    requires (n == 2 || n == 4) && 0 < rot < n
    ensures var s := 16 / n;
            (16 - Bytes(n, rot)) % 16 == (n - rot) * s && Bytes(n, rot) % 16 == rot * s && n * s == 16
  {
  }

  method ShiftElementsLeft(a: Vec, s: nat, count: nat, ghost k: nat) returns (y: Vec)
    requires Sized(a, s) && k <= |a| && count == k * s
    ensures y == ZeroVec(k, s) + a[..|a| - k]
  {
    ShiftLeftElements(a, s, k);
    y := ElementsOf(ShiftBytesLeft(BytesOf(a), count), s, |a|);
  }

  method ShiftElementsRight(a: Vec, s: nat, count: nat, ghost k: nat) returns (y: Vec)
    requires Sized(a, s) && k <= |a| && count == k * s
    ensures y == a[k..] + ZeroVec(k, s)
  {
    ShiftRightElements(a, s, k);
    y := ElementsOf(ShiftBytesRight(BytesOf(a), count), s, |a|);
  }

  /** The count in the plan word, which lies below the shuffle pattern. */
  ghost predicate CountIs(n: nat, above: nat, rot: nat) {
    rot < n && above % 16 == Bytes(n, rot) < 16
  }

  /** pslldq by (16 - count) & 15 bytes. */
  method ShiftedLeft(idx: seq<int>, s: nat, a: Vec, above: nat, ghost rot: nat) returns (y: Vec)
    requires |idx| == |a| && (|a| == 2 || |a| == 4) && s == 16 / |a| && Sized(a, s) && InRange(idx, |a|) && Moves(idx)
    requires CountIs(|a|, above, rot) && LanesRotateBy(idx, |a|, rot) && ColumnsFree(idx, |a|, 0, |a| - rot)
    ensures Sized(y, s) && Routed(idx, a, y)
    ensures forall i :: 0 <= i < |a| - rot ==> y[i] == Zero(s)
  {
    NoRotationNoMove(idx);
    ByteCounts(|a|, rot);
    assert (16 - above) % 16 == (16 - above % 16) % 16;
    y := ShiftElementsLeft(a, s, (16 - above) % 16, |a| - rot);
    ShiftLeftFits(idx, s, a, rot);
  }

  /** psrldq by count & 15 bytes. */
  method ShiftedRight(idx: seq<int>, s: nat, a: Vec, above: nat, ghost rot: nat) returns (y: Vec)
    requires |idx| == |a| && (|a| == 2 || |a| == 4) && s == 16 / |a| && Sized(a, s) && InRange(idx, |a|) && Moves(idx)
    requires CountIs(|a|, above, rot) && LanesRotateBy(idx, |a|, rot) && ColumnsFree(idx, |a|, |a| - rot, |a|)
    ensures Sized(y, s) && Routed(idx, a, y)
    ensures forall i :: |a| - rot <= i < |a| ==> y[i] == Zero(s)
  {
    NoRotationNoMove(idx);
    ByteCounts(|a|, rot);
    y := ShiftElementsRight(a, s, above % 16, rot);
    ShiftRightFits(idx, s, a, rot);
  }

  lemma CountInWord(n: nat, flags: PermPlan)
    requires (n == 2 || n == 4) && var rot := Elements(n, flags.rotCount); rot < n && flags.rotCount == Bytes(n, rot)
    ensures CountIs(n, flags.AboveFlags(), Elements(n, flags.rotCount))
  {
    LowNibble(flags.rotCount, flags.ipattern);
  }

  lemma LowNibble(count: nat, pattern: nat)
    ensures (count + 256 * pattern) % 16 == count % 16
  {
  }

  // ----- Vec2d

  lemma LowBitOfIndex(ix: int)
    requires ValidIndex(ix, 2)
    ensures ix >= 0 ==> ix % 2 == ix
  {
  }

  lemma ShuffleSamePdFits(idx: seq<int>, a: Vec, pattern: nat)
    requires |idx| == |a| == 2 && InRange(idx, 2) && Bit(pattern, 0) == idx[0] % 2 && Bit(pattern, 1) == idx[1] % 2
    ensures Routed(idx, a, ShufflePd(a, a, pattern))
  {
    var y := ShufflePd(a, a, pattern);
    ShuffleOneLane(a, a, pattern);
    LowBitOfIndex(idx[0]);
    LowBitOfIndex(idx[1]);
    assert idx[0] >= 0 ==> y[0] == a[idx[0]];
    assert idx[1] >= 0 ==> y[1] == a[idx[1]];
  }

  lemma TwoBits(x: nat, y: nat)
    requires x < 2 && y < 2
    ensures Bit(x + y * 2, 0) == x && Bit(x + y * 2, 1) == y
  {
  }

  method MovePd(idx: seq<int>, a: Vec, flags: PermPlan) returns (y: Vec)
    requires |idx| == |a| == 2 && Sized(a, 8) && InRange(idx, 2)
    requires !CrossesLane(idx, 2, 2) && PatternPlanned(2, idx, flags)
    ensures Sized(y, 8) && Routed(idx, a, y)
  {
    if flags.punpckh {
      UnpackHighPdFits(idx, a);
      UnpackPdSized(a, a, 8);
      y := UnpackHighPd(a, a);
    } else if flags.punpckl {
      UnpackLowPdFits(idx, a);
      UnpackPdSized(a, a, 8);
      y := UnpackLowPd(a, a);
    } else {
      TwoBits(idx[0] % 2, idx[1] % 2);
      ShuffleSamePdFits(idx, a, idx[0] % 2 + idx[1] % 2 * 2);
      ShufflePdSized(a, a, idx[0] % 2 + idx[1] % 2 * 2, 8);
      y := ShufflePd(a, a, idx[0] % 2 + idx[1] % 2 * 2);
    }
  }

  lemma OneLaneMeets(idx: seq<int>, a: Vec, e0: Elem, e1: Elem)
    requires |idx| == |a| == 2 && |e0| == |e1| == 8
    requires (0 <= idx[0] < 2 ==> e0 == a[idx[0]]) && (idx[0] == -1 ==> e0 == Zero(8))
    requires (0 <= idx[1] < 2 ==> e1 == a[idx[1]]) && (idx[1] == -1 ==> e1 == Zero(8))
    ensures Meets(idx, 8, a, [e0, e1])
  {
  }

  /** Unpack with zeros, to avoid using the data cache. */
  method ZeroOnePd(instrset: nat, idx: seq<int>, a: Vec, y0: Vec) returns (y: Vec)
    requires |idx| == |a| == 2 && !AllNegative(idx) && Sized(y0, 8) && Routed(idx, a, y0)
    ensures Meets(idx, 8, a, y)
  {
    if instrset >= 10 {
      var zm := ZeroMask(idx);
      y := MaskzMov(zm, y0, 8);
    } else if idx[0] == -1 {
      UnpackOneLane(ZeroVec(2, 8), y0);
      OneLaneMeets(idx, a, Zero(8), y0[1]);
      y := UnpackHighPd(ZeroVec(2, 8), y0);
    } else if idx[1] == -1 {
      UnpackOneLane(y0, ZeroVec(2, 8));
      OneLaneMeets(idx, a, y0[0], Zero(8));
      y := UnpackLowPd(y0, ZeroVec(2, 8));
    } else {
      y := y0;
    }
  }

  /** When something moves by a shift, the rotation is by one element. */
  lemma ShiftByOne(instrset: nat, idx: seq<int>, flags: PermPlan)
    requires |idx| == 2 && InRange(idx, 2) && Moves(idx) && RotationPlanned(2, instrset, idx, flags)
    requires flags.shleft || flags.shright
    ensures LanesRotateBy(idx, 2, 1)
    ensures flags.shleft ==> ColumnsFree(idx, 2, 0, 1) && idx[0] < 0 <= idx[1]
    ensures !flags.shleft ==> ColumnsFree(idx, 2, 1, 2) && idx[1] < 0 <= idx[0]
  {
    NoRotationNoMove(idx);
    OneLaneColumns(idx, 0);
    OneLaneColumns(idx, 1);
  }

  method ShiftPd(instrset: nat, idx: seq<int>, a: Vec, flags: PermPlan) returns (y: Vec)
    requires |idx| == |a| == 2 && Sized(a, 8) && InRange(idx, 2) && Moves(idx)
    requires RotationPlanned(2, instrset, idx, flags)
    requires flags.shleft || flags.shright
    ensures Meets(idx, 8, a, y)
  {
    ShiftByOne(instrset, idx, flags);
    if flags.shleft {
      y := ShiftElementsLeft(a, 8, 8, 1);
      ShiftLeftFits(idx, 8, a, 1);
    } else {
      y := ShiftElementsRight(a, 8, 8, 1);
      ShiftRightFits(idx, 8, a, 1);
    }
  }

  method MoveAndZeroPd(instrset: nat, idx: seq<int>, a: Vec, flags: PermPlan) returns (y: Vec)
    requires |idx| == |a| == 2 && Sized(a, 8) && InRange(idx, 2) && !AllNegative(idx)
    requires Planned(1, 2, instrset, idx, flags)
    ensures Meets(idx, 8, a, y)
  {
    OneLane(idx);
    y := a;
    if flags.perm {
      if (flags.shleft || flags.shright) && flags.zeroing {
        // the shifts do both permutation and zeroing
        y := ShiftPd(instrset, idx, a, flags);
        return;
      }
      y := MovePd(idx, a, flags);
    } else {
      NothingMoves(idx, 8, a);
    }
    if flags.zeroing {
      y := ZeroOnePd(instrset, idx, a, y);
    }
  }

  /** permute2(Vec2d). */
  method Permute2d(instrset: nat, idx: seq<int>, a: Vec) returns (r: Option<Vec>)
    requires instrset >= 2 && |idx| == |a| == 2 && Sized(a, 8)
    ensures r.None? <==> !InRange(idx, 2)
    ensures r.Some? ==> Meets(idx, 8, a, r.value)
  {
    LaneSizesAre();
    var flags := PermFlags(Shape(1, 2), instrset, idx);
    if flags.outOfRange {
      return None;
    }
    var y;
    if flags.allzero {
      y := ZeroVec(2, 8);
    } else {
      y := MoveAndZeroPd(instrset, idx, a, flags);
    }
    return Some(y);
  }

  // ----- Vec4f

  /** Permute pairs of elements as elements of double size. */
  method MovePairsPs(instrset: nat, idx: seq<int>, a: Vec, addz: bool) returns (y: Vec)
    requires instrset >= 2 && |idx| == |a| == 4 && InRange(idx, 4) && Sized(a, 4) && FitsLargeBlock(idx)
    requires !addz ==> !SplitsPair(idx)
    ensures Sized(y, 4) && Routed(idx, a, y)
    ensures !addz ==> Meets(idx, 4, a, y)
  {
    var L := LargeBlockPerm(idx);
    BlockListInRange(idx, 4);
    var r := Permute2d(instrset, L, Paired(a));
    LargeBlockSound(idx, 4, a, r.value);
    y := Split(r.value, 4);
  }

  /** pshufb does both permutation and zeroing. */
  method ShuffleBytesPs(idx: seq<int>, a: Vec) returns (y: Vec)
    requires |idx| == |a| == 4 && InRange(idx, 4) && Sized(a, 4)
    ensures Meets(idx, 4, a, y)
  {
    var bm := PshufbMask(idx, 4, 4, false);
    OneLaneShuffle(idx, 4, a);
    y := ElementsOf(ShuffleLane(BytesOf(a), bm), 4, 4);
  }

  /** Shifts; the result is final unless a -1 lies in the part that is not filled with zeros. */
  method ShiftPs(instrset: nat, idx: seq<int>, a: Vec, flags: PermPlan) returns (y: Vec)
    requires |idx| == |a| == 4 && Sized(a, 4) && InRange(idx, 4) && Moves(idx)
    requires RotationPlanned(4, instrset, idx, flags)
    requires (flags.shleft || flags.shright) && ZeroingPlanned(4, idx, flags)
    ensures Sized(y, 4) && Routed(idx, a, y)
    ensures !flags.addz ==> Meets(idx, 4, a, y)
  {
    ghost var rot := Elements(4, flags.rotCount);
    CountInWord(4, flags);
    forall p | 0 <= p < 4 ensures ZeroColumn(idx, 4, p) <==> idx[p] == -1 {
      ZeroColumnsOfOneLane(idx, p);
    }
    if flags.shleft {
      y := ShiftedLeft(idx, 4, a, flags.AboveFlags(), rot);
    } else {
      y := ShiftedRight(idx, 4, a, flags.AboveFlags(), rot);
    }
  }

  lemma MoveldupFits(idx: seq<int>, a: Vec)
    requires |idx| == |a| == 4
    ensures idx == [0, 0, 2, 2] ==> Routed(idx, a, MoveldupPs(a))
    ensures idx == [1, 1, 3, 3] ==> Routed(idx, a, MovehdupPs(a))
  {
  }

  method ShuffleAnyPs(instrset: nat, idx: seq<int>, a: Vec) returns (y: Vec, done: bool)
    requires |idx| == |a| == 4 && Sized(a, 4) && InRange(idx, 4)
    ensures Sized(y, 4) && Routed(idx, a, y)
    ensures done ==> Meets(idx, 4, a, y)
  {
    done := false;
    MoveldupFits(idx, a);
    if instrset >= 3 && idx == [0, 0, 2, 2] {
      y, done := MoveldupPs(a), true;
    } else if instrset >= 3 && idx == [1, 1, 3, 3] {
      y, done := MovehdupPs(a), true;
    } else {
      y := ShuffleGeneralPs(idx, a);
    }
  }

  method ShuffleGeneralPs(idx: seq<int>, a: Vec) returns (y: Vec)
    requires |idx| == |a| == 4 && Sized(a, 4) && InRange(idx, 4)
    ensures Sized(y, 4) && Routed(idx, a, y)
  {
    var p := LowBitPairs(idx);
    OneLane(idx);
    Fields(idx[0] % 4, idx[1] % 4, idx[2] % 4, idx[3] % 4);
    assert FieldsPlanned(4, idx, p);
    ShufflePsFits(idx, a, p);
    ShufflePsSized(a, a, p, 4);
    y := ShufflePs(a, a, p);
  }

  method UnpackSamePs(idx: seq<int>, a: Vec, high: bool) returns (y: Vec)
    requires |idx| == |a| == 4 && Sized(a, 4) && !CrossesLane(idx, 4, 4) && LanesUnpack(idx, 4, if high then 2 else 0)
    ensures Sized(y, 4) && Routed(idx, a, y)
  {
    UnpackPsSized(a, a, 4);
    if high {
      UnpackHighPsFits(idx, a);
      y := UnpackHighPs(a, a);
    } else {
      UnpackLowPsFits(idx, a);
      y := UnpackLowPs(a, a);
    }
  }

  method MovePs(instrset: nat, idx: seq<int>, a: Vec, flags: PermPlan) returns (y: Vec, done: bool)
    requires instrset >= 2 && |idx| == |a| == 4 && InRange(idx, 4) && Sized(a, 4)
    requires Planned(1, 4, instrset, idx, flags) && flags.perm
    ensures Sized(y, 4) && Routed(idx, a, y)
    ensures done ==> Meets(idx, 4, a, y)
  {
    OneLane(idx);
    done := false;
    if flags.largeblock {
      y := MovePairsPs(instrset, idx, a, flags.addz);
      done := !flags.addz;
    } else if 4 <= instrset < 10 && flags.zeroing {
      y := ShuffleBytesPs(idx, a);
      done := true;
    } else if flags.punpckh || flags.punpckl {
      y := UnpackSamePs(idx, a, flags.punpckh);
    } else if flags.shleft || flags.shright {
      y := ShiftPs(instrset, idx, a, flags);
      done := !flags.addz;
    } else {
      y, done := ShuffleAnyPs(instrset, idx, a);
    }
  }

  method MoveAndZeroPs(instrset: nat, idx: seq<int>, a: Vec, flags: PermPlan) returns (y: Vec)
    requires instrset >= 2 && |idx| == |a| == 4 && InRange(idx, 4) && Sized(a, 4)
    requires Planned(1, 4, instrset, idx, flags)
    ensures Meets(idx, 4, a, y)
  {
    y := a;
    if flags.perm {
      var done;
      y, done := MovePs(instrset, idx, a, flags);
      if done {
        return;
      }
    } else {
      NothingMoves(idx, 4, a);
    }
    if flags.zeroing {
      y := ZeroUnused(instrset, idx, 4, a, y);
    }
  }

  /** permute4(Vec4f). */
  method Permute4f(instrset: nat, idx: seq<int>, a: Vec) returns (r: Option<Vec>)
    requires instrset >= 2 && |idx| == |a| == 4 && Sized(a, 4)
    ensures r.None? <==> !InRange(idx, 4)
    ensures r.Some? ==> Meets(idx, 4, a, r.value)
  {
    LaneSizesAre();
    var flags := PermFlags(Shape(1, 4), instrset, idx);
    if flags.outOfRange {
      return None;
    }
    var y;
    if flags.allzero {
      y := ZeroVec(4, 4);
    } else {
      y := MoveAndZeroPs(instrset, idx, a, flags);
    }
    return Some(y);
  }
}
