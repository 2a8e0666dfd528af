/** Why each instruction does what the plan says: if the flag is set, the instruction puts
    every element asked for in its place. */
module PermuteFits {
  import opened IndexLists
  import PermScan
  import opened PermPlanning
  import opened Vectors
  import opened Intrinsics
  import opened BitNumbers
  import opened Masks

  // ----- sources in the same lane

  lemma InLane2(idx: seq<int>, i: nat)
    requires !CrossesLane(idx, |idx|, 2) && i < |idx| && idx[i] >= 0
    ensures idx[i] == i / 2 * 2 + idx[i] % 2 && Column(i, 2) == i % 2 && Column(idx[i], 2) == idx[i] % 2
  {
    LaneAndColumn(i, 2);
    LaneAndColumn(idx[i], 2);
  }

  lemma InLane4(idx: seq<int>, i: nat)
    requires !CrossesLane(idx, |idx|, 4) && i < |idx| && idx[i] >= 0
    ensures idx[i] == i / 4 * 4 + idx[i] % 4 && Column(i, 4) == i % 4 && Column(idx[i], 4) == idx[i] % 4
  {
    LaneAndColumn(i, 4);
    LaneAndColumn(idx[i], 4);
  }

  lemma UnpackHighPdFits(idx: seq<int>, a: Vec)
    requires |idx| == |a| && |a| % 2 == 0 && !CrossesLane(idx, |idx|, 2) && LanesUnpack(idx, 2, 1)
    ensures Routed(idx, a, UnpackHighPd(a, a))
  {
    forall i | 0 <= i < |idx| && 0 <= idx[i] < |a| ensures UnpackHighPd(a, a)[i] == a[idx[i]] {
      InLane2(idx, i);
    }
  }

  lemma UnpackLowPdFits(idx: seq<int>, a: Vec)
    requires |idx| == |a| && |a| % 2 == 0 && !CrossesLane(idx, |idx|, 2) && LanesUnpack(idx, 2, 0)
    ensures Routed(idx, a, UnpackLowPd(a, a))
  {
    forall i | 0 <= i < |idx| && 0 <= idx[i] < |a| ensures UnpackLowPd(a, a)[i] == a[idx[i]] {
      InLane2(idx, i);
    }
  }

  lemma UnpackHighPsFits(idx: seq<int>, a: Vec)
    requires |idx| == |a| && |a| % 4 == 0 && !CrossesLane(idx, |idx|, 4) && LanesUnpack(idx, 4, 2)
    ensures Routed(idx, a, UnpackHighPs(a, a))
  {
    forall i | 0 <= i < |idx| && 0 <= idx[i] < |a| ensures UnpackHighPs(a, a)[i] == a[idx[i]] {
      InLane4(idx, i);
    }
  }

  lemma UnpackLowPsFits(idx: seq<int>, a: Vec)
    requires |idx| == |a| && |a| % 4 == 0 && !CrossesLane(idx, |idx|, 4) && LanesUnpack(idx, 4, 0)
    ensures Routed(idx, a, UnpackLowPs(a, a))
  {
    forall i | 0 <= i < |idx| && 0 <= idx[i] < |a| ensures UnpackLowPs(a, a)[i] == a[idx[i]] {
      InLane4(idx, i);
    }
  }

  lemma ShufflePsFits(idx: seq<int>, a: Vec, pattern: nat)
    requires |idx| == |a| && |a| % 4 == 0 && !CrossesLane(idx, |idx|, 4) && FieldsPlanned(4, idx, pattern)
    ensures Routed(idx, a, ShufflePs(a, a, pattern))
  {
    forall i | 0 <= i < |idx| && 0 <= idx[i] < |a| ensures ShufflePs(a, a, pattern)[i] == a[idx[i]] {
      InLane4(idx, i);
    }
  }

  // ----- patterns made from the indexes themselves

  function LowBits(idx: seq<int>): (p: nat)
    requires |idx| == 4
    ensures forall i :: 0 <= i < 4 ==> Bit(p, i) == idx[i] % 2
  {
    idx[0] % 2 + 2 * (idx[1] % 2) + 4 * (idx[2] % 2) + 8 * (idx[3] % 2)
  }

  function LowBitPairs(idx: seq<int>): (p: nat)
    requires |idx| == 4
    ensures forall i :: 0 <= i < 4 ==> Field2(p, i) == idx[i] % 4
  {
    Fields(idx[0] % 4, idx[1] % 4, idx[2] % 4, idx[3] % 4);
    idx[0] % 4 + 4 * (idx[1] % 4) + 16 * (idx[2] % 4) + 64 * (idx[3] % 4)
  }

  lemma PermutePdFits(idx: seq<int>, a: Vec)
    requires |idx| == |a| == 4 && !CrossesLane(idx, |idx|, 2)
    ensures Routed(idx, a, PermutePd(a, LowBits(idx)))
  {
    forall i | 0 <= i < |idx| && 0 <= idx[i] < |a| ensures PermutePd(a, LowBits(idx))[i] == a[idx[i]] {
      InLane2(idx, i);
    }
  }

  lemma PermutevarPsFits(idx: seq<int>, a: Vec, index: seq<int>)
    requires |idx| == |a| == |index| && |a| % 4 == 0 && !CrossesLane(idx, |idx|, 4)
    requires forall i :: 0 <= i < |idx| && idx[i] >= 0 ==> index[i] % 4 == idx[i] % 4
    ensures Routed(idx, a, PermutevarPs(a, index))
  {
    forall i | 0 <= i < |idx| && 0 <= idx[i] < |a| ensures PermutevarPs(a, index)[i] == a[idx[i]] {
      InLane4(idx, i);
    }
  }

  // ----- across lanes

  lemma BroadcastFits(idx: seq<int>, a: Vec)
    requires |idx| == |a| > 0
    requires forall i :: 0 <= i < |idx| && idx[i] >= 0 ==> idx[i] == 0
    ensures Routed(idx, a, BroadcastFirst(a))
  {
  }

  lemma BigRotationFits(idx: seq<int>, a: Vec, rot: nat)
    requires |idx| == |a| && InRange(idx, |a|) && rot < |a| && RotatesBy(idx, |idx|, rot)
    ensures Routed(idx, a, Alignr(a, a, rot))
  {
    forall i | 0 <= i < |idx| && 0 <= idx[i] < |a| ensures Alignr(a, a, rot)[i] == a[idx[i]] {
      assert ValidIndex(idx[i], |a|) && Rotation(idx[i], i, |a|) == rot;
    }
  }

  lemma ZextFits(idx: seq<int>, s: nat, a: Vec)
    requires |idx| == |a| && |a| % 2 == 0 && FitsZeroExtension(idx)
    ensures Routed(idx, a, ZextElements(a, s))
    ensures !ZeroAtEven(idx) ==> Zeroed(idx, s, ZextElements(a, s))
  {
  }

  lemma PermutevarAllFits(idx: seq<int>, a: Vec, index: seq<int>)
    requires |idx| == |a| == |index|
    requires forall i :: 0 <= i < |idx| && 0 <= idx[i] < |a| ==> index[i] % |a| == idx[i]
    ensures Routed(idx, a, PermutevarAll(a, index))
  {
  }

  // ----- one lane at a time

  lemma ShiftRightFew(x: nat)
    ensures RightShift(x, 1) == x / 2
    ensures RightShift(x, 2) == x / 4
    ensures RightShift(x, 3) == x / 8
  {
    assert RightShift(x / 2, 1) == x / 4;
    assert RightShift(x / 4, 1) == x / 8;
    assert RightShift(x / 2, 2) == x / 8;
  }

  /** The mask bit says whether the source is in the opposite lane. */
  lemma OppositeLaneBit(ix: nat, lower: bool)
    ensures CollectedBit(ix, lower, 0x101) <==> (ix / 2 % 2 == 1) == lower
    ensures CollectedBit(ix, lower, 0x102) <==> (ix / 4 % 2 == 1) == lower
  {
    assert FlagBit(0x101, 8) && !FlagBit(0x101, 9);
    assert FlagBit(0x102, 8) && !FlagBit(0x102, 9);
    ShiftRightFew(ix);
  }

  /** With the lane bit of the index, inverted in the upper half, as mask, each element is
      taken from its own lane or from the opposite lane as needed. */
  lemma LaneSplitPdFits(idx: seq<int>, a: Vec, sw: Vec, m: Mask)
    requires |idx| == |a| == |sw| == |m| == 4 && InRange(idx, 4) && sw == a[2..] + a[..2]
    requires forall i :: 0 <= i < 4 ==> m[i] == CollectedBit(idx[i], i < 2, 0x101)
    ensures Routed(idx, a, MaskMov(m, PermutePd(a, LowBits(idx)), PermutePd(sw, LowBits(idx))))
  {
    forall i | 0 <= i < 4 && idx[i] >= 0
      ensures MaskMov(m, PermutePd(a, LowBits(idx)), PermutePd(sw, LowBits(idx)))[i] == a[idx[i]]
    {
      OppositeLaneBit(idx[i], i < 2);
      assert ValidIndex(idx[i], 4);
      SwappedPd(idx[i], i, a, sw);
    }
  }

  lemma SwappedPd(ix: nat, i: nat, a: Vec, sw: Vec)
    requires |a| == |sw| == 4 && ix < 4 && i < 4 && sw == a[2..] + a[..2]
    ensures (if (ix / 2 % 2 == 1) == (i < 2) then sw else a)[i / 2 * 2 + ix % 2] == a[ix]
  {
  }

  lemma LaneSplitPsFits(idx: seq<int>, a: Vec, sw: Vec, index: seq<int>, m: Mask)
    requires |idx| == |a| == |sw| == |index| == |m| == 8 && InRange(idx, 8) && sw == a[4..] + a[..4]
    requires forall i :: 0 <= i < 8 && idx[i] >= 0 ==> index[i] == idx[i]
    requires forall i :: 0 <= i < 8 ==> m[i] == CollectedBit(idx[i], i < 4, 0x102)
    ensures Routed(idx, a, MaskMov(m, PermutevarPs(a, index), PermutevarPs(sw, index)))
  {
    forall i | 0 <= i < 8 && 0 <= idx[i] < 8
      ensures MaskMov(m, PermutevarPs(a, index), PermutevarPs(sw, index))[i] == a[idx[i]]
    {
      LaneSplitPsElement(idx[i], i, a, sw, index, m);
    }
  }

  lemma LaneSplitPsElement(ix: nat, i: nat, a: Vec, sw: Vec, index: seq<int>, m: Mask)
    requires |a| == |sw| == |index| == |m| == 8 && ix < 8 && i < 8 && sw == a[4..] + a[..4]
    requires index[i] == ix && m[i] == CollectedBit(ix, i < 4, 0x102)
    ensures MaskMov(m, PermutevarPs(a, index), PermutevarPs(sw, index))[i] == a[ix]
  {
    OppositeLaneBit(ix, i < 4);
    SwappedPs(ix, i, a, sw);
  }

  lemma SwappedPs(ix: nat, i: nat, a: Vec, sw: Vec)
    requires |a| == |sw| == 8 && ix < 8 && i < 8 && sw == a[4..] + a[..4]
    ensures (if (ix / 4 % 2 == 1) == (i < 4) then sw else a)[i / 4 * 4 + ix % 4] == a[ix]
  {
  }

  lemma NothingMoves(idx: seq<int>, s: nat, a: Vec)
    requires |idx| == |a| && Sized(a, s) && !Moves(idx)
    ensures Routed(idx, a, a)
  {
  }

  lemma LaneSizesAre()
    ensures PermScan.ValidLane(2) && PermScan.ValidLane(4)
  {
    assert PowerOfTwo(1);
    assert PowerOfTwo(2);
  }
}
