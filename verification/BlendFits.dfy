/** Why each blend instruction does what the plan says: if the flag is set, the instruction puts
    every element of either source in its place. */
module BlendFits {
  import opened IndexLists
  import PermPlanning
  import opened BlendScan
  import opened BlendPlanning
  import opened Vectors
  import opened Intrinsics
  import opened BitNumbers
  import opened Masks
  import opened BlendSplits

  lemma InLane2(idx: seq<int>, n: nat, i: nat)
    requires !BlendCrosses(idx, |idx|, n, 2) && i < |idx| && idx[i] >= 0
    ensures var h := Home(idx[i], n);
            && h == i / 2 * 2 + h % 2 && Column(i, 2) == i % 2
            && BlendColumn(idx[i], n, 2) == h % 2 + if idx[i] < n then 0 else n
  {
    LaneAndColumn(i, 2);
    LaneAndColumn(Home(idx[i], n), 2);
  }

  lemma InLane4(idx: seq<int>, n: nat, i: nat)
    requires !BlendCrosses(idx, |idx|, n, 4) && i < |idx| && idx[i] >= 0
    ensures var h := Home(idx[i], n);
            && h == i / 4 * 4 + h % 4 && Column(i, 4) == i % 4
            && BlendColumn(idx[i], n, 4) == h % 4 + if idx[i] < n then 0 else n
  {
    LaneAndColumn(i, 4);
    LaneAndColumn(Home(idx[i], n), 4);
  }

  /** The element of either source. */
  lemma HomeElement(ix: nat, a: Vec, b: Vec)
    requires |a| == |b| && ix < 2 * |a|
    ensures (a + b)[ix] == (if ix < |a| then a else b)[Home(ix, |a|)]
  {
  }

  // ----- unpack; with the operands exchanged, even elements come from the second source

  lemma InterleavedApart(col: nat, fromB: bool, c: nat, n: nat, start: nat, evenFromB: bool)
    requires col < n && start + c / 2 < n
    requires col + (if fromB then n else 0) == Interleaved(c, n, start, evenFromB)
    ensures col == start + c / 2 && fromB == (evenFromB == (c % 2 == 0))
  {
  }

  lemma UnpackedElement2(idx: seq<int>, a: Vec, b: Vec, evenFromB: bool, start: nat, i: nat)
    requires |idx| == |a| == |b| && |a| >= 2 && start < 2 && i < |idx| && 0 <= idx[i] < 2 * |a|
    requires !BlendCrosses(idx, |idx|, |idx|, 2) && LanesInterleave(idx, |idx|, 2, start, evenFromB)
    ensures var k := i / 2 * 2 + start;
            k < |a| && (a + b)[idx[i]] == (if evenFromB == (i % 2 == 0) then b else a)[k]
  {
    InLane2(idx, |idx|, i);
    assert BlendColumn(idx[i], |idx|, 2) == Interleaved(i % 2, |idx|, start, evenFromB);
    InterleavedApart(Home(idx[i], |idx|) % 2, idx[i] >= |idx|, i % 2, |idx|, start, evenFromB);
    HomeElement(idx[i], a, b);
  }

  lemma UnpackedPlace4(idx: seq<int>, n: nat, evenFromB: bool, start: nat, i: nat)
    requires n == |idx| >= 4 && start <= 2 && i < n && 0 <= idx[i] < 2 * n
    requires !BlendCrosses(idx, n, n, 4) && LanesInterleave(idx, n, 4, start, evenFromB)
    ensures Home(idx[i], n) == i / 4 * 4 + start + i % 4 / 2 && (idx[i] >= n) == (evenFromB == (i % 2 == 0))
  {
    var h, c := Home(idx[i], n), i % 4;
    InterleavedColumn4(idx, n, evenFromB, start, i);
    EvenColumn4(i);
    assert start + c / 2 < n;
    InterleavedApart(h % 4, idx[i] >= n, c, n, start, evenFromB);
  }

  lemma EvenColumn4(i: nat)
    ensures i % 4 % 2 == i % 2 && i % 4 / 2 <= 1
  {
  }

  lemma InterleavedColumn4(idx: seq<int>, n: nat, evenFromB: bool, start: nat, i: nat)
    requires n == |idx| >= 4 && i < n && 0 <= idx[i] < 2 * n
    requires !BlendCrosses(idx, n, n, 4) && LanesInterleave(idx, n, 4, start, evenFromB)
    ensures var h := Home(idx[i], n);
            h == i / 4 * 4 + h % 4 && h % 4 + (if idx[i] < n then 0 else n) == Interleaved(i % 4, n, start, evenFromB)
  {
    InLane4(idx, n, i);
  }

  lemma UnpackedElement4(idx: seq<int>, a: Vec, b: Vec, evenFromB: bool, start: nat, i: nat)
    requires |idx| == |a| == |b| && |a| >= 4 && start <= 2 && i < |idx| && 0 <= idx[i] < 2 * |a|
    requires !BlendCrosses(idx, |idx|, |idx|, 4) && LanesInterleave(idx, |idx|, 4, start, evenFromB)
    ensures var k := i / 4 * 4 + start + i % 4 / 2;
            k < |a| && (a + b)[idx[i]] == (if evenFromB == (i % 2 == 0) then b else a)[k]
  {
    UnpackedPlace4(idx, |idx|, evenFromB, start, i);
    HomeElement(idx[i], a, b);
  }

  lemma UnpackPdFits(idx: seq<int>, a: Vec, b: Vec, evenFromB: bool, start: nat)
    requires |idx| == |a| == |b| && |a| % 2 == 0 && |a| >= 2 && start < 2
    requires !BlendCrosses(idx, |idx|, |idx|, 2) && LanesInterleave(idx, |idx|, 2, start, evenFromB)
    ensures var x, y := if evenFromB then b else a, if evenFromB then a else b;
            Routed(idx, a + b, if start == 0 then UnpackLowPd(x, y) else UnpackHighPd(x, y))
  {
    var x, y := if evenFromB then b else a, if evenFromB then a else b;
    var r := if start == 0 then UnpackLowPd(x, y) else UnpackHighPd(x, y);
    forall i | 0 <= i < |idx| && 0 <= idx[i] < |a + b| ensures r[i] == (a + b)[idx[i]] {
      UnpackedElement2(idx, a, b, evenFromB, start, i);
      assert r[i] == (if i % 2 == 0 then x else y)[PdPlace(i, |a|, start)];
    }
  }

  lemma UnpackLowPsFits(idx: seq<int>, a: Vec, b: Vec, evenFromB: bool)
    requires |idx| == |a| == |b| && |a| % 4 == 0 && |a| >= 4
    requires !BlendCrosses(idx, |idx|, |idx|, 4) && LanesInterleave(idx, |idx|, 4, 0, evenFromB)
    ensures Routed(idx, a + b, if evenFromB then UnpackLowPs(b, a) else UnpackLowPs(a, b))
  {
    var x, y := if evenFromB then b else a, if evenFromB then a else b;
    forall i | 0 <= i < |idx| && 0 <= idx[i] < |a + b| ensures UnpackLowPs(x, y)[i] == (a + b)[idx[i]] {
      UnpackedElement4(idx, a, b, evenFromB, 0, i);
      assert (if i % 2 == 0 then x else y) == (if evenFromB == (i % 2 == 0) then b else a);
    }
  }

  lemma UnpackHighPsFits(idx: seq<int>, a: Vec, b: Vec, evenFromB: bool)
    requires |idx| == |a| == |b| && |a| % 4 == 0 && |a| >= 4
    requires !BlendCrosses(idx, |idx|, |idx|, 4) && LanesInterleave(idx, |idx|, 4, 2, evenFromB)
    ensures Routed(idx, a + b, if evenFromB then UnpackHighPs(b, a) else UnpackHighPs(a, b))
  {
    var x, y := if evenFromB then b else a, if evenFromB then a else b;
    forall i | 0 <= i < |idx| && 0 <= idx[i] < |a + b| ensures UnpackHighPs(x, y)[i] == (a + b)[idx[i]] {
      UnpackedElement4(idx, a, b, evenFromB, 2, i);
      assert (if i % 2 == 0 then x else y) == (if evenFromB == (i % 2 == 0) then b else a);
    }
  }

  // ----- shuffle

  lemma ShufflePdFits(idx: seq<int>, a: Vec, b: Vec, evenFromB: bool, pattern: nat)
    requires |idx| == |a| == |b| && |a| % 2 == 0
    requires Alternates(idx, |idx|, |idx|, evenFromB)
    requires forall i :: 0 <= i < |idx| ==> Bit(pattern, i) == idx[i] % 2
    ensures Routed(idx, a + b, if evenFromB then ShufflePd(b, a, pattern) else ShufflePd(a, b, pattern))
  {
    var r := if evenFromB then ShufflePd(b, a, pattern) else ShufflePd(a, b, pattern);
    forall i | 0 <= i < |idx| && 0 <= idx[i] < |a + b| ensures r[i] == (a + b)[idx[i]] {
      ShuffledElement2(idx, a, b, evenFromB, i);
      assert PdPlace(i, |a|, idx[i] % 2) == i / 2 * 2 + Bit(pattern, i);
    }
  }

  lemma ShuffledElement2(idx: seq<int>, a: Vec, b: Vec, evenFromB: bool, i: nat)
    requires |idx| == |a| == |b| && |a| % 2 == 0 && i < |idx| && 0 <= idx[i] < 2 * |a|
    requires Alternates(idx, |idx|, |idx|, evenFromB)
    ensures (a + b)[idx[i]] == (if evenFromB == (i % 2 == 0) then b else a)[PdPlace(i, |a|, idx[i] % 2)]
  {
    HomeElement(idx[i], a, b);
    assert Home(idx[i], |a|) / 2 == i / 2;
  }

  lemma ShuffledElement4(idx: seq<int>, a: Vec, b: Vec, lowFromB: bool, i: nat)
    requires |idx| == |a| == |b| && |a| % 4 == 0 && i < |idx| && 0 <= idx[i] < 2 * |a|
    requires !BlendCrosses(idx, |idx|, |idx|, 4) && HalvesFrom(idx, |idx|, 4, lowFromB)
    ensures var k := i / 4 * 4 + idx[i] % 4;
            k < |a| && (a + b)[idx[i]] == (if lowFromB == (i % 4 < 2) then b else a)[k]
  {
    ShuffledPlace4(idx, |idx|, lowFromB, i);
    HomeElement(idx[i], a, b);
  }

  lemma ShuffledPlace4(idx: seq<int>, n: nat, lowFromB: bool, i: nat)
    requires n == |idx| && n % 4 == 0 && i < n && 0 <= idx[i] < 2 * n
    requires !BlendCrosses(idx, n, n, 4) && HalvesFrom(idx, n, 4, lowFromB)
    ensures Home(idx[i], n) == i / 4 * 4 + idx[i] % 4 && (idx[i] >= n) == (lowFromB == (i % 4 < 2))
  {
    InLane4(idx, n, i);
    LowColumn(idx[i], n);
  }

  lemma LowColumn(ix: nat, n: nat)
    requires n % 4 == 0
    ensures Home(ix, n) % 4 == ix % 4
  {
  }

  lemma ShufflePsFits(idx: seq<int>, a: Vec, b: Vec, lowFromB: bool, pattern: nat)
    requires |idx| == |a| == |b| && |a| % 4 == 0 && !BlendCrosses(idx, |idx|, |idx|, 4)
    requires HalvesFrom(idx, |idx|, 4, lowFromB)
    requires forall i :: 0 <= i < |idx| && idx[i] >= 0 ==> Field2(pattern, i % 4) == idx[i] % 4
    ensures Routed(idx, a + b, if lowFromB then ShufflePs(b, a, pattern) else ShufflePs(a, b, pattern))
  {
    var r := if lowFromB then ShufflePs(b, a, pattern) else ShufflePs(a, b, pattern);
    forall i | 0 <= i < |idx| && 0 <= idx[i] < |a + b| ensures r[i] == (a + b)[idx[i]] {
      ShuffledElement4(idx, a, b, lowFromB, i);
      assert Field2(pattern, i % 4) == idx[i] % 4;
    }
  }

  // ----- no permutation

  lemma NoPermutationFits(idx: seq<int>, a: Vec, b: Vec, m: Mask)
    requires |idx| == |a| == |b| && !MovesA(idx, |a|) && !MovesB(idx, |a|) && SelectsB(idx, |a|, m)
    ensures Routed(idx, a + b, MaskMov(m, a, b))
  {
  }

  // ----- the masks that collect the source bit

  lemma SourceBit2(idx: seq<int>, m: Mask)
    requires |idx| == |m| == 2 && InRange(idx, 4)
    requires forall i :: 0 <= i < 2 ==> m[i] == CollectedBit(idx[i], i < 1, 0x301)
    ensures SelectsB(idx, 2, m)
  {
    assert Pow2(1) == 2 && FlagBit(0x301, 8) && FlagBit(0x301, 9);
    CollectsSource(idx, 1, 0x301, m);
  }

  lemma SourceBit4(idx: seq<int>, m: Mask)
    requires |idx| == |m| == 4 && InRange(idx, 8)
    requires forall i :: 0 <= i < 4 ==> m[i] == CollectedBit(idx[i], i < 2, 0x302)
    ensures SelectsB(idx, 4, m)
  {
    assert Pow2(2) == 4 && FlagBit(0x302, 8) && FlagBit(0x302, 9);
    CollectsSource(idx, 2, 0x302, m);
  }

  lemma SourceBit8(idx: seq<int>, m: Mask)
    requires |idx| == |m| == 8 && InRange(idx, 16)
    requires forall i :: 0 <= i < 8 ==> m[i] == CollectedBit(idx[i], i < 4, 0x303)
    ensures SelectsB(idx, 8, m)
  {
    assert Pow2(2) == 4;
    assert Pow2(3) == 8 && FlagBit(0x303, 8) && FlagBit(0x303, 9);
    CollectsSource(idx, 3, 0x303, m);
  }

  // ----- full two-source permutation

  function Permutex2var(a: Vec, index: seq<int>, b: Vec): (r: Vec)
    requires |a| == |b| == |index|
    ensures |r| == |a|
    ensures forall i :: 0 <= i < |r| ==> r[i] == (a + b)[index[i] % (2 * |a|)]
  {
    seq(|a|, i requires 0 <= i < |a| => (a + b)[index[i] % (2 * |a|)])
  }

  /** vpermi2ps and vpermi2pd with a zeroing mask. */
  method FullBlend(idx: seq<int>, s: nat, a: Vec, b: Vec, maskp: seq<int>) returns (y: Vec)
    requires |idx| == |a| == |b| == |maskp| && InRange(idx, 2 * |a|) && Sized(a, s) && Sized(b, s)
    requires forall i :: 0 <= i < |idx| && idx[i] >= 0 ==> maskp[i] % (2 * |a|) == idx[i]
    ensures Meets(idx, s, a + b, y)
  {
    var zm := ZeroMask(idx);
    y := MaskzMov(zm, Permutex2var(a, maskp, b), s);
  }

  // ----- palignr

  /** In each lane, hi above lo, shifted right by a number of elements. */
  function AlignrLanes(hi: Vec, lo: Vec, laneSize: nat, count: nat): (r: Vec)
    requires |hi| == |lo| && 0 < laneSize && count < laneSize
    ensures |r| == |lo|
  {
    seq(|lo|, i requires 0 <= i < |lo| => AlignedElement(hi, lo, laneSize, count, i))
  }

  function AlignedElement(hi: Vec, lo: Vec, laneSize: nat, count: nat, i: nat): Elem
    requires |hi| == |lo| && 0 < laneSize && count < laneSize && i < |lo|
  {
    var c := Column(i, laneSize) + count;
    if c < laneSize && i + count < |lo| then lo[i + count]
    else if c >= laneSize && 0 <= i + count - laneSize < |lo| then hi[i + count - laneSize]
    else lo[i]
  }

  lemma SameLane(i: nat, h: nat, laneSize: nat)
    requires laneSize > 0 && Lane(i, laneSize) == Lane(h, laneSize)
    ensures h - Column(h, laneSize) == i - Column(i, laneSize)
  {
    LaneAndColumn(i, laneSize);
    LaneAndColumn(h, laneSize);
  }

  lemma TurnedElement(ix: nat, i: nat, a: Vec, b: Vec, laneSize: nat, rot: nat)
    requires |a| == |b| && 0 < laneSize && rot < 2 * laneSize && i < |a| && ix < 2 * |a|
    requires Lane(Home(ix, |a|), laneSize) == Lane(i, laneSize)
    requires PermPlanning.Rotation(CircleColumn(ix, |a|, laneSize), Column(i, laneSize), 2 * laneSize) == rot
    ensures rot < laneSize ==> AlignedElement(b, a, laneSize, rot, i) == (a + b)[ix]
    ensures rot >= laneSize ==> AlignedElement(a, b, laneSize, rot - laneSize, i) == (a + b)[ix]
  {
    var h := Home(ix, |a|);
    SameLane(i, h, laneSize);
    HomeElement(ix, a, b);
    var c, d := Column(i, laneSize), Column(h, laneSize);
    assert h == i - c + d;
    if ix < |a| {
      assert rot == if d >= c then d - c else d + 2 * laneSize - c;
    } else {
      assert rot == d + laneSize - c;
    }
  }

  /** The palignr plan is exact, in any number of lanes: with b above a for a rotation by less
      than a lane, and with a above b for the rest. */
  lemma TurnFits(idx: seq<int>, a: Vec, b: Vec, laneSize: nat, rot: nat)
    requires |idx| == |a| == |b| && 0 < laneSize && rot < 2 * laneSize
    requires !BlendCrosses(idx, |idx|, |idx|, laneSize) && LanesTurnBy(idx, |idx|, laneSize, rot)
    ensures Routed(idx, a + b, if rot < laneSize then AlignrLanes(b, a, laneSize, rot)
                               else AlignrLanes(a, b, laneSize, rot - laneSize))
  {
    forall i | 0 <= i < |idx| && 0 <= idx[i] < |a + b|
      ensures rot < laneSize ==> AlignedElement(b, a, laneSize, rot, i) == (a + b)[idx[i]]
      ensures rot >= laneSize ==> AlignedElement(a, b, laneSize, rot - laneSize, i) == (a + b)[idx[i]]
    {
      TurnedElement(idx[i], i, a, b, laneSize, rot);
    }
  }

  /** With one lane, this is palignr of the whole register. */
  lemma AlignrOneLane(hi: Vec, lo: Vec, count: nat)
    requires |hi| == |lo| && count < |lo|
    ensures AlignrLanes(hi, lo, |lo|, count) == (lo + hi)[count..count + |lo|]
  {
  }

  /** The same for rotation across all lanes. */
  lemma BigTurnFits(idx: seq<int>, a: Vec, b: Vec, rot: nat)
    requires |idx| == |a| == |b| && InRange(idx, 2 * |a|) && rot < 2 * |a|
    requires PermPlanning.RotatesBy(idx, 2 * |idx|, rot)
    ensures Routed(idx, a + b, if rot < |a| then Alignr(b, a, rot) else Alignr(a, b, rot - |a|))
  {
    forall i | 0 <= i < |idx| && 0 <= idx[i] < |a + b|
      ensures (if rot < |a| then Alignr(b, a, rot) else Alignr(a, b, rot - |a|))[i] == (a + b)[idx[i]]
    {
      assert PermPlanning.Rotation(idx[i], i, 2 * |a|) == rot;
      BigTurnElement(idx[i], i, a, b, rot);
    }
  }

  lemma BigTurnElement(ix: nat, i: nat, a: Vec, b: Vec, rot: nat)
    requires |a| == |b| && i < |a| && ix < 2 * |a| && rot < 2 * |a| && PermPlanning.Rotation(ix, i, 2 * |a|) == rot
    ensures (a + b)[ix] == (if rot < |a| then Alignr(b, a, rot) else Alignr(a, b, rot - |a|))[i]
  {
  }
}
