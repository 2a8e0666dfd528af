/** Permuting elements as bytes (pshufb_mask). */
module ByteShuffles {
  // Elements of any size, with zeroing, within 128-bit lanes or from the opposite lane.

  import opened IndexLists
  import opened Vectors
  import opened RegisterBytes

  /** ix ^ laneSize, for a lane size that is a power of two. */
  function OtherLane(ix: nat, laneSize: nat): nat
    requires laneSize > 0
  {
    if Lane(ix, laneSize) % 2 == 0 then ix + laneSize else Below(ix, laneSize)
  }

  function Below(ix: nat, laneSize: nat): nat {
    if ix >= laneSize then ix - laneSize else ix
  }

  /** The place of the wanted element in the lane that it can be taken from, or -1. The lane
      starts at element number base. */
  function Place(ix: int, base: nat, laneSize: nat, opposite: bool): (p: int)
    requires laneSize > 0
    ensures p < laneSize
  {
    var ix0 := if ix >= 0 && opposite then OtherLane(ix, laneSize) else ix;
    var ix1 := ix0 - base;
    if 0 <= ix1 < laneSize then ix1 else -1
  }

  function Places(part: seq<int>, base: nat, laneSize: nat, opposite: bool): (p: seq<int>)
    requires laneSize > 0
    ensures |p| == |part|
    ensures forall i :: 0 <= i < |p| ==> p[i] < laneSize && p[i] == Place(part[i], base, laneSize, opposite)
  {
    seq(|part|, i requires 0 <= i < |part| => Place(part[i], base, laneSize, opposite))
  }

  /** The mask bytes of the lanes from element number base on. */
  function MaskFrom(a: seq<int>, base: nat, laneSize: nat, s: nat, opposite: bool): seq<int>
    requires laneSize > 0
  {
    if |a| < laneSize then []
    else LaneMask(Places(a[..laneSize], base, laneSize, opposite), s)
         + MaskFrom(a[laneSize..], base + laneSize, laneSize, s, opposite)
  }

  method AppendChunk(u: seq<int>, p: int, s: nat) returns (r: seq<int>)
    ensures r == u + MaskChunk(p, s)
  {
    r := u;
    for j := 0 to s
      invariant r == u + MaskChunk(p, s)[..j]
    {
      r := r + [if p < 0 then -1 else p * s + j];
    }
  }

  method AppendLane(u: seq<int>, a: seq<int>, base: nat, laneSize: nat, s: nat, opposite: bool) returns (r: seq<int>)
    requires laneSize > 0 && base + laneSize <= |a|
    ensures r == u + LaneMask(Places(a[base..base + laneSize], base, laneSize, opposite), s)
  {
    ghost var places := Places(a[base..base + laneSize], base, laneSize, opposite);
    r := u;
    var m := base;
    for i := 0 to laneSize
      invariant m == base + i
      invariant r == u + LaneMask(places[..i], s)
    {
      var ix := a[m];
      if ix >= 0 && opposite { ix := OtherLane(ix, laneSize); }
      ix := ix - base;
      var p := -1;
      if 0 <= ix < laneSize { p := ix; }
      assert p == places[i];
      r := AppendChunk(r, p, s);
      assert places[..i + 1][..i] == places[..i];
      m := m + 1;
    }
    assert places[..laneSize] == places;
  }

  lemma MaskStep(a: seq<int>, m: nat, laneSize: nat, s: nat, opposite: bool)
    requires laneSize > 0 && m + laneSize <= |a|
    ensures MaskFrom(a[m..], m, laneSize, s, opposite)
         == LaneMask(Places(a[m..m + laneSize], m, laneSize, opposite), s)
            + MaskFrom(a[m + laneSize..], m + laneSize, laneSize, s, opposite)
  {
    assert a[m..][..laneSize] == a[m..m + laneSize];
    assert a[m..][laneSize..] == a[m + laneSize..];
  }

  lemma Associates(u: seq<int>, x: seq<int>, r: seq<int>)
    ensures (u + x) + r == u + (x + r)
  {
  }

  /** pshufb_mask for elements of s bytes. */
  method PshufbMask(a: seq<int>, laneSize: nat, s: nat, opposite: bool) returns (u: seq<int>)
    requires laneSize > 0
    ensures u == MaskFrom(a, 0, laneSize, s, opposite)
  {
    u := [];
    var m := 0;
    assert a[0..] == a;
    while m + laneSize <= |a|
      invariant 0 <= m <= |a|
      invariant u + MaskFrom(a[m..], m, laneSize, s, opposite) == MaskFrom(a, 0, laneSize, s, opposite)
    {
      MaskStep(a, m, laneSize, s, opposite);
      Associates(u, LaneMask(Places(a[m..m + laneSize], m, laneSize, opposite), s),
                 MaskFrom(a[m + laneSize..], m + laneSize, laneSize, s, opposite));
      u := AppendLane(u, a, m, laneSize, s, opposite);
      m := m + laneSize;
    }
    assert MaskFrom(a[m..], m, laneSize, s, opposite) == [];
  }

  lemma {:induction false} LaneMaskLength(places: seq<int>, s: nat)
    ensures |LaneMask(places, s)| == |places| * s
  {
    if places != [] {
      LaneMaskLength(places[..|places| - 1], s);
      assert |places| * s == (|places| - 1) * s + s;
    }
  }

  /** Byte j of the mask for the element at place p of its lane, or -1. */
  function ByteOf(p: int, s: nat, j: nat): int {
    if p < 0 then -1 else p * s + j
  }

  lemma {:induction false} LaneMaskByte(places: seq<int>, s: nat, i: nat, j: nat, at: nat)
    requires i < |places| && j < s && at == i * s + j
    ensures at < |LaneMask(places, s)| && LaneMask(places, s)[at] == ByteOf(places[i], s, j)
  {
    var k := |places| - 1;
    LaneMaskLength(places[..k], s);
    if i < k {
      LaneMaskByte(places[..k], s, i, j, at);
    }
  }

  /** The source to look for, in the vector or in the vector with its lanes exchanged. */
  function Wanted(ix: int, laneSize: nat, opposite: bool): int
    requires laneSize > 0
  {
    if !opposite || ix < 0 then ix else if ix / laneSize % 2 == 0 then ix + laneSize else ix - laneSize
  }

  /** Its place in the lane that starts at place b, or -1. */
  function PlaceIn(w: int, b: int, laneSize: nat): int {
    if b <= w < b + laneSize then w - b else -1
  }

  lemma PlaceIs(ix: int, base: nat, laneSize: nat, opposite: bool)
    requires laneSize > 0
    ensures Place(ix, base, laneSize, opposite) == PlaceIn(Wanted(ix, laneSize, opposite), base, laneSize)
  {
    if ix >= 0 { LaneAndColumn(ix, laneSize); }
  }

  /** Byte j of element i of the mask: in its own lane, if the source is there. */
  lemma {:induction false} MaskByte(a: seq<int>, base: nat, laneSize: nat, s: nat, opposite: bool,
                                    i: nat, j: nat, at: nat)
    requires laneSize > 0 && i < |a| && Lane(i, laneSize) < Lane(|a|, laneSize) && j < s && at == i * s + j
    ensures at < |MaskFrom(a, base, laneSize, s, opposite)|
    ensures MaskFrom(a, base, laneSize, s, opposite)[at]
      == ByteOf(PlaceIn(Wanted(a[i], laneSize, opposite), base + i - Column(i, laneSize), laneSize), s, j)
    decreases |a|
  {
    if i < laneSize {
      FirstLaneByte(a, base, laneSize, s, opposite, i, j, at);
    } else {
      var at' := ByteInRest(a, base, laneSize, s, opposite, i, j, at);
      OneLaneOn(i, |a|, laneSize);
      MaskByte(a[laneSize..], base + laneSize, laneSize, s, opposite, i - laneSize, j, at');
      ContinuesWith(a, base, laneSize, s, opposite, at');
    }
  }

  lemma FirstLaneByte(a: seq<int>, base: nat, laneSize: nat, s: nat, opposite: bool, i: nat, j: nat, at: nat)
    requires i < laneSize <= |a| && j < s && at == i * s + j
    ensures at < |MaskFrom(a, base, laneSize, s, opposite)|
    ensures MaskFrom(a, base, laneSize, s, opposite)[at]
      == ByteOf(PlaceIn(Wanted(a[i], laneSize, opposite), base, laneSize), s, j)
  {
    var places := Places(a[..laneSize], base, laneSize, opposite);
    LaneMaskByte(places, s, i, j, at);
    PlaceIs(a[i], base, laneSize, opposite);
    StartsWith(a, base, laneSize, s, opposite, at);
    assert places[i] == Place(a[i], base, laneSize, opposite);
  }

  /** Where that byte is in the mask for the lanes after the first. */
  ghost function ByteInRest(a: seq<int>, base: nat, laneSize: nat, s: nat, opposite: bool,
                            i: nat, j: nat, at: nat): (k: nat)
    requires 0 < laneSize <= i < |a| && j < s && at == i * s + j
    ensures k == (i - laneSize) * s + j
    ensures at == |LaneMask(Places(a[..laneSize], base, laneSize, opposite), s)| + k
  {
    LaneMaskLength(Places(a[..laneSize], base, laneSize, opposite), s);
    Distribute(i, laneSize, s);
    at - laneSize * s
  }

  lemma OneLaneOn(i: nat, n: nat, laneSize: nat)
    requires 0 < laneSize <= i < n
    ensures Lane(i - laneSize, laneSize) == Lane(i, laneSize) - 1
    ensures Column(i - laneSize, laneSize) == Column(i, laneSize)
    ensures Lane(n - laneSize, laneSize) == Lane(n, laneSize) - 1
  {
  }

  lemma StartsWith(a: seq<int>, base: nat, laneSize: nat, s: nat, opposite: bool, k: nat)
    requires 0 < laneSize <= |a| && k < |LaneMask(Places(a[..laneSize], base, laneSize, opposite), s)|
    ensures k < |MaskFrom(a, base, laneSize, s, opposite)|
    ensures MaskFrom(a, base, laneSize, s, opposite)[k]
      == LaneMask(Places(a[..laneSize], base, laneSize, opposite), s)[k]
  {
  }

  lemma ContinuesWith(a: seq<int>, base: nat, laneSize: nat, s: nat, opposite: bool, k: nat)
    requires 0 < laneSize <= |a| && k < |MaskFrom(a[laneSize..], base + laneSize, laneSize, s, opposite)|
    ensures var n := |LaneMask(Places(a[..laneSize], base, laneSize, opposite), s)|;
      n + k < |MaskFrom(a, base, laneSize, s, opposite)|
      && MaskFrom(a, base, laneSize, s, opposite)[n + k]
         == MaskFrom(a[laneSize..], base + laneSize, laneSize, s, opposite)[k]
  {
  }

  // ----- what the shuffles do

  /** The reference: every index that is not the number of an element gives zero. */
  function PermutedOrZero(idx: seq<int>, s: nat, v: Vec): (r: Vec)
    ensures |r| == |idx|
    ensures forall i :: 0 <= i < |idx| ==> r[i] == if 0 <= idx[i] < |v| then v[idx[i]] else Zero(s)
  {
    seq(|idx|, i requires 0 <= i < |idx| => if 0 <= idx[i] < |v| then v[idx[i]] else Zero(s))
  }

  /** A one-lane vector: pshufb does the permutation and the zeroing. */
  lemma OneLaneShuffle(idx: seq<int>, s: nat, v: Vec)
    requires |idx| == |v| > 0 && Sized(v, s) && |v| * s == 16
    ensures |BytesOf(v)| == 16
    ensures var r := ShuffleLane(BytesOf(v), MaskFrom(idx, 0, |v|, s, false));
            |r| == 16 && ElementsOf(r, s, |v|) == PermutedOrZero(idx, s, v)
  {
    BytesLength(v, s);
    var places := Places(idx, 0, |v|, false);
    assert idx[..|v|] == idx;
    assert MaskFrom(idx[|v|..], |v|, |v|, s, false) == [];
    assert MaskFrom(idx, 0, |v|, s, false) == LaneMask(places, s);
    ShuffledLane(v, s, places);
    assert Placed(v, s, places) == PermutedOrZero(idx, s, v);
    ElementsFrom(ShuffleLane(BytesOf(v), LaneMask(places, s)), PermutedOrZero(idx, s, v), s);
  }

  /** vpshufb: each lane is shuffled by its own half of the mask. */
  function ShuffleTwoLanes(bs: seq<bv8>, mask: seq<int>): (r: seq<bv8>)
    requires |bs| == |mask| == 32
    ensures |r| == 32
  {
    ShuffleLane(bs[..16], mask[..16]) + ShuffleLane(bs[16..], mask[16..])
  }

  lemma TwoLaneMask(idx: seq<int>, s: nat, laneSize: nat, opposite: bool)
    requires |idx| == 2 * laneSize && laneSize > 0 && laneSize * s == 16
    ensures var mask := MaskFrom(idx, 0, laneSize, s, opposite);
            && |mask| == 32
            && mask[..16] == LaneMask(Places(idx[..laneSize], 0, laneSize, opposite), s)
            && mask[16..] == LaneMask(Places(idx[laneSize..], laneSize, laneSize, opposite), s)
  {
    var p0, p1 := Places(idx[..laneSize], 0, laneSize, opposite), Places(idx[laneSize..], laneSize, laneSize, opposite);
    assert idx[laneSize..][..laneSize] == idx[laneSize..];
    assert MaskFrom(idx[laneSize..][laneSize..], 2 * laneSize, laneSize, s, opposite) == [];
    assert MaskFrom(idx[laneSize..], laneSize, laneSize, s, opposite) == LaneMask(p1, s);
    LaneMaskLength(p0, s);
    LaneMaskLength(p1, s);
  }

  lemma TwoLaneBytes(lo: Vec, hi: Vec, s: nat)
    requires |lo| == |hi| && |lo| * s == 16 && Sized(lo, s) && Sized(hi, s)
    ensures |BytesOf(lo)| == |BytesOf(hi)| == 16 && |BytesOf(lo + hi)| == 32
    ensures BytesOf(lo + hi)[..16] == BytesOf(lo) && BytesOf(lo + hi)[16..] == BytesOf(hi)
  {
    BytesLength(lo, s);
    BytesLength(hi, s);
    BytesConcat(lo, hi);
  }

  /** A vector of two lanes, shuffled with a mask for data from the lanes given. */
  lemma TwoLaneShuffle(idx: seq<int>, s: nat, laneSize: nat, lo: Vec, hi: Vec, opposite: bool)
    requires |lo| == |hi| == laneSize > 0 && |idx| == 2 * laneSize && laneSize * s == 16 && Sized(lo, s) && Sized(hi, s)
    ensures |BytesOf(lo + hi)| == |MaskFrom(idx, 0, laneSize, s, opposite)| == 32
    ensures ShuffleTwoLanes(BytesOf(lo + hi), MaskFrom(idx, 0, laneSize, s, opposite))
         == BytesOf(Placed(lo, s, Places(idx[..laneSize], 0, laneSize, opposite)) +
                    Placed(hi, s, Places(idx[laneSize..], laneSize, laneSize, opposite)))
  {
    var p0, p1 := Places(idx[..laneSize], 0, laneSize, opposite), Places(idx[laneSize..], laneSize, laneSize, opposite);
    TwoLaneMask(idx, s, laneSize, opposite);
    TwoLaneBytes(lo, hi, s);
    ShuffledLane(lo, s, p0);
    ShuffledLane(hi, s, p1);
    BytesConcat(Placed(lo, s, p0), Placed(hi, s, p1));
  }

  /** In a vector of two lanes, an element is either in the same lane or in the opposite one. */
  lemma OneOfTwoPlaces(ix: int, laneSize: nat, lo: Vec, hi: Vec, s: nat, inLow: bool)
    requires |lo| == |hi| == laneSize > 0 && (ix < 2 * laneSize)
    ensures var base := if inLow then 0 else laneSize;
      var same, other := Place(ix, base, laneSize, false), Place(ix, base, laneSize, true);
      var own, opp := if inLow then lo else hi, if inLow then hi else lo;
      if ix < 0 then same < 0 && other < 0
      else if same >= 0 then other < 0 && own[same] == (lo + hi)[ix]
      else other >= 0 && opp[other] == (lo + hi)[ix]
  {
    if 0 <= ix < 2 * laneSize {
      assert Lane(ix, laneSize) == if ix < laneSize then 0 else 1;
    }
  }

  lemma OrOfLanes(idx: seq<int>, s: nat, laneSize: nat, lo: Vec, hi: Vec, w0: Vec, w1: Vec)
    requires |lo| == |hi| == laneSize > 0 && |idx| == 2 * laneSize && Sized(lo, s) && Sized(hi, s)
    requires InRange(idx, 2 * laneSize)
    requires w0 == Placed(lo, s, Places(idx[..laneSize], 0, laneSize, false))
                   + Placed(hi, s, Places(idx[laneSize..], laneSize, laneSize, false))
    requires w1 == Placed(hi, s, Places(idx[..laneSize], 0, laneSize, true))
                   + Placed(lo, s, Places(idx[laneSize..], laneSize, laneSize, true))
    ensures Sized(w0, s) && Sized(w1, s) && Or(w0, w1) == PermutedOrZero(idx, s, lo + hi)
  {
    forall i | 0 <= i < 2 * laneSize
      ensures |w0[i]| == |w1[i]| == s && OrElem(w0[i], w1[i]) == PermutedOrZero(idx, s, lo + hi)[i]
    {
      assert ValidIndex(idx[i], 2 * laneSize);
      OneOfTwoPlaces(idx[i], laneSize, lo, hi, s, i < laneSize);
      OrWithZero(w0[i]);
      OrWithZero(w1[i]);
    }
  }

  /** One vpshufb: what each lane of the source contributes. */
  method ShuffleWithMask(idx: seq<int>, s: nat, laneSize: nat, lo: Vec, hi: Vec, opposite: bool) returns (y: Vec)
    requires |lo| == |hi| == laneSize > 0 && |idx| == 2 * laneSize && laneSize * s == 16 && Sized(lo, s) && Sized(hi, s)
    ensures y == Placed(lo, s, Places(idx[..laneSize], 0, laneSize, opposite)) +
                 Placed(hi, s, Places(idx[laneSize..], laneSize, laneSize, opposite))
  {
    var m := PshufbMask(idx, laneSize, s, opposite);
    TwoLaneShuffle(idx, s, laneSize, lo, hi, opposite);
    ghost var w := Placed(lo, s, Places(idx[..laneSize], 0, laneSize, opposite)) +
                   Placed(hi, s, Places(idx[laneSize..], laneSize, laneSize, opposite));
    ElementsFrom(ShuffleTwoLanes(BytesOf(lo + hi), m), w, s);
    y := ElementsOf(ShuffleTwoLanes(BytesOf(lo + hi), m), s, 2 * laneSize);
  }

  /** vpshufb of the vector, vpshufb of the vector with its lanes exchanged, and OR: the full
      permutation with zeroing, for elements of any size. */
  method FullByteShuffle(idx: seq<int>, s: nat, laneSize: nat, lo: Vec, hi: Vec) returns (y: Vec)
    requires |lo| == |hi| == laneSize > 0 && |idx| == 2 * laneSize && laneSize * s == 16 && Sized(lo, s) && Sized(hi, s)
    requires InRange(idx, 2 * laneSize)
    ensures y == PermutedOrZero(idx, s, lo + hi)
  {
    var y0 := ShuffleWithMask(idx, s, laneSize, lo, hi, false);
    var y1 := ShuffleWithMask(idx, s, laneSize, hi, lo, true);
    OrOfLanes(idx, s, laneSize, lo, hi, y0, y1);
    y := Or(y0, y1);
  }
}
