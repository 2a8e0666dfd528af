/** The vector instructions that the permute and blend functions choose from. "Ps"
    instructions work on lanes of four elements, "Pd" instructions on lanes of two. */
module Intrinsics {
  import opened IndexLists
  import opened Vectors

  /** Element k of the lane of element i. */
  function PsPlace(i: nat, n: nat, k: nat): (p: nat)
    requires i < n && n % 4 == 0 && k < 4
    ensures p < n
  {
    i / 4 * 4 + k
  }

  function PdPlace(i: nat, n: nat, k: nat): (p: nat)
    requires i < n && n % 2 == 0 && k < 2
    ensures p < n
  {
    i / 2 * 2 + k
  }

  // ----- unpack

  function UnpackHighPs(a: Vec, b: Vec): (r: Vec)
    requires |a| == |b| && |a| % 4 == 0
    ensures |r| == |a|
    ensures forall i :: 0 <= i < |r| ==> r[i] == (if i % 2 == 0 then a else b)[PsPlace(i, |a|, 2 + i % 4 / 2)]
  {
    seq(|a|, i requires 0 <= i < |a| => (if i % 2 == 0 then a else b)[PsPlace(i, |a|, 2 + i % 4 / 2)])
  }

  function UnpackLowPs(a: Vec, b: Vec): (r: Vec)
    requires |a| == |b| && |a| % 4 == 0
    ensures |r| == |a|
    ensures forall i :: 0 <= i < |r| ==> r[i] == (if i % 2 == 0 then a else b)[PsPlace(i, |a|, i % 4 / 2)]
  {
    seq(|a|, i requires 0 <= i < |a| => (if i % 2 == 0 then a else b)[PsPlace(i, |a|, i % 4 / 2)])
  }

  lemma UnpackPsSized(a: Vec, b: Vec, s: nat)
    requires |a| == |b| && |a| % 4 == 0 && Sized(a, s) && Sized(b, s)
    ensures Sized(UnpackHighPs(a, b), s) && Sized(UnpackLowPs(a, b), s)
  {
    forall i | 0 <= i < |a| ensures |UnpackHighPs(a, b)[i]| == s {
      var k := PsPlace(i, |a|, 2 + i % 4 / 2);
      assert |a[k]| == s && |b[k]| == s;
    }
    forall i | 0 <= i < |a| ensures |UnpackLowPs(a, b)[i]| == s {
      var k := PsPlace(i, |a|, i % 4 / 2);
      assert |a[k]| == s && |b[k]| == s;
    }
  }

  function UnpackHighPd(a: Vec, b: Vec): (r: Vec)
    requires |a| == |b| && |a| % 2 == 0
    ensures |r| == |a|
    ensures forall i :: 0 <= i < |r| ==> r[i] == (if i % 2 == 0 then a else b)[PdPlace(i, |a|, 1)]
  {
    seq(|a|, i requires 0 <= i < |a| => (if i % 2 == 0 then a else b)[PdPlace(i, |a|, 1)])
  }

  function UnpackLowPd(a: Vec, b: Vec): (r: Vec)
    requires |a| == |b| && |a| % 2 == 0
    ensures |r| == |a|
    ensures forall i :: 0 <= i < |r| ==> r[i] == (if i % 2 == 0 then a else b)[PdPlace(i, |a|, 0)]
  {
    seq(|a|, i requires 0 <= i < |a| => (if i % 2 == 0 then a else b)[PdPlace(i, |a|, 0)])
  }

  lemma UnpackOneLane(a: Vec, b: Vec)
    requires |a| == |b| == 2
    ensures UnpackHighPd(a, b) == [a[1], b[1]] && UnpackLowPd(a, b) == [a[0], b[0]]
  {
  }

  lemma UnpackPdSized(a: Vec, b: Vec, s: nat)
    requires |a| == |b| && |a| % 2 == 0 && Sized(a, s) && Sized(b, s)
    ensures Sized(UnpackHighPd(a, b), s) && Sized(UnpackLowPd(a, b), s)
  {
    forall i | 0 <= i < |a| ensures |UnpackHighPd(a, b)[i]| == s && |UnpackLowPd(a, b)[i]| == s {
      var k0, k1 := PdPlace(i, |a|, 0), PdPlace(i, |a|, 1);
      assert |a[k0]| == s && |b[k0]| == s && |a[k1]| == s && |b[k1]| == s;
    }
  }

  // ----- shuffle within lanes

  /** The lower half of each lane comes from a, the upper half from b. */
  function ShufflePs(a: Vec, b: Vec, pattern: nat): (r: Vec)
    requires |a| == |b| && |a| % 4 == 0
    ensures |r| == |a|
    ensures forall i :: 0 <= i < |r| ==> r[i] == (if i % 4 < 2 then a else b)[i / 4 * 4 + Field2(pattern, i % 4)]
  {
    seq(|a|, i requires 0 <= i < |a| => (if i % 4 < 2 then a else b)[i / 4 * 4 + Field2(pattern, i % 4)])
  }

  lemma ShufflePsSized(a: Vec, b: Vec, pattern: nat, s: nat)
    requires |a| == |b| && |a| % 4 == 0 && Sized(a, s) && Sized(b, s)
    ensures Sized(ShufflePs(a, b, pattern), s)
  {
    forall i | 0 <= i < |a| ensures |ShufflePs(a, b, pattern)[i]| == s {
      var k := i / 4 * 4 + Field2(pattern, i % 4);
      assert |a[k]| == s && |b[k]| == s;
    }
  }

  function ShufflePd(a: Vec, b: Vec, pattern: nat): (r: Vec)
    requires |a| == |b| && |a| % 2 == 0
    ensures |r| == |a|
    ensures forall i :: 0 <= i < |r| ==> r[i] == (if i % 2 == 0 then a else b)[PdPlace(i, |a|, Bit(pattern, i))]
  {
    seq(|a|, i requires 0 <= i < |a| => (if i % 2 == 0 then a else b)[PdPlace(i, |a|, Bit(pattern, i))])
  }

  lemma ShufflePdSized(a: Vec, b: Vec, pattern: nat, s: nat)
    requires |a| == |b| && |a| % 2 == 0 && Sized(a, s) && Sized(b, s)
    ensures Sized(ShufflePd(a, b, pattern), s)
  {
    forall i | 0 <= i < |a| ensures |ShufflePd(a, b, pattern)[i]| == s {
      var k := PdPlace(i, |a|, Bit(pattern, i));
      assert |a[k]| == s && |b[k]| == s;
    }
  }

  lemma ShuffleOneLane(a: Vec, b: Vec, pattern: nat)
    requires |a| == |b| == 2
    ensures ShufflePd(a, b, pattern) == [a[Bit(pattern, 0)], b[Bit(pattern, 1)]]
  {
    assert PdPlace(0, 2, Bit(pattern, 0)) == Bit(pattern, 0) && PdPlace(1, 2, Bit(pattern, 1)) == Bit(pattern, 1);
  }

  lemma PermutePdSized(a: Vec, pattern: nat, s: nat)
    requires |a| % 2 == 0 && Sized(a, s)
    ensures Sized(PermutePd(a, pattern), s)
  {
    forall i | 0 <= i < |a| ensures |PermutePd(a, pattern)[i]| == s {
      var k := PdPlace(i, |a|, Bit(pattern, i));
      assert |a[k]| == s;
    }
  }

  function PermutePd(a: Vec, pattern: nat): (r: Vec)
    requires |a| % 2 == 0
    ensures |r| == |a|
    ensures forall i :: 0 <= i < |r| ==> r[i] == a[PdPlace(i, |a|, Bit(pattern, i))]
  {
    seq(|a|, i requires 0 <= i < |a| => a[PdPlace(i, |a|, Bit(pattern, i))])
  }

  /** Only the two lowest bits of each index are used. */
  function PermutevarPs(a: Vec, index: seq<int>): (r: Vec)
    requires |a| == |index| && |a| % 4 == 0
    ensures |r| == |a|
    ensures forall i :: 0 <= i < |r| ==> r[i] == a[i / 4 * 4 + index[i] % 4]
  {
    seq(|a|, i requires 0 <= i < |a| => a[i / 4 * 4 + index[i] % 4])
  }

  function MoveldupPs(a: Vec): (r: Vec)
    requires |a| == 4
  {
    [a[0], a[0], a[2], a[2]]
  }

  function MovehdupPs(a: Vec): (r: Vec)
    requires |a| == 4
  {
    [a[1], a[1], a[3], a[3]]
  }

  // ----- across lanes

  /** Full permute; only as many bits of each index are used as the vector needs. */
  function PermutevarAll(a: Vec, index: seq<int>): (r: Vec)
    requires |a| == |index|
    ensures |r| == |a|
    ensures forall i :: 0 <= i < |r| ==> r[i] == a[index[i] % |a|]
  {
    seq(|a|, i requires 0 <= i < |a| => a[index[i] % |a|])
  }

  function Permute4x64(a: Vec, pattern: nat): (r: Vec)
    requires |a| == 4
    ensures |r| == 4
    ensures forall i :: 0 <= i < 4 ==> r[i] == a[Field2(pattern, i)]
  {
    seq(4, i requires 0 <= i < 4 => a[Field2(pattern, i)])
  }

  /** A field of four bits selects one half of a or b for each half of the result; its highest
      bit gives zero. */
  function HalfOf(a: Vec, b: Vec, s: nat, field: nat): (r: Vec)
    requires |a| == |b| && |a| % 2 == 0
    ensures |r| == |a| / 2
  {
    var h := |a| / 2;
    if field / 8 % 2 == 1 then ZeroVec(h, s)
    else if field % 4 == 0 then a[..h] else if field % 4 == 1 then a[h..]
    else if field % 4 == 2 then b[..h] else b[h..]
  }

  function Permute2f128(a: Vec, b: Vec, s: nat, pattern: nat): (r: Vec)
    requires |a| == |b| && |a| % 2 == 0
    ensures |r| == |a|
  {
    HalfOf(a, b, s, pattern % 16) + HalfOf(a, b, s, pattern / 16 % 16)
  }

  function BroadcastFirst(a: Vec): (r: Vec)
    requires |a| > 0
    ensures |r| == |a|
    ensures forall i :: 0 <= i < |r| ==> r[i] == a[0]
  {
    seq(|a|, _ => a[0])
  }

  /** Vector a above vector b, shifted right by a number of elements. */
  function Alignr(a: Vec, b: Vec, count: nat): (r: Vec)
    requires |a| == |b| && count <= |a|
    ensures |r| == |a|
    ensures forall i :: 0 <= i < |r| ==> r[i] == (b + a)[i + count]
  {
    (b + a)[count..count + |a|]
  }

  /** The lower half, extended with zeros. */
  function ZextLow(a: Vec, s: nat): (r: Vec)
    requires |a| % 2 == 0
    ensures |r| == |a|
  {
    a[..|a| / 2] + ZeroVec(|a| / 2, s)
  }

  /** The upper half moved down, extended with zeros. */
  function ZextHigh(a: Vec, s: nat): (r: Vec)
    requires |a| % 2 == 0
    ensures |r| == |a|
  {
    a[|a| / 2..] + ZeroVec(|a| / 2, s)
  }

  /** Each element of the lower half, zero-extended to double size. */
  function ZextElements(a: Vec, s: nat): (r: Vec)
    requires |a| % 2 == 0
    ensures |r| == |a|
    ensures forall i :: 0 <= i < |r| ==> r[i] == if i % 2 == 0 then a[i / 2] else Zero(s)
  {
    seq(|a|, i requires 0 <= i < |a| => if i % 2 == 0 then a[i / 2] else Zero(s))
  }
}
