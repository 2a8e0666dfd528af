/** Instructions that work on the bytes of a register: shifts, alignment and shuffles, and what
    they do to its elements. */
module RegisterBytes {
  import opened Vectors

  /** All bytes of a vector, in order. */
  function BytesOf(v: Vec): seq<bv8> {
    if v == [] then [] else v[0] + BytesOf(v[1..])
  }

  /** A register seen as n elements of s bytes. */
  function ElementsOf(bs: seq<bv8>, s: nat, n: nat): (v: Vec)
    requires |bs| == n * s
    ensures |v| == n && Sized(v, s)
  {
    if n == 0 then [] else
      assert n * s == s + (n - 1) * s && (n - 1) * s >= 0;
      [bs[..s]] + ElementsOf(bs[s..], s, n - 1)
  }

  lemma {:induction false} BytesLength(v: Vec, s: nat)
    requires Sized(v, s)
    ensures |BytesOf(v)| == |v| * s
  {
    if v != [] {
      BytesLength(v[1..], s);
      assert |v| * s == s + (|v| - 1) * s;
    }
  }

  /** Taking the bytes apart again gives the same elements. */
  lemma {:induction false} ElementsOfBytes(v: Vec, s: nat)
    requires Sized(v, s)
    ensures |BytesOf(v)| == |v| * s && ElementsOf(BytesOf(v), s, |v|) == v
  {
    BytesLength(v, s);
    if v != [] {
      var b := BytesOf(v);
      assert b[..s] == v[0] && b[s..] == BytesOf(v[1..]);
      ElementsOfBytes(v[1..], s);
      assert v == [v[0]] + v[1..];
    }
  }

  lemma {:induction false} BytesConcat(v: Vec, w: Vec)
    ensures BytesOf(v + w) == BytesOf(v) + BytesOf(w)
  {
    if v == [] {
      assert v + w == w;
    } else {
      BytesConcat(v[1..], w);
      assert (v + w)[1..] == v[1..] + w && (v + w)[0] == v[0];
      assert BytesOf(v + w) == v[0] + BytesOf(v[1..] + w);
    }
  }

  /** The bytes of the first k elements and of the others. */
  lemma BytesSplit(v: Vec, s: nat, k: nat)
    requires Sized(v, s) && k <= |v|
    ensures |BytesOf(v)| == |v| * s && k * s <= |v| * s
    ensures BytesOf(v)[..k * s] == BytesOf(v[..k]) && BytesOf(v)[k * s..] == BytesOf(v[k..])
  {
    BytesLength(v, s);
    BytesLength(v[..k], s);
    BytesConcat(v[..k], v[k..]);
    assert v == v[..k] + v[k..];
  }

  lemma BytesOfElement(v: Vec, s: nat, p: nat)
    requires Sized(v, s) && p < |v|
    ensures p * s + s <= |BytesOf(v)| && BytesOf(v)[p * s..p * s + s] == v[p]
  {
    BytesSplit(v, s, p);
    var w := v[p..];
    assert BytesOf(w) == w[0] + BytesOf(w[1..]) && w[0] == v[p];
    assert BytesOf(v)[p * s..][..s] == v[p];
  }

  lemma {:induction false} BytesOfZeros(k: nat, s: nat)
    ensures k * s >= 0 && BytesOf(ZeroVec(k, s)) == Zero(k * s)
  {
    if k > 0 {
      BytesOfZeros(k - 1, s);
      assert k * s == s + (k - 1) * s;
      assert ZeroVec(k, s)[1..] == ZeroVec(k - 1, s);
    }
  }

  // ----- shifts of the whole register

  /** pslldq: zeros come in at the low end. */
  function ShiftBytesLeft(bs: seq<bv8>, count: nat): (r: seq<bv8>)
    requires count <= |bs|
    ensures |r| == |bs|
  {
    Zero(count) + bs[..|bs| - count]
  }

  /** psrldq: zeros come in at the high end. */
  function ShiftBytesRight(bs: seq<bv8>, count: nat): (r: seq<bv8>)
    requires count <= |bs|
    ensures |r| == |bs|
  {
    bs[count..] + Zero(count)
  }

  /** palignr: register hi above register lo, shifted right by a number of bytes. */
  function AlignBytes(hi: seq<bv8>, lo: seq<bv8>, count: nat): (r: seq<bv8>)
    requires |hi| == |lo| && count <= |lo|
    ensures |r| == |lo|
  {
    (lo + hi)[count..count + |lo|]
  }

  lemma Distribute(x: nat, y: nat, s: nat)
    requires y <= x
    ensures (x - y) * s == x * s - y * s && y * s <= x * s
  {
    assert (x - y) * s >= 0;
  }

  lemma ElementsFrom(bs: seq<bv8>, w: Vec, s: nat)
    requires Sized(w, s) && bs == BytesOf(w)
    ensures |bs| == |w| * s && ElementsOf(bs, s, |w|) == w
  {
    ElementsOfBytes(w, s);
  }

  lemma ShiftedIn(v: Vec, s: nat, k: nat, count: nat, rest: nat)
    requires k <= |v| && |BytesOf(v)| == rest + count
    requires BytesOf(v)[..rest] == BytesOf(v[..|v| - k]) && Zero(count) == BytesOf(ZeroVec(k, s))
    ensures ShiftBytesLeft(BytesOf(v), count) == BytesOf(ZeroVec(k, s) + v[..|v| - k])
  {
    BytesConcat(ZeroVec(k, s), v[..|v| - k]);
    assert ShiftBytesLeft(BytesOf(v), count) == Zero(count) + BytesOf(v)[..rest];
  }

  lemma BytesToKeep(v: Vec, s: nat, k: nat, rest: nat)
    requires Sized(v, s) && k <= |v| && rest == (|v| - k) * s
    ensures |BytesOf(v)| == |v| * s == rest + k * s && BytesOf(v)[..rest] == BytesOf(v[..|v| - k])
  {
    BytesSplit(v, s, |v| - k);
    Distribute(|v|, k, s);
  }

  /** A left shift by the bytes of k elements. */
  lemma ShiftLeftElements(v: Vec, s: nat, k: nat)
    requires Sized(v, s) && k <= |v|
    ensures |BytesOf(v)| == |v| * s && k * s <= |v| * s
    ensures ElementsOf(ShiftBytesLeft(BytesOf(v), k * s), s, |v|) == ZeroVec(k, s) + v[..|v| - k]
  {
    var rest: nat := (|v| - k) * s;
    BytesToKeep(v, s, k, rest);
    BytesOfZeros(k, s);
    ShiftedIn(v, s, k, k * s, rest);
    ElementsFrom(ShiftBytesLeft(BytesOf(v), k * s), ZeroVec(k, s) + v[..|v| - k], s);
  }

  /** A right shift by the bytes of k elements. */
  lemma ShiftRightElements(v: Vec, s: nat, k: nat)
    requires Sized(v, s) && k <= |v|
    ensures |BytesOf(v)| == |v| * s && k * s <= |v| * s
    ensures ElementsOf(ShiftBytesRight(BytesOf(v), k * s), s, |v|) == v[k..] + ZeroVec(k, s)
  {
    BytesSplit(v, s, k);
    BytesOfZeros(k, s);
    BytesConcat(v[k..], ZeroVec(k, s));
    ElementsFrom(ShiftBytesRight(BytesOf(v), k * s), v[k..] + ZeroVec(k, s), s);
  }

  lemma MiddleOfConcat<T>(x: seq<T>, y: seq<T>, c: nat)
    requires |x| == |y| && c <= |x|
    ensures (x + y)[c..c + |x|] == x[c..] + y[..c]
  {
  }

  /** Alignment by the bytes of k elements. */
  lemma AlignElements(hi: Vec, lo: Vec, s: nat, k: nat)
    requires Sized(hi, s) && Sized(lo, s) && |hi| == |lo| && k <= |lo|
    ensures |BytesOf(hi)| == |BytesOf(lo)| == |lo| * s && k * s <= |lo| * s
    ensures ElementsOf(AlignBytes(BytesOf(hi), BytesOf(lo), k * s), s, |lo|) == (lo + hi)[k..k + |lo|]
  {
    BytesSplit(lo, s, k);
    BytesSplit(hi, s, k);
    BytesConcat(lo[k..], hi[..k]);
    MiddleOfConcat(lo, hi, k);
    MiddleOfConcat(BytesOf(lo), BytesOf(hi), k * s);
    ElementsFrom(AlignBytes(BytesOf(hi), BytesOf(lo), k * s), lo[k..] + hi[..k], s);
  }

  // ----- shuffles within lanes of 16 bytes

  /** pshufb in one lane: a negative mask byte gives zero, otherwise its four lowest bits
      select a byte of the same lane. */
  function ShuffleLane(bs: seq<bv8>, mask: seq<int>): (r: seq<bv8>)
    requires |bs| == 16
    ensures |r| == |mask|
  {
    seq(|mask|, j requires 0 <= j < |mask| => if mask[j] < 0 then 0 else bs[mask[j] % 16])
  }

  /** The mask bytes for an element that comes from place p in its lane, or is zeroed. */
  function MaskChunk(p: int, s: nat): (m: seq<int>)
    ensures |m| == s
  {
    seq(s, j => if p < 0 then -1 else p * s + j)
  }

  lemma ShuffledElement(v: Vec, s: nat, p: int)
    requires Sized(v, s) && |BytesOf(v)| == 16 && p < |v|
    ensures ShuffleLane(BytesOf(v), MaskChunk(p, s)) == if p < 0 then Zero(s) else v[p]
  {
    if p >= 0 {
      BytesOfElement(v, s, p);
      ShuffledChunk(BytesOf(v), s, p, p * s);
    }
  }

  lemma ShuffledChunk(bs: seq<bv8>, s: nat, p: nat, start: nat)
    requires |bs| == 16 && start == p * s && start + s <= 16
    ensures ShuffleLane(bs, MaskChunk(p, s)) == bs[start..start + s]
  {
  }

  lemma ShuffleConcat(bs: seq<bv8>, m1: seq<int>, m2: seq<int>)
    requires |bs| == 16
    ensures ShuffleLane(bs, m1 + m2) == ShuffleLane(bs, m1) + ShuffleLane(bs, m2)
  {
  }

  /** The mask for one lane, element by element. */
  function LaneMask(places: seq<int>, s: nat): (m: seq<int>) {
    if places == [] then [] else LaneMask(places[..|places| - 1], s) + MaskChunk(places[|places| - 1], s)
  }

  function Placed(v: Vec, s: nat, places: seq<int>): (r: Vec)
    requires forall i :: 0 <= i < |places| ==> places[i] < |v|
    ensures |r| == |places|
  {
    seq(|places|, i requires 0 <= i < |places| => if places[i] < 0 then Zero(s) else v[places[i]])
  }

  /** A shuffle of the bytes of one lane with such a mask moves whole elements. */
  lemma {:induction false} ShuffledLane(v: Vec, s: nat, places: seq<int>)
    requires Sized(v, s) && |BytesOf(v)| == 16 && forall i :: 0 <= i < |places| ==> places[i] < |v|
    ensures ShuffleLane(BytesOf(v), LaneMask(places, s)) == BytesOf(Placed(v, s, places))
  {
    if places != [] {
      var k := |places| - 1;
      ShuffledLane(v, s, places[..k]);
      ShuffledElement(v, s, places[k]);
      ShuffleConcat(BytesOf(v), LaneMask(places[..k], s), MaskChunk(places[k], s));
      PlacedBytes(v, s, places);
    }
  }

  lemma PlacedBytes(v: Vec, s: nat, places: seq<int>)
    requires |places| > 0 && forall i :: 0 <= i < |places| ==> places[i] < |v|
    ensures var k := |places| - 1;
            BytesOf(Placed(v, s, places))
            == BytesOf(Placed(v, s, places[..k])) + (if places[k] < 0 then Zero(s) else v[places[k]])
  {
    var k, w := |places| - 1, Placed(v, s, places);
    assert w == Placed(v, s, places[..k]) + [w[k]];
    BytesConcat(Placed(v, s, places[..k]), [w[k]]);
    assert BytesOf([w[k]]) == w[k] + BytesOf([]);
  }
}
