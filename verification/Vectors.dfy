/** Vector registers. An element is a string of bytes, lowest byte first; a vector is a
    sequence of elements of the same size. */
module Vectors {
  import opened IndexLists

  type Elem = seq<bv8>
  type Vec = seq<Elem>

  predicate Sized(v: Vec, s: nat) {
    forall i :: 0 <= i < |v| ==> |v[i]| == s
  }

  function Zero(s: nat): (e: Elem)
    ensures |e| == s
  {
    seq(s, _ => 0)
  }

  function Ones(s: nat): (e: Elem)
    ensures |e| == s
  {
    seq(s, _ => 0xFF)
  }

  lemma ZerosAndOnes(s: nat, k: nat)
    requires k < s
    ensures Zero(s)[k] == 0 && Ones(s)[k] == 0xFF
  {
  }

  function ZeroVec(n: nat, s: nat): (v: Vec)
    ensures |v| == n && Sized(v, s)
  {
    seq(n, _ => Zero(s))
  }

  function OrElem(x: Elem, y: Elem): (e: Elem)
    requires |x| == |y|
    ensures |e| == |x|
  {
    seq(|x|, k requires 0 <= k < |x| => x[k] | y[k])
  }

  function AndElem(x: Elem, y: Elem): (e: Elem)
    requires |x| == |y|
    ensures |e| == |x|
  {
    seq(|x|, k requires 0 <= k < |x| => x[k] & y[k])
  }

  lemma OrWithZero(x: Elem)
    ensures OrElem(x, Zero(|x|)) == x && OrElem(Zero(|x|), x) == x
  {
  }

  lemma OrWithSelf(x: Elem)
    ensures OrElem(x, x) == x
  {
  }

  lemma AndWithMask(x: Elem)
    ensures AndElem(Ones(|x|), x) == x && AndElem(Zero(|x|), x) == Zero(|x|)
  {
  }

  function Or(v: Vec, w: Vec): (r: Vec)
    requires |v| == |w| && forall i :: 0 <= i < |v| ==> |v[i]| == |w[i]|
    ensures |r| == |v|
  {
    seq(|v|, i requires 0 <= i < |v| => OrElem(v[i], w[i]))
  }

  function And(v: Vec, w: Vec): (r: Vec)
    requires |v| == |w| && forall i :: 0 <= i < |v| ==> |v[i]| == |w[i]|
    ensures |r| == |v|
  {
    seq(|v|, i requires 0 <= i < |v| => AndElem(v[i], w[i]))
  }

  // ----- the specification of permute and blend functions

  /** Every element asked for is there. The source of a blend is the first vector followed by
      the second. */
  predicate Routed(idx: seq<int>, src: Vec, y: Vec) {
    && |y| == |idx|
    && forall i :: 0 <= i < |idx| && 0 <= idx[i] < |src| ==> y[i] == src[idx[i]]
  }

  /** Every element to be zeroed is zero. */
  predicate Zeroed(idx: seq<int>, s: nat, y: Vec) {
    && |y| == |idx|
    && forall i :: 0 <= i < |idx| && idx[i] == -1 ==> y[i] == Zero(s)
  }

  /** Vector y is what the index list asks for; the V_DC elements can have any value. */
  predicate Meets(idx: seq<int>, s: nat, src: Vec, y: Vec) {
    Sized(y, s) && Routed(idx, src, y) && Zeroed(idx, s, y)
  }

  // ----- casting to elements of double size and back

  function Paired(v: Vec): (r: Vec)
    requires |v| % 2 == 0
    ensures |r| == |v| / 2
    ensures forall i :: 0 <= i < |r| ==> r[i] == v[2 * i] + v[2 * i + 1]
  {
    seq(|v| / 2, i requires 0 <= i < |v| / 2 => v[2 * i] + v[2 * i + 1])
  }

  function Split(v: Vec, s: nat): (r: Vec)
    requires Sized(v, 2 * s)
    ensures |r| == 2 * |v| && Sized(r, s)
    ensures forall i :: 0 <= i < |v| ==> r[2 * i] == v[i][..s] && r[2 * i + 1] == v[i][s..]
  {
    seq(2 * |v|, i requires 0 <= i < 2 * |v| => if i % 2 == 0 then v[i / 2][..s] else v[i / 2][s..])
  }

  lemma PairHalves(x: Elem, y: Elem)
    ensures (x + y)[..|x|] == x && (x + y)[|x|..] == y
  {
  }

  lemma PairedZero(s: nat)
    ensures Zero(2 * s)[..s] == Zero(s) && Zero(2 * s)[s..] == Zero(s)
  {
  }
}
