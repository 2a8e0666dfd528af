/** One permutation of each vector of a blend. */
module BlendSplits {
  // blend_perm_indexes, and putting the two results together again.

  import opened IndexLists
  import opened Vectors
  import opened BitNumbers
  import opened Masks
  import BlendScan

  /** dozero = 0: unused elements can be anything, and the results must be merged under a mask.
      dozero = 1: unused elements are zero, and the results can be combined with OR.
      dozero = 2: the indexes -1 and V_DC are kept. */
  function Unused(dozero: nat): int {
    if dozero == 0 then V_DC else -1
  }

  function IndexForA(ix: int, n: nat, dozero: nat): int {
    if ix < 0 then (if dozero == 2 then ix else Unused(dozero)) else if ix < n then ix else Unused(dozero)
  }

  function IndexForB(ix: int, n: nat, dozero: nat): int {
    if ix < 0 then (if dozero == 2 then ix else Unused(dozero)) else if ix < n then Unused(dozero) else ix - n
  }

  /** blend_perm_indexes: the list for a, followed by the list for b. */
  method BlendPermIndexes(a: seq<int>, dozero: nat) returns (forA: seq<int>, forB: seq<int>)
    ensures |forA| == |forB| == |a|
    ensures forall j :: 0 <= j < |a| ==> forA[j] == IndexForA(a[j], |a|, dozero)
    ensures forall j :: 0 <= j < |a| ==> forB[j] == IndexForB(a[j], |a|, dozero)
    ensures forall j :: 0 <= j < |a| && a[j] >= 0 ==>
      (if a[j] < |a| then forA[j] == a[j] && forB[j] < 0 else forA[j] < 0 && forB[j] + |a| == a[j])
    ensures forall j :: 0 <= j < |a| && a[j] >= 0 ==>
      (if a[j] < |a| then forB[j] else forA[j]) == if dozero == 0 then V_DC else -1
    ensures forall j :: 0 <= j < |a| && a[j] < 0 ==>
      forA[j] == forB[j] == if dozero == 0 then V_DC else if dozero == 2 then a[j] else -1
  {
    var N := |a|;
    var list := new int[2 * N];
    var u := Unused(dozero);
    var j := 0;
    while j < N
      invariant 0 <= j <= N
      invariant forall k :: 0 <= k < j ==> list[k] == IndexForA(a[k], N, dozero)
      invariant forall k :: 0 <= k < j ==> list[N + k] == IndexForB(a[k], N, dozero)
    {
      var ix := a[j];
      if ix < 0 {
        if dozero == 2 {
          list[j] := ix;
          list[j + N] := ix;
        } else {
          list[j] := u;
          list[j + N] := u;
        }
      } else if ix < N {
        list[j] := ix;
        list[j + N] := u;
      } else {
        list[j] := u;
        list[j + N] := ix - N;
      }
      j := j + 1;
    }
    forA, forB := list[..N], list[N..];
    assert forall k :: 0 <= k < N ==> forB[k] == list[N + k];
  }

  lemma SplitInRange(a: seq<int>, forA: seq<int>, forB: seq<int>, dozero: nat)
    requires |forA| == |forB| == |a| && InRange(a, 2 * |a|)
    requires forall j :: 0 <= j < |a| ==> forA[j] == IndexForA(a[j], |a|, dozero)
    requires forall j :: 0 <= j < |a| ==> forB[j] == IndexForB(a[j], |a|, dozero)
    ensures InRange(forA, |a|) && InRange(forB, |a|)
  {
    forall j | 0 <= j < |a| ensures ValidIndex(forA[j], |a|) && ValidIndex(forB[j], |a|) {
      assert ValidIndex(a[j], 2 * |a|);
    }
  }

  /** With dozero = 1, the OR of the two permutations is the blend. */
  lemma OrIsBlend(idx: seq<int>, s: nat, a: Vec, b: Vec, forA: seq<int>, forB: seq<int>, ya: Vec, yb: Vec)
    requires |idx| == |a| == |b| == |forA| == |forB| && InRange(idx, 2 * |a|)
    requires forall j :: 0 <= j < |idx| ==> forA[j] == IndexForA(idx[j], |idx|, 1)
    requires forall j :: 0 <= j < |idx| ==> forB[j] == IndexForB(idx[j], |idx|, 1)
    requires Meets(forA, s, a, ya) && Meets(forB, s, b, yb)
    ensures Meets(idx, s, a + b, Or(ya, yb))
  {
    var y := Or(ya, yb);
    forall j | 0 <= j < |idx|
      ensures 0 <= idx[j] < |a + b| ==> y[j] == (a + b)[idx[j]]
      ensures idx[j] == -1 ==> y[j] == Zero(s)
    {
      assert ValidIndex(idx[j], 2 * |a|);
      OrWithZero(ya[j]);
      OrWithZero(yb[j]);
    }
  }

  /** A bit mask that collects the bit for n selects the elements that come from b. */
  ghost predicate SelectsB(idx: seq<int>, n: nat, m: Mask) {
    |m| == |idx| && forall i :: 0 <= i < |idx| && idx[i] >= 0 ==> (m[i] <==> idx[i] >= n)
  }

  /** Bit number k, for n = 2^k, not inverted in either half. */
  lemma CollectsSource(idx: seq<int>, k: nat, b: nat, m: Mask)
    requires |idx| == Pow2(k) && InRange(idx, 2 * Pow2(k)) && b % 256 == k && FlagBit(b, 8) && FlagBit(b, 9)
    requires |m| == |idx| && forall i :: 0 <= i < |idx| ==> m[i] == CollectedBit(idx[i], i < |idx| / 2, b)
    ensures SelectsB(idx, Pow2(k), m)
  {
    forall i | 0 <= i < |idx| && idx[i] >= 0 ensures m[i] <==> idx[i] >= Pow2(k) {
      assert ValidIndex(idx[i], 2 * Pow2(k));
      TopBit(idx[i], k);
    }
  }

  /** With dozero = 0, the two permutations can be merged under such a mask. */
  lemma MergeIsBlend(idx: seq<int>, a: Vec, b: Vec, forA: seq<int>, forB: seq<int>, ya: Vec, yb: Vec, m: Mask)
    requires |idx| == |a| == |b| == |forA| == |forB| && SelectsB(idx, |a|, m)
    requires forall j :: 0 <= j < |idx| ==> forA[j] == IndexForA(idx[j], |idx|, 0)
    requires forall j :: 0 <= j < |idx| ==> forB[j] == IndexForB(idx[j], |idx|, 0)
    requires Routed(forA, a, ya) && Routed(forB, b, yb)
    ensures Routed(idx, a + b, MaskMov(m, ya, yb))
  {
    var y := MaskMov(m, ya, yb);
    forall j | 0 <= j < |idx| && 0 <= idx[j] < |a + b| ensures y[j] == (a + b)[idx[j]] {
      assert forA[j] == IndexForA(idx[j], |idx|, 0) && forB[j] == IndexForB(idx[j], |idx|, 0);
    }
  }

  /** A blend that uses only one source is a permutation of that source. */
  lemma OnlyA(idx: seq<int>, s: nat, a: Vec, b: Vec, y: Vec)
    requires |a| == |b| && Meets(idx, s, a, y) && InRange(idx, |a|)
    ensures Meets(idx, s, a + b, y)
  {
    assert forall i :: 0 <= i < |idx| ==> ValidIndex(idx[i], |a|);
  }

  lemma OnlyB(idx: seq<int>, forB: seq<int>, s: nat, a: Vec, b: Vec, y: Vec)
    requires |a| == |b| && |forB| == |idx| && Meets(forB, s, b, y)
    requires forall i :: 0 <= i < |idx| ==> if idx[i] < 0 then forB[i] == idx[i] else forB[i] == idx[i] - |a| >= 0
    ensures Meets(idx, s, a + b, y)
  {
  }

  /** i < 0 ? i : i & (n-1) */
  method OnlyIndexes(idx: seq<int>) returns (forB: seq<int>)
    requires InRange(idx, 2 * |idx|) && !BlendScan.UsesA(idx, |idx|)
    ensures |forB| == |idx| && InRange(forB, |idx|)
    ensures forall i :: 0 <= i < |idx| ==> if idx[i] < 0 then forB[i] == idx[i] else forB[i] == idx[i] - |idx| >= 0
  {
    var n := |idx|;
    forB := seq(n, i requires 0 <= i < n => if idx[i] < 0 then idx[i] else idx[i] % n);
    forall i | 0 <= i < n
      ensures ValidIndex(forB[i], n)
      ensures if idx[i] < 0 then forB[i] == idx[i] else forB[i] == idx[i] - n >= 0
    {
      assert ValidIndex(idx[i], 2 * n);
      if idx[i] >= 0 {
        DivisionIsUnique(idx[i], 1, idx[i] - n, n);
      }
    }
  }
}
