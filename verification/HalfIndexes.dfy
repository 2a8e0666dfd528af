/** The index lists of half-size blends. */
module HalfIndexes {
  // What blend_half makes of its index list, and which lists are rejected at each level of the
  // emulation.

  import opened IndexLists

  // ----- the narrowest level, which the instruction set supports

  datatype Base = Vec2d | Vec4f | Vec4d | Vec8f {
    function Width(): nat {
      match this case Vec2d => 2 case Vec4f => 4 case Vec4d => 4 case Vec8f => 8
    }

    function ElementSize(): nat {
      match this case Vec2d => 8 case Vec4f => 4 case Vec4d => 8 case Vec8f => 4
    }

    predicate Supported(instrset: nat) {
      instrset >= 2 && (Vec4d? || Vec8f? ==> instrset >= 7)
    }
  }

  /** The width after a number of doublings. */
  function WidthAt(base: Base, levels: nat): (n: nat)
    ensures n >= 2
  {
    if levels == 0 then base.Width() else 2 * WidthAt(base, levels - 1)
  }

  // ----- which of the four half-size sources are used

  /** The numbers of the sources used, in order. */
  function SourcesUsed(used: seq<bool>, n: nat): (r: seq<int>)
    requires n <= |used|
    ensures |r| <= n
    ensures forall k :: 0 <= k < |r| ==> 0 <= r[k] < n && used[r[k]]
    ensures forall q :: 0 <= q < n && used[q] ==> q in r
  {
    if n == 0 then [] else
      var r := SourcesUsed(used, n - 1);
      if used[n - 1] then r + [n - 1] else r
  }

  predicate Increasing(r: seq<int>) {
    forall i, j :: 0 <= i < j < |r| ==> r[i] < r[j]
  }

  lemma {:induction false} SourcesInOrder(used: seq<bool>, n: nat)
    requires n <= |used|
    ensures Increasing(SourcesUsed(used, n))
  {
    if n > 0 {
      SourcesInOrder(used, n - 1);
      var r0 := SourcesUsed(used, n - 1);
      assert Increasing(r0 + [n - 1]);
    }
  }

  ghost function UsedFlags(ind: seq<int>, n: nat): (used: seq<bool>)
    requires n > 0
    ensures |used| == 4
  {
    seq(4, q => exists i :: 0 <= i < |ind| && ind[i] >= 0 && ind[i] / n % 4 == q)
  }

  /** The number of sources counted for a list; the count is taken modulo four sources. */
  ghost function CountedSources(ind: seq<int>, n: nat): (c: nat)
    requires n > 0
    ensures c <= 4
  {
    |SourcesUsed(UsedFlags(ind, n), 4)|
  }

  /** The list of sources, padded with zeros, and the number of sources. */
  method ListSources(n: nat, ind: seq<int>) returns (sources: seq<int>, nsrc: nat, ghost used: seq<bool>)
    requires n > 0
    ensures |used| == |sources| == 4 && nsrc == |SourcesUsed(used, 4)|
    ensures used == UsedFlags(ind, n)
    ensures forall q :: 0 <= q < 4 ==> (used[q] <==> exists i :: 0 <= i < |ind| && ind[i] >= 0 && ind[i] / n % 4 == q)
    ensures sources[..nsrc] == SourcesUsed(used, 4)
    ensures Increasing(sources[..nsrc])
    ensures forall k :: nsrc <= k < 4 ==> sources[k] == 0
  {
    var sourceUsed := new bool[4](_ => false);
    for i := 0 to |ind|
      invariant forall q :: 0 <= q < 4 ==>
        (sourceUsed[q] <==> exists k :: 0 <= k < i && ind[k] >= 0 && ind[k] / n % 4 == q)
    {
      var ix := ind[i];
      if ix >= 0 {
        var src := ix / n;
        sourceUsed[src % 4] := true;
      }
    }
    used := sourceUsed[..];
    sources, nsrc := FilterSources(sourceUsed);
    SourcesInOrder(used, 4);
  }

  method FilterSources(sourceUsed: array<bool>) returns (sources: seq<int>, nsrc: nat)
    requires sourceUsed.Length == 4
    ensures |sources| == 4 && nsrc == |SourcesUsed(sourceUsed[..], 4)|
    ensures sources[..nsrc] == SourcesUsed(sourceUsed[..], 4)
    ensures forall k :: nsrc <= k < 4 ==> sources[k] == 0
  {
    sources, nsrc := [0, 0, 0, 0], 0;
    for i := 0 to 4
      invariant |sources| == 4 && nsrc == |SourcesUsed(sourceUsed[..], i)|
      invariant sources[..nsrc] == SourcesUsed(sourceUsed[..], i)
      invariant forall k :: nsrc <= k < 4 ==> sources[k] == 0
    {
      if sourceUsed[i] {
        sources := sources[nsrc := i];
        nsrc := nsrc + 1;
      }
    }
  }

  // ----- indexes for a blend of two of the sources

  function HalfIndex(ix: int, n: nat, dozero: nat, src1: int, src2: int): int
    requires n > 0
  {
    var u := if dozero == 0 then V_DC else -1;
    if ix < 0 then (if dozero == 2 then ix else u)
    else if ix / n == src1 then ix % n
    else if ix / n == src2 then ix % n + n
    else u
  }

  method BlendHalfIndexes(a: seq<int>, dozero: nat, src1: int, src2: int) returns (r: seq<int>)
    requires |a| > 0
    ensures |r| == |a| && forall j :: 0 <= j < |a| ==> r[j] == HalfIndex(a[j], |a|, dozero, src1, src2)
    ensures forall j :: 0 <= j < |a| && a[j] < 0 ==>
      r[j] == if dozero == 0 then V_DC else if dozero == 1 then -1 else if dozero == 2 then a[j] else -1
    ensures forall j :: 0 <= j < |a| && a[j] >= 0 && a[j] / |a| != src1 && a[j] / |a| != src2 ==>
      r[j] == if dozero == 0 then V_DC else -1
  {
    var N := |a|;
    var list := new int[N];
    var u := if dozero == 0 then V_DC else -1;
    for j := 0 to N
      invariant forall k :: 0 <= k < j ==> list[k] == HalfIndex(a[k], N, dozero, src1, src2)
    {
      var ix := a[j];
      if ix < 0 {
        list[j] := if dozero == 2 then ix else u;
      } else {
        var src := ix / N;
        if src == src1 {
          list[j] := ix % N;
        } else if src == src2 {
          list[j] := ix % N + N;
        } else {
          list[j] := u;
        }
      }
    }
    r := list[..];
  }

  // ----- what happens to illegal indexes

  /** Emulated blends do not detect an index that is too large: it gives zero. */
  function Sanitized(idx: seq<int>, n: nat): (r: seq<int>)
    ensures |r| == |idx|
    ensures forall i :: 0 <= i < |idx| ==> r[i] == if ValidIndex(idx[i], n) then idx[i] else -1
  {
    seq(|idx|, i requires 0 <= i < |idx| => if ValidIndex(idx[i], n) then idx[i] else -1)
  }

  /** No negative index other than -1 and V_DC. */
  predicate NegativesLegal(idx: seq<int>) {
    forall i :: 0 <= i < |idx| && idx[i] < 0 ==> idx[i] == -1 || idx[i] == V_DC
  }

  lemma SanitizedInRange(idx: seq<int>, n: nat)
    requires InRange(idx, n)
    ensures Sanitized(idx, n) == idx
  {
  }

  /** Source number and place of an index. */
  lemma Quarter(ix: nat, n: nat)
    requires n > 0
    ensures ix < n ==> ix / n == 0 && ix % n == ix
    ensures n <= ix < 2 * n ==> ix / n == 1 && ix % n == ix - n
    ensures 2 * n <= ix < 3 * n ==> ix / n == 2 && ix % n == ix - 2 * n
    ensures 3 * n <= ix < 4 * n ==> ix / n == 3 && ix % n == ix - 3 * n
    ensures ix >= 4 * n ==> ix / n >= 4
    ensures ix % n < n
  {
    if ix < n { DivisionIsUnique(ix, 0, ix, n); }
    else if ix < 2 * n { DivisionIsUnique(ix, 1, ix - n, n); }
    else if ix < 3 * n { DivisionIsUnique(ix, 2, ix - 2 * n, n); }
    else if ix < 4 * n { DivisionIsUnique(ix, 3, ix - 3 * n, n); }
    else { LaneAndColumn(ix, n); LaneAndColumn(ix - 4 * n, n); }
  }

  lemma HalfIndexInRange(ind: seq<int>, L: seq<int>, dozero: nat, src1: int, src2: int)
    requires |ind| > 0 && |L| == |ind| && (dozero == 1 || dozero == 2)
    requires forall j :: 0 <= j < |ind| ==> L[j] == HalfIndex(ind[j], |ind|, dozero, src1, src2)
    ensures dozero == 1 || NegativesLegal(ind) <==> InRange(L, 2 * |ind|)
  {
    if dozero == 2 && !NegativesLegal(ind) {
      var j :| 0 <= j < |ind| && ind[j] < 0 && ind[j] != -1 && ind[j] != V_DC;
      assert !ValidIndex(L[j], 2 * |ind|);
    }
    forall j | 0 <= j < |ind| && (dozero == 1 || NegativesLegal(ind)) ensures ValidIndex(L[j], 2 * |ind|) {
      if ind[j] >= 0 { Quarter(ind[j], |ind|); }
    }
  }

  lemma SourceListed(ind: seq<int>, n: nat, used: seq<bool>, j: nat)
    requires n > 0 && |used| == 4 && j < |ind| && 0 <= ind[j] < 4 * n
    requires forall q :: 0 <= q < 4 ==> (used[q] <==> exists i :: 0 <= i < |ind| && ind[i] >= 0 && ind[i] / n % 4 == q)
    ensures ind[j] / n in SourcesUsed(used, 4)
  {
    Quarter(ind[j], n);
  }

  /** Two indexes use at most two sources, so that the second pass is never taken at this size. */
  lemma FewSources(ind: seq<int>, n: nat, used: seq<bool>)
    requires n > 0 && |ind| == 2 && |used| == 4
    requires forall q :: 0 <= q < 4 ==> (used[q] <==> exists i :: 0 <= i < |ind| && ind[i] >= 0 && ind[i] / n % 4 == q)
    ensures |SourcesUsed(used, 4)| <= 2
  {
    assert forall q :: 0 <= q < 4 && used[q] ==> ind[0] / n % 4 == q || ind[1] / n % 4 == q;
    assert |SourcesUsed(used, 1)| == if used[0] then 1 else 0;
    assert |SourcesUsed(used, 2)| == |SourcesUsed(used, 1)| + if used[1] then 1 else 0;
    assert |SourcesUsed(used, 3)| == |SourcesUsed(used, 2)| + if used[2] then 1 else 0;
  }

  /** All sources used are among those of the pass. */
  ghost predicate Covers(ind: seq<int>, n: nat, srcs: seq<int>)
    requires n > 0
  {
    forall j :: 0 <= j < |ind| && 0 <= ind[j] < 4 * n ==> ind[j] / n in srcs
  }

  lemma CoveredBy(ind: seq<int>, n: nat, sources: seq<int>, nsrc: nat, used: seq<bool>)
    requires n > 0 && |used| == |sources| == 4 && nsrc <= 4 && sources[..nsrc] == SourcesUsed(used, 4)
    requires forall q :: 0 <= q < 4 ==> (used[q] <==> exists i :: 0 <= i < |ind| && ind[i] >= 0 && ind[i] / n % 4 == q)
    ensures Covers(ind, n, sources)
    ensures nsrc <= 2 ==> Covers(ind, n, [sources[0], sources[1]])
    ensures nsrc == 0 ==> forall j :: 0 <= j < |ind| ==> !(0 <= ind[j] < 4 * n)
  {
    forall j | 0 <= j < |ind| && 0 <= ind[j] < 4 * n
      ensures ind[j] / n in sources && nsrc > 0 && (nsrc <= 2 ==> ind[j] / n in [sources[0], sources[1]])
    {
      SourceListed(ind, n, used, j);
      assert ind[j] / n in sources[..nsrc];
    }
  }
}
