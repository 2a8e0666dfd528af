/** Which lists the emulated blends reject. */
module HalfRejections {
  // A list in range is never rejected, and an index that is too large is not noticed above the
  // supported width. An illegal negative index is noticed only if it gets down to the supported
  // width: wherever more than two sources are used, two passes are made, and these set every
  // negative index to -1.

  import opened IndexLists
  import opened HalfIndexes

  /** A negative index other than -1 and V_DC. */
  predicate Illegal(ix: int) {
    ix < 0 && ix != -1 && ix != V_DC
  }

  /** The first place of the piece of n places that holds place j. */
  function Piece(j: nat, n: nat): int
    requires n > 0
  {
    j - Column(j, n)
  }

  predicate Within(ix: int, bound: nat) {
    0 <= ix < bound
  }

  /** Of three indexes that are in range, two are in the same block of n source elements. */
  predicate TwoShare(x: int, y: int, z: int, n: nat, bound: nat)
    requires n > 0
  {
    Within(x, bound) && Within(y, bound) && Within(z, bound) ==>
      Lane(x, n) == Lane(y, n) || Lane(y, n) == Lane(z, n) || Lane(x, n) == Lane(z, n)
  }

  /** The n places from lo on use at most two blocks of n source elements. */
  ghost predicate FewBlocks(ind: seq<int>, lo: int, n: nat, bound: nat)
    requires 0 <= lo <= lo + n <= |ind| && n > 0
  {
    forall i, j, k :: lo <= i < lo + n && lo <= j < lo + n && lo <= k < lo + n ==>
      TwoShare(ind[i], ind[j], ind[k], n, bound)
  }

  /** Each narrower piece around place j uses at most two blocks of its own size. */
  ghost predicate NarrowAround(base: Base, k: nat, ind: seq<int>, j: nat)
    requires |ind| == WidthAt(base, k) && j < |ind|
  {
    forall m :: 0 <= m < k ==> NarrowAt(base, m, k, ind, j)
  }

  ghost predicate NarrowAt(base: Base, m: nat, k: nat, ind: seq<int>, j: nat)
    requires |ind| == WidthAt(base, k) && j < |ind|
  {
    PieceFits(base, m, k, j) && FewBlocks(ind, Piece(j, WidthAt(base, m)), WidthAt(base, m), 4 * |ind|)
  }

  predicate PieceFits(base: Base, m: nat, k: nat, j: nat) {
    0 <= Piece(j, WidthAt(base, m)) <= Piece(j, WidthAt(base, m)) + WidthAt(base, m) <= WidthAt(base, k)
  }

  /** A half is rejected if and only if there is an illegal index, at most two sources are counted
      for the whole half, and every narrower piece around the illegal index uses at most two
      blocks. */
  ghost predicate HalfRejected(base: Base, k: nat, ind: seq<int>)
    requires |ind| == WidthAt(base, k)
  {
    CountedSources(ind, |ind|) <= 2 && IllegalBetween(base, k, ind, 0, |ind|)
  }

  ghost predicate IllegalBetween(base: Base, k: nat, ind: seq<int>, lo: int, hi: int)
    requires |ind| == WidthAt(base, k) && 0 <= lo <= hi <= |ind|
  {
    exists j :: lo <= j < hi && Illegal(ind[j]) && NarrowAround(base, k, ind, j)
  }

  /** A blend is rejected at the supported width if its list is out of range, and above that if
      one of its halves is rejected. */
  ghost predicate Rejected(base: Base, levels: nat, idx: seq<int>)
    requires |idx| == WidthAt(base, levels)
  {
    if levels == 0 then !InRange(idx, 2 * |idx|)
    else HalfRejected(base, levels - 1, idx[..|idx| / 2]) || HalfRejected(base, levels - 1, idx[|idx| / 2..])
  }

  /** A permute is rejected if one of the two blends that it is made of is rejected. */
  ghost predicate PermuteRejected(base: Base, levels: nat, idx: seq<int>)
    requires levels > 0 && |idx| == WidthAt(base, levels)
  {
    Rejected(base, levels - 1, idx[..|idx| / 2]) || Rejected(base, levels - 1, idx[|idx| / 2..])
  }

  lemma HalvesInRange(idx: seq<int>, n: nat)
    requires |idx| == 2 * n && InRange(idx, |idx|)
    ensures InRange(idx[..n], |idx|) && InRange(idx[n..], |idx|)
    ensures NegativesLegal(idx[..n]) && NegativesLegal(idx[n..])
  {
    forall i | 0 <= i < n ensures ValidIndex(idx[..n][i], |idx|) && ValidIndex(idx[n..][i], |idx|) {
      assert ValidIndex(idx[i], |idx|) && ValidIndex(idx[n + i], |idx|);
    }
  }

  lemma InRangeAccepted(base: Base, levels: nat, idx: seq<int>)
    requires levels > 0 && |idx| == WidthAt(base, levels) && InRange(idx, |idx|)
    ensures !PermuteRejected(base, levels, idx)
  {
    var n := |idx| / 2;
    HalvesInRange(idx, n);
    LegalAccepted(base, levels - 1, idx[..n]);
    LegalAccepted(base, levels - 1, idx[n..]);
  }

  /** One level above the supported width, a permute rejects exactly the lists out of range. */
  lemma PermuteOneUp(base: Base, idx: seq<int>)
    requires |idx| == WidthAt(base, 1)
    ensures PermuteRejected(base, 1, idx) <==> !InRange(idx, |idx|)
  {
    var n := |idx| / 2;
    if InRange(idx, |idx|) {
      InRangeAccepted(base, 1, idx);
    } else {
      var i :| 0 <= i < |idx| && !ValidIndex(idx[i], |idx|);
      assert if i < n then idx[..n][i] == idx[i] else idx[n..][i - n] == idx[i];
    }
  }

  /** Two lists with the same illegal index, for eight elements made of two times four: with two
      sources in its half it is noticed, with three it is not. */
  lemma OneRejectedOneAccepted()
    ensures Rejected(Vec4f, 1, [-5, 0, 4, -1, 0, 1, 2, 3])
    ensures !Rejected(Vec4f, 1, [-5, 0, 4, 8, 0, 1, 2, 3])
  {
    var idx, idy := [-5, 0, 4, -1, 0, 1, 2, 3], [-5, 0, 4, 8, 0, 1, 2, 3];
    TwoSourcesNoticed(idx[..4]);
    ThreeSourcesUnnoticed(idy[..4]);
    assert idy[4..] == [0, 1, 2, 3];
  }

  /** An index that is too large is counted modulo four sources: 16 / 4 counts as source 0. */
  lemma TooLargeIsCounted(g: seq<int>)
    requires g == [-5, 0, 4, 16]
    ensures CountedSources(g, 4) == 2 && HalfRejected(Vec4f, 0, g)
  {
    CountIs(g, 4);
    assert g[1] / 4 % 4 == 0 && g[2] / 4 % 4 == 1 && g[3] / 4 % 4 == 0;
    assert Illegal(g[0]) && NarrowAround(Vec4f, 0, g, 0);
  }

  lemma TwoSourcesNoticed(g: seq<int>)
    requires g == [-5, 0, 4, -1]
    ensures HalfRejected(Vec4f, 0, g)
  {
    CountIs(g, 4);
    assert forall i :: 0 <= i < 4 && g[i] >= 0 ==> g[i] / 4 % 4 < 2;
    assert Illegal(g[0]) && NarrowAround(Vec4f, 0, g, 0);
  }

  lemma ThreeSourcesUnnoticed(g: seq<int>)
    requires g == [-5, 0, 4, 8]
    ensures !HalfRejected(Vec4f, 0, g)
  {
    CountIs(g, 4);
    assert g[1] / 4 % 4 == 0 && g[2] / 4 % 4 == 1 && g[3] / 4 % 4 == 2;
  }

  lemma LegalAccepted(base: Base, levels: nat, idx: seq<int>)
    requires |idx| == WidthAt(base, levels) && if levels == 0 then InRange(idx, 2 * |idx|) else NegativesLegal(idx)
    ensures !Rejected(base, levels, idx)
  {
  }

  // ----- blocks and pieces of different sizes

  lemma OneWider(x: nat, w: nat)
    requires w > 0
    ensures Lane(x + w, w) == Lane(x, w) + 1 && Column(x + w, w) == Column(x, w)
    ensures Lane(w, w) == 1
  {
    assert Lane(0, w) == 0 && Lane(w, w) == 1 + Lane(0, w);
  }

  lemma {:induction false} WiderLane(base: Base, m: nat, k: nat, x: nat)
    requires m <= k
    ensures var w, n := WidthAt(base, m), WidthAt(base, k); Lane(x + n, w) == Lane(x, w) + Lane(n, w)
  {
    if m < k {
      var h := WidthAt(base, k - 1);
      assert WidthAt(base, k) == h + h && x + WidthAt(base, k) == (x + h) + h;
      WiderLane(base, m, k - 1, x + h);
      WiderLane(base, m, k - 1, x);
      WiderLane(base, m, k - 1, h);
    } else {
      OneWider(x, WidthAt(base, m));
    }
  }

  lemma {:induction false} SameColumn(base: Base, m: nat, k: nat, x: nat)
    requires m <= k
    ensures Column(x + WidthAt(base, k), WidthAt(base, m)) == Column(x, WidthAt(base, m))
  {
    if m < k {
      var h := WidthAt(base, k - 1);
      assert x + WidthAt(base, k) == (x + h) + h;
      SameColumn(base, m, k - 1, x + h);
      SameColumn(base, m, k - 1, x);
    } else {
      OneWider(x, WidthAt(base, m));
    }
  }

  lemma {:induction false} LaneBelow(base: Base, m: nat, k: nat, x: nat)
    requires m <= k && x < WidthAt(base, k)
    ensures Lane(x, WidthAt(base, m)) < Lane(WidthAt(base, k), WidthAt(base, m))
  {
    var w := WidthAt(base, m);
    if m < k {
      var h := WidthAt(base, k - 1);
      WiderLane(base, m, k - 1, h);
      if x < h {
        LaneBelow(base, m, k - 1, x);
      } else {
        LaneBelow(base, m, k - 1, x - h);
        WiderLane(base, m, k - 1, x - h);
      }
    } else {
      OneWider(0, w);
    }
  }

  lemma {:induction false} PieceBelow(base: Base, m: nat, k: nat, x: nat)
    requires m <= k && x < WidthAt(base, k)
    ensures PieceFits(base, m, k, x)
  {
    if m < k {
      var h := WidthAt(base, k - 1);
      if x < h {
        PieceBelow(base, m, k - 1, x);
      } else {
        PieceBelow(base, m, k - 1, x - h);
        SameColumn(base, m, k - 1, x - h);
      }
    }
  }

  /** The block of an index, found from its source and its place in the source. */
  lemma BlockInSource(base: Base, m: nat, k: nat, ix: nat)
    requires m <= k && ix < 4 * WidthAt(base, k)
    ensures var n, w := WidthAt(base, k), WidthAt(base, m);
      0 <= ix / n < 4 && ix % n < n && Lane(ix % n, w) < Lane(n, w)
      && Lane(ix, w) == BlockAt(ix / n, Lane(n, w), Lane(ix % n, w))
  {
    var n := WidthAt(base, k);
    Quarter(ix, n);
    LaneBelow(base, m, k, ix % n);
    FourSources(base, m, k, ix % n);
  }

  function BlockAt(source: int, perSource: nat, block: nat): nat {
    block + if source == 0 then 0 else if source == 1 then perSource
            else if source == 2 then 2 * perSource else 3 * perSource
  }

  lemma FourSources(base: Base, m: nat, k: nat, r: nat)
    requires m <= k
    ensures var n, w := WidthAt(base, k), WidthAt(base, m);
      && Lane(r + n, w) == BlockAt(1, Lane(n, w), Lane(r, w))
      && Lane(r + 2 * n, w) == BlockAt(2, Lane(n, w), Lane(r, w))
      && Lane(r + 3 * n, w) == BlockAt(3, Lane(n, w), Lane(r, w))
  {
    var n := WidthAt(base, k);
    WiderLane(base, m, k, r);
    WiderLane(base, m, k, r + n);
    WiderLane(base, m, k, r + 2 * n);
    assert r + 3 * n == (r + 2 * n) + n && r + 2 * n == (r + n) + n;
  }

  // ----- the list for the first two sources

  /** The list M is what blend_half makes of ind for sources src1 and src2, keeping the negative
      indexes. No other source is used. */
  ghost predicate Narrowed(ind: seq<int>, M: seq<int>, src1: int, src2: int) {
    && |ind| == |M| > 0 && 0 <= src1 < 4 && 0 <= src2 < 4
    && (forall j :: 0 <= j < |ind| ==> M[j] == HalfIndex(ind[j], |ind|, 2, src1, src2))
    && Covers(ind, |ind|, [src1, src2])
  }

  lemma NarrowedElement(ind: seq<int>, M: seq<int>, src1: int, src2: int, i: nat)
    requires Narrowed(ind, M, src1, src2) && i < |ind|
    ensures Illegal(M[i]) <==> Illegal(ind[i])
    ensures M[i] < 2 * |ind|
    ensures Within(M[i], 2 * |ind|) <==> Within(ind[i], 4 * |ind|)
    ensures Within(ind[i], 4 * |ind|) ==> ind[i] / |ind| == src1 || ind[i] / |ind| == src2
    ensures Within(ind[i], 4 * |ind|) ==> M[i] == ind[i] % |ind| + if ind[i] / |ind| == src1 then 0 else |ind|
  {
    if ind[i] >= 0 { Quarter(ind[i], |ind|); }
  }

  /** Indexes are in the same block after the change if and only if they were before. */
  lemma SameBlock(base: Base, m: nat, k: nat, ind: seq<int>, M: seq<int>, src1: int, src2: int, i: nat, j: nat)
    requires m <= k && |ind| == WidthAt(base, k) && Narrowed(ind, M, src1, src2) && i < |ind| && j < |ind|
    requires Within(ind[i], 4 * |ind|) && Within(ind[j], 4 * |ind|)
    ensures Within(M[i], 2 * |ind|) && Within(M[j], 2 * |ind|)
    ensures var w := WidthAt(base, m); Lane(M[i], w) == Lane(M[j], w) <==> Lane(ind[i], w) == Lane(ind[j], w)
  {
    NarrowedBlock(base, m, k, ind, M, src1, src2, i);
    NarrowedBlock(base, m, k, ind, M, src1, src2, j);
    BlockInSource(base, m, k, ind[i]);
    BlockInSource(base, m, k, ind[j]);
  }

  lemma NarrowedBlock(base: Base, m: nat, k: nat, ind: seq<int>, M: seq<int>, src1: int, src2: int, i: nat)
    requires m <= k && |ind| == WidthAt(base, k) && Narrowed(ind, M, src1, src2) && i < |ind|
    requires Within(ind[i], 4 * |ind|)
    ensures var n, w := WidthAt(base, k), WidthAt(base, m);
      Within(M[i], 2 * n) && (ind[i] / n == src1 || ind[i] / n == src2)
      && Lane(M[i], w) == Lane(ind[i] % n, w) + if ind[i] / n == src1 then 0 else Lane(n, w)
  {
    NarrowedElement(ind, M, src1, src2, i);
    WiderLane(base, m, k, ind[i] % |ind|);
  }

  /** The list is the part of M from off on. */
  ghost predicate IsPart(half: seq<int>, M: seq<int>, off: nat) {
    off + |half| <= |M| && forall i :: 0 <= i < |half| ==> half[i] == M[off + i]
  }

  /** So the pieces of each half of the new list use few blocks if and only if those of ind do. */
  lemma SamePiece(base: Base, m: nat, k: nat, ind: seq<int>, M: seq<int>, src1: int, src2: int,
                  half: seq<int>, off: nat, lo: nat)
    requires m <= k && |ind| == WidthAt(base, k) == 2 * |half| && Narrowed(ind, M, src1, src2)
    requires IsPart(half, M, off) && lo + WidthAt(base, m) <= |half|
    ensures var w := WidthAt(base, m); FewBlocks(half, lo, w, 4 * |half|) <==> FewBlocks(ind, off + lo, w, 4 * |ind|)
  {
    if FewBlocks(half, lo, WidthAt(base, m), 4 * |half|) {
      PieceOfWhole(base, m, k, ind, M, src1, src2, half, off, lo);
    }
    if FewBlocks(ind, off + lo, WidthAt(base, m), 4 * |ind|) {
      PieceOfPart(base, m, k, ind, M, src1, src2, half, off, lo);
    }
  }

  lemma PieceOfPart(base: Base, m: nat, k: nat, ind: seq<int>, M: seq<int>, src1: int, src2: int,
                    half: seq<int>, off: nat, lo: nat)
    requires m <= k && |ind| == WidthAt(base, k) == 2 * |half| && Narrowed(ind, M, src1, src2)
    requires IsPart(half, M, off) && lo + WidthAt(base, m) <= |half|
    requires FewBlocks(ind, off + lo, WidthAt(base, m), 4 * |ind|)
    ensures FewBlocks(half, lo, WidthAt(base, m), 4 * |half|)
  {
    var w := WidthAt(base, m);
    forall x, y, z | lo <= x < lo + w && lo <= y < lo + w && lo <= z < lo + w
      ensures TwoShare(half[x], half[y], half[z], w, 4 * |half|)
    {
      var p, q, r := off + x, off + y, off + z;
      SameShare(base, m, k, ind, M, src1, src2, p, q, r);
      assert TwoShare(ind[p], ind[q], ind[r], w, 4 * |ind|);
    }
  }

  lemma PieceOfWhole(base: Base, m: nat, k: nat, ind: seq<int>, M: seq<int>, src1: int, src2: int,
                     half: seq<int>, off: nat, lo: nat)
    requires m <= k && |ind| == WidthAt(base, k) == 2 * |half| && Narrowed(ind, M, src1, src2)
    requires IsPart(half, M, off) && lo + WidthAt(base, m) <= |half|
    requires FewBlocks(half, lo, WidthAt(base, m), 4 * |half|)
    ensures FewBlocks(ind, off + lo, WidthAt(base, m), 4 * |ind|)
  {
    var w := WidthAt(base, m);
    forall x, y, z | off + lo <= x < off + lo + w && off + lo <= y < off + lo + w && off + lo <= z < off + lo + w
      ensures TwoShare(ind[x], ind[y], ind[z], w, 4 * |ind|)
    {
      SameShare(base, m, k, ind, M, src1, src2, x, y, z);
      assert TwoShare(half[x - off], half[y - off], half[z - off], w, 4 * |half|);
    }
  }

  lemma SameShare(base: Base, m: nat, k: nat, ind: seq<int>, M: seq<int>, src1: int, src2: int, x: nat, y: nat, z: nat)
    requires m <= k && |ind| == WidthAt(base, k) && Narrowed(ind, M, src1, src2) && x < |ind| && y < |ind| && z < |ind|
    ensures var w := WidthAt(base, m);
      TwoShare(M[x], M[y], M[z], w, 2 * |ind|) <==> TwoShare(ind[x], ind[y], ind[z], w, 4 * |ind|)
  {
    NarrowedElement(ind, M, src1, src2, x);
    NarrowedElement(ind, M, src1, src2, y);
    NarrowedElement(ind, M, src1, src2, z);
    if Within(ind[x], 4 * |ind|) && Within(ind[y], 4 * |ind|) && Within(ind[z], 4 * |ind|) {
      SameBlock(base, m, k, ind, M, src1, src2, x, y);
      SameBlock(base, m, k, ind, M, src1, src2, y, z);
      SameBlock(base, m, k, ind, M, src1, src2, x, z);
    }
  }

  // ----- counting sources

  ghost predicate UsesSource(ind: seq<int>, n: nat, q: int)
    requires n > 0
  {
    exists i :: 0 <= i < |ind| && ind[i] >= 0 && ind[i] / n % 4 == q
  }

  lemma CountIs(ind: seq<int>, n: nat)
    requires n > 0
    ensures CountedSources(ind, n)
      == (if UsesSource(ind, n, 0) then 1 else 0) + (if UsesSource(ind, n, 1) then 1 else 0)
       + (if UsesSource(ind, n, 2) then 1 else 0) + (if UsesSource(ind, n, 3) then 1 else 0)
  {
    var used := UsedFlags(ind, n);
    assert used[0] == UsesSource(ind, n, 0) && used[1] == UsesSource(ind, n, 1);
    assert used[2] == UsesSource(ind, n, 2) && used[3] == UsesSource(ind, n, 3);
    assert |SourcesUsed(used, 1)| == if used[0] then 1 else 0;
    assert |SourcesUsed(used, 2)| == |SourcesUsed(used, 1)| + if used[1] then 1 else 0;
    assert |SourcesUsed(used, 3)| == |SourcesUsed(used, 2)| + if used[2] then 1 else 0;
  }

  /** For a list without indexes that are too large, the count is that of the blocks used. */
  lemma CountsBlocks(M: seq<int>, h: nat)
    requires |M| == h > 0 && forall i :: 0 <= i < h ==> M[i] < 4 * h
    ensures CountedSources(M, h) <= 2 <==> FewBlocks(M, 0, h, 4 * h)
  {
    if CountedSources(M, h) <= 2 {
      forall i, j, k | 0 <= i < h && 0 <= j < h && 0 <= k < h ensures TwoShare(M[i], M[j], M[k], h, 4 * h) {
        NotThree(M, h, i, j, k);
      }
    } else {
      ThreeSources(M, h);
    }
  }

  lemma NotThree(M: seq<int>, h: nat, i: nat, j: nat, k: nat)
    requires |M| == h > 0 && i < h && j < h && k < h && CountedSources(M, h) <= 2
    ensures TwoShare(M[i], M[j], M[k], h, 4 * h)
  {
    CountIs(M, h);
    if Within(M[i], 4 * h) && Within(M[j], 4 * h) && Within(M[k], 4 * h) {
      SourceOf(M, h, i);
      SourceOf(M, h, j);
      SourceOf(M, h, k);
    }
  }

  lemma SourceOf(M: seq<int>, h: nat, i: nat)
    requires |M| == h > 0 && i < h && Within(M[i], 4 * h)
    ensures Lane(M[i], h) < 4 && UsesSource(M, h, Lane(M[i], h))
  {
    LaneAndColumn(M[i], h);
    Quarter(M[i], h);
    assert M[i] / h % 4 == Lane(M[i], h);
  }

  lemma ThreeSources(M: seq<int>, h: nat)
    requires |M| == h > 0 && (forall i :: 0 <= i < h ==> M[i] < 4 * h)
    requires CountedSources(M, h) > 2
    ensures exists i, j, k :: 0 <= i < h && 0 <= j < h && 0 <= k < h && !TwoShare(M[i], M[j], M[k], h, 4 * h)
  {
    CountIs(M, h);
    var p := if UsesSource(M, h, 0) then 0 else 1;
    var q := if p == 0 && UsesSource(M, h, 1) then 1 else 2;
    var r := if q == 1 && UsesSource(M, h, 2) then 2 else 3;
    var i, j, k := PlaceFrom(M, h, p), PlaceFrom(M, h, q), PlaceFrom(M, h, r);
    assert !TwoShare(M[i], M[j], M[k], h, 4 * h);
  }

  /** A place that uses source q. */
  ghost function PlaceFrom(M: seq<int>, h: nat, q: int): (i: nat)
    requires |M| == h > 0 && (forall i :: 0 <= i < h ==> M[i] < 4 * h) && UsesSource(M, h, q)
    ensures i < h && Within(M[i], 4 * h) && Lane(M[i], h) == q
  {
    var i :| 0 <= i < |M| && M[i] >= 0 && M[i] / h % 4 == q;
    LaneAndColumn(M[i], h);
    Quarter(M[i], h);
    i
  }

  // ----- one level

  /** At the supported width. */
  lemma RejectedAtBase(base: Base, ind: seq<int>, M: seq<int>, src1: int, src2: int)
    requires |ind| == WidthAt(base, 0) && Narrowed(ind, M, src1, src2)
    ensures HalfRejected(base, 0, ind) <==> CountedSources(ind, |ind|) <= 2 && Rejected(base, 0, M)
  {
    forall j | 0 <= j < |ind| ensures Illegal(ind[j]) <==> !ValidIndex(M[j], 2 * |M|) {
      NarrowedElement(ind, M, src1, src2, j);
    }
  }

  lemma ShiftedPiece(base: Base, m: nat, k: nat, off: nat, j: nat)
    requires m < k && (off == 0 || off == WidthAt(base, k - 1)) && j < WidthAt(base, k - 1)
    ensures PieceFits(base, m, k, off + j) && PieceFits(base, m, k - 1, j)
    ensures Piece(off + j, WidthAt(base, m)) == off + Piece(j, WidthAt(base, m))
  {
    PieceBelow(base, m, k, off + j);
    PieceBelow(base, m, k - 1, j);
    SameColumn(base, m, k - 1, j);
  }

  /** The half of the new list that begins at off. */
  ghost predicate HalfOf(base: Base, k: nat, ind: seq<int>, M: seq<int>, src1: int, src2: int, half: seq<int>,
                         off: nat) {
    && k > 0 && |ind| == WidthAt(base, k) && Narrowed(ind, M, src1, src2)
    && IsPart(half, M, off) && |half| == WidthAt(base, k - 1) && (off == 0 || off == |half|)
  }

  lemma SameNarrow(base: Base, m: nat, k: nat, ind: seq<int>, M: seq<int>, src1: int, src2: int,
                   half: seq<int>, off: nat, j: nat, p: nat)
    requires HalfOf(base, k, ind, M, src1, src2, half, off) && m < k && j < |half| && p == off + j
    ensures NarrowAt(base, m, k, ind, p) <==> NarrowAt(base, m, k - 1, half, j)
  {
    ShiftedPiece(base, m, k, off, j);
    var lo := Piece(j, WidthAt(base, m));
    SamePiece(base, m, k, ind, M, src1, src2, half, off, lo);
    assert Piece(p, WidthAt(base, m)) == off + lo;
  }

  lemma PartBelow(ind: seq<int>, M: seq<int>, src1: int, src2: int, half: seq<int>, off: nat)
    requires Narrowed(ind, M, src1, src2) && IsPart(half, M, off) && |ind| == 2 * |half|
    ensures forall i :: 0 <= i < |half| ==> half[i] < 4 * |half|
  {
    forall i | 0 <= i < |half| ensures half[i] < 4 * |half| {
      NarrowedElement(ind, M, src1, src2, off + i);
    }
  }

  lemma FirstPiece(j: nat, n: nat)
    requires j < n
    ensures Piece(j, n) == 0
  {
  }

  lemma SameCount(base: Base, k: nat, ind: seq<int>, M: seq<int>, src1: int, src2: int, half: seq<int>, off: nat,
                  j: nat)
    requires HalfOf(base, k, ind, M, src1, src2, half, off) && j < |half|
    ensures NarrowAt(base, k - 1, k - 1, half, j) <==> CountedSources(half, |half|) <= 2
  {
    PartBelow(ind, M, src1, src2, half, off);
    CountsBlocks(half, |half|);
    FirstPiece(j, |half|);
  }

  /** What blend_half tests for the pieces around a place is the same in the half of the new list. */
  lemma HalfOfNarrowed(base: Base, k: nat, ind: seq<int>, M: seq<int>, src1: int, src2: int,
                       half: seq<int>, off: nat, j: nat, p: nat)
    requires HalfOf(base, k, ind, M, src1, src2, half, off) && j < |half| && p == off + j
    ensures NarrowAround(base, k, ind, p) <==> CountedSources(half, |half|) <= 2 && NarrowAround(base, k - 1, half, j)
  {
    SameCount(base, k, ind, M, src1, src2, half, off, j);
    SameLevels(base, k, ind, M, src1, src2, half, off, j, p);
    LastLevel(base, k, ind, half, j, p);
  }

  lemma SameLevels(base: Base, k: nat, ind: seq<int>, M: seq<int>, src1: int, src2: int,
                   half: seq<int>, off: nat, j: nat, p: nat)
    requires HalfOf(base, k, ind, M, src1, src2, half, off) && j < |half| && p == off + j
    ensures forall m :: 0 <= m < k ==> (NarrowAt(base, m, k, ind, p) <==> NarrowAt(base, m, k - 1, half, j))
  {
    var l := k - 1;
    forall m | 0 <= m < k ensures NarrowAt(base, m, k, ind, p) <==> NarrowAt(base, m, l, half, j) {
      SameNarrow(base, m, k, ind, M, src1, src2, half, off, j, p);
    }
  }

  lemma LastLevel(base: Base, k: nat, ind: seq<int>, half: seq<int>, j: nat, p: nat)
    requires k > 0 && |ind| == WidthAt(base, k) && |half| == WidthAt(base, k - 1) && p < |ind| && j < |half|
    requires forall m :: 0 <= m < k ==> (NarrowAt(base, m, k, ind, p) <==> NarrowAt(base, m, k - 1, half, j))
    ensures NarrowAround(base, k, ind, p) <==>
      NarrowAt(base, k - 1, k - 1, half, j) && NarrowAround(base, k - 1, half, j)
  {
    if NarrowAround(base, k, ind, p) {
      var l := k - 1;
      assert NarrowAt(base, l, k, ind, p);
      forall m | 0 <= m < l ensures NarrowAt(base, m, l, half, j) {
        assert NarrowAt(base, m, k, ind, p);
      }
    } else {
      var m :| 0 <= m < k && !NarrowAt(base, m, k, ind, p);
      assert !NarrowAt(base, m, k - 1, half, j);
    }
  }

  lemma RejectedPlace(base: Base, k: nat, ind: seq<int>, M: seq<int>, src1: int, src2: int, half: seq<int>, off: nat)
    requires HalfOf(base, k, ind, M, src1, src2, half, off)
    ensures HalfRejected(base, k - 1, half) <==>
      IllegalBetween(base, k, ind, off, off + |half|)
  {
    forall j, p | 0 <= j < |half| && p == off + j
      ensures Illegal(half[j]) <==> Illegal(ind[p])
      ensures NarrowAround(base, k, ind, p) <==> CountedSources(half, |half|) <= 2 && NarrowAround(base, k - 1, half, j)
    {
      HalfOfNarrowed(base, k, ind, M, src1, src2, half, off, j, p);
      NarrowedElement(ind, M, src1, src2, p);
    }
    if IllegalBetween(base, k, ind, off, off + |half|) {
      var p :| off <= p < off + |half| && Illegal(ind[p]) && NarrowAround(base, k, ind, p);
      assert Illegal(half[p - off]) && NarrowAround(base, k - 1, half, p - off);
    }
    if HalfRejected(base, k - 1, half) {
      var j :| 0 <= j < |half| && Illegal(half[j]) && NarrowAround(base, k - 1, half, j);
      var p := off + j;
      assert Illegal(ind[p]) && NarrowAround(base, k, ind, p);
    }
  }

  /** Above the supported width. */
  lemma RejectedAbove(base: Base, k: nat, ind: seq<int>, M: seq<int>, src1: int, src2: int)
    requires k > 0 && |ind| == WidthAt(base, k) && Narrowed(ind, M, src1, src2)
    ensures HalfRejected(base, k, ind) <==> CountedSources(ind, |ind|) <= 2 && Rejected(base, k, M)
  {
    var h := WidthAt(base, k - 1);
    assert |M| / 2 == h && |ind| == h + h;
    RejectedPlace(base, k, ind, M, src1, src2, M[..h], 0);
    RejectedPlace(base, k, ind, M, src1, src2, M[h..], h);
    BetweenSplits(base, k, ind, h);
  }

  lemma BetweenSplits(base: Base, k: nat, ind: seq<int>, h: nat)
    requires |ind| == WidthAt(base, k) && h <= |ind|
    ensures IllegalBetween(base, k, ind, 0, |ind|) <==>
      IllegalBetween(base, k, ind, 0, h) || IllegalBetween(base, k, ind, h, |ind|)
  {
  }

  /** blend_half rejects a list if and only if it counts at most two sources and the blend of
      these rejects the list for them. */
  lemma RejectedStep(base: Base, k: nat, ind: seq<int>, M: seq<int>, src1: int, src2: int)
    requires |ind| == WidthAt(base, k) && Narrowed(ind, M, src1, src2)
    ensures HalfRejected(base, k, ind) <==> CountedSources(ind, |ind|) <= 2 && Rejected(base, k, M)
  {
    if k == 0 {
      RejectedAtBase(base, ind, M, src1, src2);
    } else {
      RejectedAbove(base, k, ind, M, src1, src2);
    }
  }
}
