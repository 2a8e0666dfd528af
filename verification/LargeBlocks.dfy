/** Lists for elements of double size instead. */
module LargeBlocks {
  // A permute or blend of N elements is replaced by one of N/2.

  import opened IndexLists
  import opened Vectors
  import opened BitNumbers

  /** x | y of two negative numbers, in two's complement. */
  function OrNegative(x: int, y: int): (r: int)
    requires x < 0 && y < 0
    ensures r < 0
  {
    -1 - BitAnd(-1 - x, -1 - y)
  }

  /** -1 takes precedence over V_DC. */
  lemma OrOfUnused(x: int, y: int)
    requires (x == -1 || x == V_DC) && (y == -1 || y == V_DC)
    ensures OrNegative(x, y) == if x == -1 || y == -1 then -1 else V_DC
  {
    BitAndSelf(255);
  }

  /** The number of the pair of elements that the pair of indexes asks for. */
  function PairIndex(ix: int, iy: int): int {
    if ix >= 0 then ix / 2 else if iy >= 0 then iy / 2 else OrNegative(ix, iy)
  }

  /** If there is zeroing to be done later, an unused pair need not be zeroed now. */
  function BlockIndex(ix: int, iy: int, fitAddz: bool): int {
    if fitAddz && ix < 0 && iy < 0 then V_DC else PairIndex(ix, iy)
  }

  function BlockList(a: seq<int>): (r: seq<int>)
    requires |a| % 2 == 0
    ensures |r| == |a| / 2
    ensures forall k :: 0 <= k < |r| ==> r[k] == BlockIndex(First(a, k), Second(a, k), SplitsPair(a))
  {
    seq(|a| / 2, k requires 0 <= k < |a| / 2 => BlockIndex(First(a, k), Second(a, k), SplitsPair(a)))
  }

  /** The index for each pair: the number of the pair of elements that it asks for; otherwise -1
      to have both zeroed at once, or V_DC if neither matters or zeroing is done later. */
  lemma BlockListIs(a: seq<int>, n: nat, k: nat)
    requires |a| % 2 == 0 && InRange(a, n) && k < |a| / 2
    ensures var x, y, r := a[2 * k], a[2 * k + 1], BlockList(a)[k];
      && (x >= 0 ==> r == x / 2)
      && (x < 0 && y >= 0 ==> r == y / 2)
      && (x < 0 && y < 0 ==> r == if SplitsPair(a) || (x == V_DC && y == V_DC) then V_DC else -1)
  {
    assert ValidIndex(a[2 * k], n) && ValidIndex(a[2 * k + 1], n);
    if First(a, k) < 0 && Second(a, k) < 0 {
      OrOfUnused(First(a, k), Second(a, k));
    }
  }

  predicate SplitsBefore(a: seq<int>, n: nat)
    requires n <= |a| / 2
  {
    n > 0 && (SplitsBefore(a, n - 1) || PairSplit(First(a, n - 1), Second(a, n - 1)))
  }

  lemma {:induction false} SplitsBeforeMeans(a: seq<int>, n: nat)
    requires n <= |a| / 2
    ensures SplitsBefore(a, n) <==> exists k :: 0 <= k < n && PairSplit(First(a, k), Second(a, k))
  {
    if n > 0 { SplitsBeforeMeans(a, n - 1); }
  }

  /** largeblock_perm: one pass finds out about zeroing, a second one fills in the list. */
  method LargeBlockPerm(a: seq<int>) returns (r: seq<int>)
    requires |a| % 2 == 0
    ensures r == BlockList(a)
  {
    var list := new int[|a| / 2];
    var fitAddz := false;
    var i := 0;
    ghost var j: nat := 0;
    while i < |a|
      invariant 0 <= i <= |a| && i == 2 * j
      invariant fitAddz == SplitsBefore(a, j)
    {
      var ix, iy := a[i], a[i + 1];
      assert First(a, j) == ix && Second(a, j) == iy;
      if (ix == -1 && iy >= 0) || (iy == -1 && ix >= 0) {
        fitAddz := true;
      }
      i, j := i + 2, j + 1;
    }
    SplitsBeforeMeans(a, j);
    i, j := 0, 0;
    while i < |a|
      invariant 0 <= i <= |a| && i == 2 * j
      invariant forall k :: 0 <= k < j ==> list[k] == BlockIndex(First(a, k), Second(a, k), fitAddz)
    {
      var ix, iy := a[i], a[i + 1];
      assert First(a, j) == ix && Second(a, j) == iy;
      var iz;
      if ix >= 0 {
        iz := ix / 2;
      } else if iy >= 0 {
        iz := iy / 2;
      } else {
        iz := OrNegative(ix, iy);
        if fitAddz { iz := V_DC; }
      }
      list[i / 2] := iz;
      i, j := i + 2, j + 1;
    }
    r := list[..];
  }

  /** largeblock_indexes: the same list in one pass, with a correction at the end. */
  method LargeBlockIndexes(a: seq<int>) returns (r: seq<int>)
    requires |a| % 2 == 0
    ensures r == BlockList(a)
  {
    var list := new int[|a| / 2];
    var fitAddz := FillBlocks(a, list);
    if fitAddz {
      ReplaceUnused(list);
    }
    r := list[..];
  }

  method FillBlocks(a: seq<int>, list: array<int>) returns (fitAddz: bool)
    requires |a| % 2 == 0 && list.Length == |a| / 2
    modifies list
    ensures fitAddz <==> SplitsPair(a)
    ensures forall k :: 0 <= k < |a| / 2 ==> list[k] == PairIndex(First(a, k), Second(a, k))
  {
    fitAddz := false;
    var i := 0;
    ghost var j: nat := 0;
    while i < |a|
      invariant 0 <= i <= |a| && i == 2 * j
      invariant fitAddz == SplitsBefore(a, j)
      invariant forall k :: 0 <= k < j ==> list[k] == PairIndex(First(a, k), Second(a, k))
    {
      var ix, iy := a[i], a[i + 1];
      assert First(a, j) == ix && Second(a, j) == iy;
      var iz;
      if ix >= 0 {
        iz := ix / 2;
      } else if iy >= 0 {
        iz := iy / 2;
      } else {
        iz := OrNegative(ix, iy);
      }
      list[i / 2] := iz;
      if (ix == -1 && iy >= 0) || (iy == -1 && ix >= 0) {
        fitAddz := true;
      }
      i, j := i + 2, j + 1;
    }
    SplitsBeforeMeans(a, j);
  }

  method ReplaceUnused(list: array<int>)
    modifies list
    ensures forall k :: 0 <= k < list.Length ==> list[k] == if old(list[k]) < 0 then V_DC else old(list[k])
  {
    for i := 0 to list.Length
      invariant forall k :: 0 <= k < i ==> list[k] == if old(list[k]) < 0 then V_DC else old(list[k])
      invariant forall k :: i <= k < list.Length ==> list[k] == old(list[k])
    {
      if list[i] < 0 { list[i] := V_DC; }
    }
  }

  /** The list for the larger blocks is in range if the original one is. */
  lemma BlockListInRange(a: seq<int>, n: nat)
    requires |a| % 2 == 0 && n % 2 == 0 && InRange(a, n)
    ensures InRange(BlockList(a), n / 2)
  {
    var r := BlockList(a);
    forall k | 0 <= k < |r| ensures ValidIndex(r[k], n / 2) {
      assert ValidIndex(First(a, k), n) && ValidIndex(Second(a, k), n);
      if First(a, k) < 0 && Second(a, k) < 0 {
        OrOfUnused(First(a, k), Second(a, k));
      }
    }
  }

  /** A pair that one index of the list for the larger blocks asks for. */
  lemma WantedPair(x: int, y: int, s: nat, src: Vec, pair: Elem)
    requires |src| % 2 == 0 && Sized(src, s) && PairFits(x, y) && ValidIndex(x, |src|) && ValidIndex(y, |src|)
    requires x >= 0 || y >= 0
    requires |pair| == 2 * s && pair == Paired(src)[PairIndex(x, y)]
    ensures x >= 0 ==> pair[..s] == src[x]
    ensures y >= 0 ==> pair[s..] == src[y]
  {
    var m := PairIndex(x, y);
    PairHalves(src[2 * m], src[2 * m + 1]);
  }

  lemma UnusedPairIndex(x: int, y: int, n: nat)
    requires ValidIndex(x, n) && ValidIndex(y, n) && !PairSplit(x, y) && (x == -1 || y == -1)
    ensures x < 0 && y < 0 && PairIndex(x, y) == -1
  {
    OrOfUnused(x, y);
  }

  lemma UnwantedPair(x: int, y: int, s: nat, n: nat, pair: Elem)
    requires ValidIndex(x, n) && ValidIndex(y, n) && !PairSplit(x, y)
    requires |pair| == 2 * s && (x < 0 && y < 0 && PairIndex(x, y) == -1 ==> pair == Zero(2 * s))
    ensures x == -1 ==> pair[..s] == Zero(s)
    ensures y == -1 ==> pair[s..] == Zero(s)
  {
    if x == -1 || y == -1 {
      UnusedPairIndex(x, y, n);
      PairedZero(s);
    }
  }

  lemma BlockElement(a: seq<int>, s: nat, src: Vec, Y: Vec, k: nat)
    requires |a| % 2 == 0 && |src| % 2 == 0 && Sized(src, s) && FitsLargeBlock(a) && InRange(a, |src|)
    requires Meets(BlockList(a), 2 * s, Paired(src), Y) && k < |a| / 2
    ensures var x, y := First(a, k), Second(a, k);
      && (x >= 0 ==> Split(Y, s)[2 * k] == src[x])
      && (y >= 0 ==> Split(Y, s)[2 * k + 1] == src[y])
      && (!SplitsPair(a) ==>
            && (x == -1 ==> Split(Y, s)[2 * k] == Zero(s))
            && (y == -1 ==> Split(Y, s)[2 * k + 1] == Zero(s)))
  {
    var m := BlockList(a)[k];
    var x, y := First(a, k), Second(a, k);
    assert PairFits(x, y) && ValidIndex(x, |src|) && ValidIndex(y, |src|);
    BlockListInRange(a, |src|);
    if x >= 0 || y >= 0 {
      WantedPair(x, y, s, src, Y[k]);
    }
    if !SplitsPair(a) {
      UnwantedPair(x, y, s, |src|, Y[k]);
    }
  }

  /** Permuting or blending the larger blocks does what the list asks for, except that zeroing
      one half of a pair is left to be done afterwards. */
  lemma LargeBlockSound(a: seq<int>, s: nat, src: Vec, Y: Vec)
    requires |a| % 2 == 0 && |src| % 2 == 0 && Sized(src, s) && FitsLargeBlock(a) && InRange(a, |src|)
    requires Meets(BlockList(a), 2 * s, Paired(src), Y)
    ensures Sized(Split(Y, s), s) && Routed(a, src, Split(Y, s))
    ensures !SplitsPair(a) ==> Meets(a, s, src, Split(Y, s))
  {
    var y, n, split := Split(Y, s), |src|, SplitsPair(a);
    var P := (ix: int, e: Elem) => (0 <= ix < n ==> e == src[ix]) && (ix == -1 && !split ==> e == Zero(s));
    forall k | 0 <= k < |a| / 2 ensures P(First(a, k), y[2 * k]) && P(Second(a, k), y[2 * k + 1]) {
      BlockElement(a, s, src, Y, k);
    }
    AllPairs(a, y, P);
  }

  lemma AllPairs(a: seq<int>, y: Vec, P: (int, Elem) -> bool)
    requires |a| % 2 == 0 && |y| == |a|
    requires forall k :: 0 <= k < |a| / 2 ==> P(First(a, k), y[2 * k]) && P(Second(a, k), y[2 * k + 1])
    ensures forall i :: 0 <= i < |a| ==> P(a[i], y[i])
  {
    forall i | 0 <= i < |a| ensures P(a[i], y[i]) {
      var k := i / 2;
      assert P(First(a, k), y[2 * k]) && P(Second(a, k), y[2 * k + 1]);
      assert i == 2 * k || i == 2 * k + 1;
    }
  }
}
