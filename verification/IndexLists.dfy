/** The index lists that permute and blend functions take as template arguments.
    An index is -1 ("set this element to zero"), V_DC ("any value will do") or the
    non-negative number of a source element. */
module IndexLists {

  const V_DC: int := -256

  predicate PowerOfTwo(n: nat) {
    n == 1 || (n > 0 && n % 2 == 0 && PowerOfTwo(n / 2))
  }

  predicate ValidIndex(ix: int, n: nat) {
    ix == -1 || ix == V_DC || 0 <= ix < n
  }

  predicate InRange(a: seq<int>, n: nat) {
    forall i :: 0 <= i < |a| ==> ValidIndex(a[i], n)
  }

  predicate HasZero(a: seq<int>) {
    exists i :: 0 <= i < |a| && a[i] == -1
  }

  predicate AllNegative(a: seq<int>) {
    forall i :: 0 <= i < |a| ==> a[i] < 0
  }

  /** Some element moves. */
  predicate Moves(a: seq<int>) {
    exists i :: 0 <= i < |a| && a[i] >= 0 && a[i] != i
  }

  /** The pair of indexes selects one aligned pair of source elements (or leaves it open). */
  predicate PairFits(x: int, y: int) {
    && (x >= 0 ==> x % 2 == 0)
    && (y >= 0 ==> y % 2 == 1)
    && (x >= 0 && y >= 0 ==> y == x + 1)
  }

  /** The two indexes of pair k. */
  function First(a: seq<int>, k: nat): int
    requires k < |a| / 2
  {
    a[2 * k]
  }

  function Second(a: seq<int>, k: nat): int
    requires k < |a| / 2
  {
    a[2 * k + 1]
  }

  predicate FitsLargeBlock(a: seq<int>)
    requires |a| % 2 == 0
  {
    forall k :: 0 <= k < |a| / 2 ==> PairFits(First(a, k), Second(a, k))
  }

  /** One half of the pair is to be zeroed and the other half is to be kept. */
  predicate PairSplit(x: int, y: int) {
    (x == -1 && y >= 0) || (y == -1 && x >= 0)
  }

  predicate SplitsPair(a: seq<int>)
    requires |a| % 2 == 0
  {
    exists k :: 0 <= k < |a| / 2 && PairSplit(First(a, k), Second(a, k))
  }

  /** A -1 stands somewhere before the last non-negative of the first n indexes. */
  predicate ZeroBeforeLast(a: seq<int>, n: nat)
    requires n <= |a|
  {
    exists i, j :: 0 <= i < j < n && a[i] == -1 && a[j] >= 0
  }

  /** All non-negative indexes are the same. */
  predicate SameSource(a: seq<int>) {
    forall i, j :: 0 <= i < |a| && 0 <= j < |a| && a[i] >= 0 && a[j] >= 0 ==> a[i] == a[j]
  }

  /** Element k of the source goes to element 2*k of the result. */
  predicate FitsZeroExtension(a: seq<int>) {
    forall i :: 0 <= i < |a| && a[i] >= 0 ==> 2 * a[i] == i
  }

  /** In the first n indexes, the sources are in increasing order and at least as far apart
      as their destinations. */
  predicate FitsCompress(a: seq<int>, n: nat)
    requires n <= |a|
  {
    && (forall i :: 0 <= i < n && a[i] >= 0 ==> a[i] >= i)
    && (forall i, j :: 0 <= i < j < n && a[i] >= 0 && a[j] >= 0 ==> a[j] - a[i] >= j - i)
  }

  /** In the first n indexes, the sources are in increasing order and at most as far apart
      as their destinations. */
  predicate FitsExpand(a: seq<int>, n: nat)
    requires n <= |a|
  {
    && (forall i :: 0 <= i < n && a[i] >= 0 ==> a[i] <= i)
    && (forall i, j :: 0 <= i < j < n && a[i] >= 0 && a[j] >= 0 ==> 0 < a[j] - a[i] <= j - i)
  }

  predicate Uses(a: seq<int>, n: nat, v: int)
    requires n <= |a|
  {
    exists k :: 0 <= k < n && a[k] == v
  }

  /** The first n indexes use some source element, but not all those below it. */
  predicate SkipsSource(a: seq<int>, n: nat)
    requires n <= |a|
  {
    exists j, v :: 0 <= j < n && 0 <= v < a[j] && !Uses(a, n, v)
  }

  /** The number of the lane that holds element i. */
  function Lane(i: nat, laneSize: nat): nat
    requires laneSize > 0
  {
    if i < laneSize then 0 else 1 + Lane(i - laneSize, laneSize)
  }

  /** The place of element i in its lane. */
  function Column(i: nat, laneSize: nat): (c: nat)
    requires laneSize > 0
    ensures c < laneSize
  {
    if i < laneSize then i else Column(i - laneSize, laneSize)
  }

  lemma {:induction false} LaneAndColumn(i: nat, laneSize: nat)
    requires laneSize > 0
    ensures Lane(i, laneSize) == i / laneSize
    ensures Column(i, laneSize) == i % laneSize == i - i / laneSize * laneSize
  {
    if i >= laneSize {
      LaneAndColumn(i - laneSize, laneSize);
      var q, r := (i - laneSize) / laneSize, (i - laneSize) % laneSize;
      assert i == (q + 1) * laneSize + r;
      DivisionIsUnique(i, q + 1, r, laneSize);
    } else {
      DivisionIsUnique(i, 0, i, laneSize);
    }
  }

  lemma DivisionIsUnique(i: nat, q: nat, r: nat, n: nat)
    requires r < n && i == q * n + r
    ensures i / n == q && i % n == r
  {
    MultipleOutOfReach(i / n - q, n);
    assert (i / n - q) * n == r - i % n;
  }

  lemma MultipleOutOfReach(d: int, n: nat)
    requires n > 0
    ensures d >= 1 ==> d * n >= n
    ensures d <= -1 ==> d * n <= 0 - n
  {
  }

  /** One of the first n elements comes from another lane of laneSize elements. */
  predicate CrossesLane(a: seq<int>, n: nat, laneSize: nat)
    requires n <= |a| && laneSize > 0
  {
    exists i :: 0 <= i < n && a[i] >= 0 && Lane(a[i], laneSize) != Lane(i, laneSize)
  }

  /** In the first n elements, no two lanes ask for different elements in the same column. */
  predicate LanesAgree(a: seq<int>, n: nat, laneSize: nat)
    requires n <= |a| && laneSize > 0
  {
    forall i, j :: 0 <= i < n && 0 <= j < n && a[i] >= 0 && a[j] >= 0 && Column(i, laneSize) == Column(j, laneSize)
      ==> Column(a[i], laneSize) == Column(a[j], laneSize)
  }

  // ----- packed patterns

  /** Two-bit field k of a shuffle pattern. */
  function Field2(pattern: nat, k: int): nat {
    if k == 0 then pattern % 4 else if k == 1 then pattern / 4 % 4
    else if k == 2 then pattern / 16 % 4 else pattern / 64 % 4
  }

  /** Bit k of a pattern of up to eight bits. */
  function Bit(pattern: nat, k: int): nat {
    if k == 0 then pattern % 2 else if k == 1 then pattern / 2 % 2 else if k == 2 then pattern / 4 % 2
    else if k == 3 then pattern / 8 % 2 else if k == 4 then pattern / 16 % 2 else if k == 5 then pattern / 32 % 2
    else if k == 6 then pattern / 64 % 2 else pattern / 128 % 2
  }
}
