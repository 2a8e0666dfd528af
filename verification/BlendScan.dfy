/** The pass of blend_flags over the index list, and what each of its flags says about the list. */
module BlendScan {
  // There are two sources of n elements: indexes below n are elements of a, the others are
  // elements of b.

  import opened IndexLists
  import PermScan

  // ----- basics

  datatype BlendBasics = BlendBasics(zeroing: bool, allzero: bool, fromA: bool, fromB: bool, permA: bool, permB: bool)

  function BasicsStep(st: BlendBasics, n: nat, i: nat, ix: int): BlendBasics {
    if ix == -1 then st.(zeroing := true)
    else if ix < 0 then st
    else if ix < n then st.(allzero := false, fromA := true, permA := st.permA || ix != i)
    else st.(allzero := false, fromB := true, permB := st.permB || ix != i + n)
  }

  function BasicsAfter(a: seq<int>, k: nat): BlendBasics
    requires k <= |a|
  {
    if k == 0 then BlendBasics(false, true, false, false, false, false)
    else BasicsStep(BasicsAfter(a, k - 1), |a|, k - 1, a[k - 1])
  }

  /** Some element comes from a (from b). */
  predicate UsesA(a: seq<int>, n: nat) {
    exists i :: 0 <= i < |a| && 0 <= a[i] < n
  }

  predicate UsesB(a: seq<int>, n: nat) {
    exists i :: 0 <= i < |a| && a[i] >= n
  }

  /** Some element of a (of b) moves. */
  predicate MovesA(a: seq<int>, n: nat) {
    exists i :: 0 <= i < |a| && 0 <= a[i] < n && a[i] != i
  }

  predicate MovesB(a: seq<int>, n: nat) {
    exists i :: 0 <= i < |a| && a[i] >= n && a[i] != i + n
  }

  ghost predicate BasicsFoundIn(a: seq<int>, n: nat, st: BlendBasics) {
    && (st.zeroing <==> HasZero(a))
    && (st.allzero <==> AllNegative(a))
    && (st.fromA <==> UsesA(a, n))
    && (st.fromB <==> UsesB(a, n))
    && (st.permA <==> MovesA(a, n))
    && (st.permB <==> MovesB(a, n))
  }

  lemma OneMore(a: seq<int>, n: nat, x: int)
    ensures HasZero(a + [x]) <==> HasZero(a) || x == -1
    ensures AllNegative(a + [x]) <==> AllNegative(a) && x < 0
    ensures UsesA(a + [x], n) <==> UsesA(a, n) || 0 <= x < n
    ensures UsesB(a + [x], n) <==> UsesB(a, n) || x >= n
    ensures MovesA(a + [x], n) <==> MovesA(a, n) || (0 <= x < n && x != |a|)
    ensures MovesB(a + [x], n) <==> MovesB(a, n) || (x >= n && x != |a| + n)
  {
    var b := a + [x];
    assert b[|a|] == x && forall i :: 0 <= i < |a| ==> b[i] == a[i];
  }

  lemma {:induction false} BasicsFound(a: seq<int>, k: nat)
    requires k <= |a|
    ensures BasicsFoundIn(a[..k], |a|, BasicsAfter(a, k))
  {
    if k > 0 {
      BasicsFound(a, k - 1);
      assert a[..k] == a[..k - 1] + [a[k - 1]];
      OneMore(a[..k - 1], |a|, a[k - 1]);
    }
  }

  lemma BasicsMeaning(a: seq<int>)
    ensures BasicsFoundIn(a, |a|, BasicsAfter(a, |a|))
  {
    BasicsFound(a, |a|);
    assert a[..|a|] == a;
  }

  // ----- 128-bit lanes

  /** The number of the element in its own source. For 0 <= ix < 2n, with n a power of two,
      this is ix with bit n cleared. */
  function Home(ix: nat, n: nat): nat {
    if ix < n then ix else ix - n
  }

  /** The place of the element in its lane; elements of b are counted from n. */
  function BlendColumn(ix: nat, n: nat, laneSize: nat): nat
    requires laneSize > 0
  {
    Column(Home(ix, n), laneSize) + (if ix < n then 0 else n)
  }

  function LanesStep(st: PermScan.Lanes, n: nat, laneSize: nat, i: nat, ix: int): (r: PermScan.Lanes)
    requires laneSize > 0 && |st.pattern| == laneSize && ix < 2 * n
    ensures |r.pattern| == laneSize
  {
    LaneAndColumn(i, laneSize);
    var lane := i / laneSize;
    var st0 := if lane == 0 then st.(pattern := st.pattern[i := ix]) else st;
    var st1 := if ix >= 0 && Home(ix, n) / laneSize != lane then st0.(crossLane := true) else st0;
    if lane == 0 || ix < 0 then st1 else
    var j, jx := i - lane * laneSize, ix - lane * laneSize;
    var st2 := if jx < 0 || Home(jx, n) >= laneSize then st1.(samePattern := false) else st1;
    if st2.pattern[j] < 0 then st2.(pattern := st2.pattern[j := jx])
    else if st2.pattern[j] != jx then st2.(samePattern := false)
    else st2
  }

  predicate ValidUpTo(a: seq<int>, k: nat)
    requires k <= |a|
  {
    forall i :: 0 <= i < k ==> ValidIndex(a[i], 2 * |a|)
  }

  function LanesAfter(a: seq<int>, k: nat, laneSize: nat): (st: PermScan.Lanes)
    requires k <= |a| && laneSize > 0 && ValidUpTo(a, k)
    ensures |st.pattern| == laneSize
  {
    if k == 0 then PermScan.Lanes(false, true, seq(laneSize, _ => 0))
    else
      assert ValidIndex(a[k - 1], 2 * |a|);
      LanesStep(LanesAfter(a, k - 1, laneSize), |a|, laneSize, k - 1, a[k - 1])
  }

  predicate BlendCrosses(a: seq<int>, k: nat, n: nat, laneSize: nat)
    requires k <= |a| && laneSize > 0
  {
    exists i :: 0 <= i < k && a[i] >= 0 && Lane(Home(a[i], n), laneSize) != Lane(i, laneSize)
  }

  predicate BlendLanesAgree(a: seq<int>, k: nat, n: nat, laneSize: nat)
    requires k <= |a| && laneSize > 0
  {
    forall i, j :: 0 <= i < k && 0 <= j < k && a[i] >= 0 && a[j] >= 0 && Column(i, laneSize) == Column(j, laneSize)
      ==> BlendColumn(a[i], n, laneSize) == BlendColumn(a[j], n, laneSize)
  }

  ghost predicate IsLanePattern(a: seq<int>, k: nat, n: nat, laneSize: nat, lp: seq<int>)
    requires k <= |a| && laneSize > 0
  {
    && |lp| == laneSize
    && (forall i :: 0 <= i < k && a[i] >= 0 ==> lp[Column(i, laneSize)] == BlendColumn(a[i], n, laneSize))
    && (forall p :: 0 <= p < laneSize && p < k && lp[p] >= 0 ==> PermScan.AskedFor(a, k, laneSize, p))
    && (forall p :: 0 <= p < laneSize && p < k && lp[p] < 0 ==> lp[p] == a[p])
  }

  /** A step in terms of columns. */
  lemma StepInColumns(st: PermScan.Lanes, n: nat, laneSize: nat, i: nat, ix: int)
    requires laneSize > 0 && |st.pattern| == laneSize && ix < 2 * n
    requires ix >= 0 ==> Lane(Home(ix, n), laneSize) == Lane(i, laneSize)
    ensures var r, p := LanesStep(st, n, laneSize, i, ix), Column(i, laneSize);
            if i < laneSize then i == p && r.samePattern == st.samePattern && r.pattern == st.pattern[i := ix]
            else if ix < 0 then r.samePattern == st.samePattern && r.pattern == st.pattern
            else var c := BlendColumn(ix, n, laneSize);
              if st.pattern[p] < 0 then
                r.samePattern == st.samePattern && r.pattern == st.pattern[p := c]
              else r.samePattern == (st.samePattern && st.pattern[p] == c) && r.pattern == st.pattern
  {
    LaneAndColumn(i, laneSize);
    if ix >= 0 {
      LaneAndColumn(Home(ix, n), laneSize);
      FirstLaneColumn(ix, n, laneSize, i / laneSize);
    }
  }

  lemma FirstLaneColumn(ix: nat, n: nat, laneSize: nat, lane: nat)
    requires laneSize > 0 && ix < 2 * n && Home(ix, n) / laneSize == lane
    requires Column(Home(ix, n), laneSize) == Home(ix, n) - lane * laneSize
    ensures var jx := ix - lane * laneSize;
            jx == BlendColumn(ix, n, laneSize) && (jx < n || ix >= n ==> Home(jx, n) < laneSize)
  {
  }

  lemma StepCrosses(st: PermScan.Lanes, n: nat, laneSize: nat, i: nat, ix: int)
    requires laneSize > 0 && |st.pattern| == laneSize && ix < 2 * n
    ensures LanesStep(st, n, laneSize, i, ix).crossLane <==>
            st.crossLane || (ix >= 0 && Lane(Home(ix, n), laneSize) != Lane(i, laneSize))
  {
    LaneAndColumn(i, laneSize);
    if ix >= 0 {
      LaneAndColumn(Home(ix, n), laneSize);
    }
  }

  lemma {:induction false} CrossingFound(a: seq<int>, k: nat, laneSize: nat)
    requires k <= |a| && laneSize > 0 && InRange(a, 2 * |a|)
    ensures LanesAfter(a, k, laneSize).crossLane <==> BlendCrosses(a, k, |a|, laneSize)
  {
    if k > 0 {
      CrossingFound(a, k - 1, laneSize);
      assert ValidIndex(a[k - 1], 2 * |a|);
      StepCrosses(LanesAfter(a, k - 1, laneSize), |a|, laneSize, k - 1, a[k - 1]);
    }
  }

  lemma {:induction false} SharedAt(a: seq<int>, k: nat, laneSize: nat, i: nat)
    requires i < k <= |a| && laneSize > 0 && InRange(a, 2 * |a|) && !BlendCrosses(a, k, |a|, laneSize)
    requires LanesAfter(a, k, laneSize).samePattern && a[i] >= 0
    ensures LanesAfter(a, k, laneSize).pattern[Column(i, laneSize)] == BlendColumn(a[i], |a|, laneSize)
  {
    var prev, ix := LanesAfter(a, k - 1, laneSize), a[k - 1];
    assert ValidIndex(ix, 2 * |a|);
    assert ix >= 0 ==> Lane(Home(ix, |a|), laneSize) == Lane(k - 1, laneSize);
    StepInColumns(prev, |a|, laneSize, k - 1, ix);
    if i == k - 1 {
      FirstLaneHome(i, ix, |a|, laneSize);
    } else {
      SharedAt(a, k - 1, laneSize, i);
    }
  }

  lemma FirstLaneHome(i: nat, ix: int, n: nat, laneSize: nat)
    requires laneSize > 0 && ix < 2 * n
    requires ix >= 0 ==> Lane(Home(ix, n), laneSize) == Lane(i, laneSize)
    ensures i < laneSize && ix >= 0 ==> BlendColumn(ix, n, laneSize) == ix
  {
  }

  lemma {:induction false} PatternAt(a: seq<int>, k: nat, laneSize: nat, p: nat)
    requires p < k <= |a| && p < laneSize && InRange(a, 2 * |a|) && !BlendCrosses(a, k, |a|, laneSize)
    ensures var v := LanesAfter(a, k, laneSize).pattern[p];
            if v >= 0 then PermScan.AskedFor(a, k, laneSize, p) else v == a[p]
  {
    var prev, ix := LanesAfter(a, k - 1, laneSize), a[k - 1];
    assert ValidIndex(ix, 2 * |a|);
    assert ix >= 0 ==> Lane(Home(ix, |a|), laneSize) == Lane(k - 1, laneSize);
    StepInColumns(prev, |a|, laneSize, k - 1, ix);
    if p < k - 1 {
      PatternAt(a, k - 1, laneSize, p);
    }
  }

  lemma PatternIsShared(a: seq<int>, k: nat, laneSize: nat)
    requires k <= |a| && laneSize > 0 && InRange(a, 2 * |a|) && !BlendCrosses(a, k, |a|, laneSize)
    requires LanesAfter(a, k, laneSize).samePattern
    ensures IsLanePattern(a, k, |a|, laneSize, LanesAfter(a, k, laneSize).pattern)
  {
    forall i | 0 <= i < k && a[i] >= 0
      ensures LanesAfter(a, k, laneSize).pattern[Column(i, laneSize)] == BlendColumn(a[i], |a|, laneSize)
    {
      SharedAt(a, k, laneSize, i);
    }
    forall p | 0 <= p < laneSize && p < k
      ensures var v := LanesAfter(a, k, laneSize).pattern[p];
              if v >= 0 then PermScan.AskedFor(a, k, laneSize, p) else v == a[p]
    {
      PatternAt(a, k, laneSize, p);
    }
  }

  lemma {:induction false} PatternFound(a: seq<int>, k: nat, laneSize: nat)
    requires k <= |a| && laneSize > 0 && InRange(a, 2 * |a|) && !BlendCrosses(a, k, |a|, laneSize)
    ensures LanesAfter(a, k, laneSize).samePattern <==> BlendLanesAgree(a, k, |a|, laneSize)
  {
    if LanesAfter(a, k, laneSize).samePattern {
      PatternIsShared(a, k, laneSize);
    } else {
      var prev, ix, p := LanesAfter(a, k - 1, laneSize), a[k - 1], Column(k - 1, laneSize);
      assert ValidIndex(ix, 2 * |a|);
      assert ix >= 0 ==> Lane(Home(ix, |a|), laneSize) == Lane(k - 1, laneSize);
      StepInColumns(prev, |a|, laneSize, k - 1, ix);
      if prev.samePattern {
        PatternIsShared(a, k - 1, laneSize);
        assert PermScan.AskedFor(a, k - 1, laneSize, p);
      } else {
        PatternFound(a, k - 1, laneSize);
      }
    }
  }

  ghost predicate LanesFoundIn(a: seq<int>, n: nat, laneSize: nat, st: PermScan.Lanes)
    requires laneSize > 0
  {
    && (st.crossLane <==> BlendCrosses(a, |a|, n, laneSize))
    && (!st.crossLane ==> (st.samePattern <==> BlendLanesAgree(a, |a|, n, laneSize)))
    && (!st.crossLane && st.samePattern ==> IsLanePattern(a, |a|, n, laneSize, st.pattern))
  }

  lemma LanesMeaning(a: seq<int>, laneSize: nat)
    requires laneSize > 0 && InRange(a, 2 * |a|)
    ensures LanesFoundIn(a, |a|, laneSize, LanesAfter(a, |a|, laneSize))
  {
    CrossingFound(a, |a|, laneSize);
    if !BlendCrosses(a, |a|, |a|, laneSize) {
      PatternFound(a, |a|, laneSize);
      if LanesAfter(a, |a|, laneSize).samePattern {
        PatternIsShared(a, |a|, laneSize);
      }
    }
  }

  // ----- shufpd, for lanes of two elements

  datatype Shuf = Shuf(ab: bool, ba: bool)

  /** Element i fits shufpd(a, b) if it is in its own lane and comes from a in even places and
      from b in odd places. */
  function ShufStep(st: Shuf, n: nat, i: nat, ix: int): Shuf {
    if ix < 0 then st else
    var st0 := if Home(ix, n) / 2 != i / 2 then Shuf(false, false) else st;
    if (ix >= n) != (i % 2 == 1) then st0.(ab := false) else st0.(ba := false)
  }

  function ShufAfter(a: seq<int>, k: nat): Shuf
    requires k <= |a|
  {
    if k == 0 then Shuf(true, true) else ShufStep(ShufAfter(a, k - 1), |a|, k - 1, a[k - 1])
  }

  /** Every element is in its lane, those in even places from one source and those in odd
      places from the other. */
  predicate Alternates(a: seq<int>, k: nat, n: nat, evenFromB: bool)
    requires k <= |a|
  {
    forall i :: 0 <= i < k && a[i] >= 0 ==> Home(a[i], n) / 2 == i / 2 && (a[i] >= n) == (evenFromB == (i % 2 == 0))
  }

  lemma {:induction false} ShufFound(a: seq<int>, k: nat)
    requires k <= |a|
    ensures ShufAfter(a, k).ab <==> Alternates(a, k, |a|, false)
    ensures ShufAfter(a, k).ba <==> Alternates(a, k, |a|, true)
  {
    if k > 0 { ShufFound(a, k - 1); }
  }
}
