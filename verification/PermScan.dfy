/** The pass of perm_flags over the index list. */
module PermScan {
  // Each group of flags has a step, taken once per index, and a lemma that says what the steps
  // find out.

  import opened IndexLists

  /** The part of a vector class that the planners depend on. */
  datatype Shape = Shape(lanes: nat, laneSize: nat) {
    predicate Valid() {
      (lanes == 1 || lanes == 2 || lanes == 4) && ValidLane(laneSize)
    }

    function Size(): nat {
      lanes * laneSize
    }
  }

  /** A lane of 16 bytes can hold 2, 4, 8 or 16 elements. */
  predicate ValidLane(laneSize: nat) {
    PowerOfTwo(laneSize) && 2 <= laneSize <= 16
  }

  lemma LaneSizes(laneSize: nat)
    requires ValidLane(laneSize)
    ensures laneSize == 2 || laneSize == 4 || laneSize == 8 || laneSize == 16
  {
    assert PowerOfTwo(laneSize / 2);
    if laneSize > 2 { assert PowerOfTwo(laneSize / 2 / 2); }
    if laneSize > 4 { assert PowerOfTwo(laneSize / 2 / 2 / 2); }
    if laneSize > 8 { assert PowerOfTwo(laneSize / 2 / 2 / 2 / 2); }
  }

  /** Bytes in k elements: a lane has 16 bytes. */
  function Bytes(laneSize: nat, k: nat): nat {
    if laneSize == 2 then 8 * k else if laneSize == 4 then 4 * k else if laneSize == 8 then 2 * k else k
  }

  /** Whole elements in a number of bytes. */
  function Elements(laneSize: nat, count: nat): nat {
    if laneSize == 2 then count / 8 else if laneSize == 4 then count / 4 else if laneSize == 8 then count / 2 else count
  }

  // ----- zeroing, range, need for a permutation

  datatype Basics = Basics(zeroing: bool, outOfRange: bool, allzero: bool, perm: bool)

  function BasicsStep(st: Basics, n: nat, i: nat, ix: int): Basics {
    var range :=
      if ix == -1 then st.(zeroing := true)
      else if ix != V_DC && !(0 <= ix < n) then st.(outOfRange := true)
      else st;
    if ix >= 0 then range.(allzero := false, perm := st.perm || ix != i) else range
  }

  function BasicsAfter(a: seq<int>, n: nat): Basics
    requires n <= |a|
  {
    if n == 0 then Basics(false, false, true, false) else BasicsStep(BasicsAfter(a, n - 1), |a|, n - 1, a[n - 1])
  }

  lemma {:induction false} BasicsFound(a: seq<int>, n: nat)
    requires n <= |a|
    ensures var st := BasicsAfter(a, n);
            && (st.zeroing <==> HasZero(a[..n]))
            && (st.outOfRange <==> !InRange(a[..n], |a|))
            && (st.allzero <==> AllNegative(a[..n]))
            && (st.perm <==> Moves(a[..n]))
  {
    if n > 0 {
      BasicsFound(a, n - 1);
      assert a[..n] == a[..n - 1] + [a[n - 1]];
    }
  }

  // ----- larger blocks

  datatype Blocks = Blocks(largeblock: bool, addz: bool)

  function BlocksStep(st: Blocks, a: seq<int>, i: nat): Blocks
    requires i < |a| && |a| % 2 == 0
  {
    if i % 2 == 1 then st else
    var ix, iy := a[i], a[i + 1];
    var evenFits := !(ix >= 0 && ix % 2 == 1);
    var oddFits := !(iy >= 0 && iy % 2 == 0);
    var follows := !(ix >= 0 && iy >= 0 && iy != ix + 1);
    Blocks(st.largeblock && evenFits && oddFits && follows,
           st.addz || (ix == -1 && iy >= 0) || (iy == -1 && ix >= 0))
  }

  function BlocksAfter(a: seq<int>, n: nat): Blocks
    requires n <= |a| && |a| % 2 == 0
  {
    if n == 0 then Blocks(true, false) else BlocksStep(BlocksAfter(a, n - 1), a, n - 1)
  }

  lemma {:induction false} BlocksFound(a: seq<int>, n: nat)
    requires n <= |a| && |a| % 2 == 0
    ensures BlocksAfter(a, n).largeblock <==> forall i :: 0 <= i < n && i % 2 == 0 ==> PairFits(a[i], a[i + 1])
    ensures BlocksAfter(a, n).addz <==> exists i :: 0 <= i < n && i % 2 == 0 && PairSplit(a[i], a[i + 1])
  {
    if n > 0 {
      BlocksFound(a, n - 1);
    }
  }

  lemma PairOf(a: seq<int>, i: nat)
    requires i < |a| && |a| % 2 == 0 && i % 2 == 0
    ensures First(a, i / 2) == a[i] && Second(a, i / 2) == a[i + 1]
  {
  }

  lemma BlocksMeaning(a: seq<int>)
    requires |a| % 2 == 0
    ensures BlocksAfter(a, |a|).largeblock <==> FitsLargeBlock(a)
    ensures BlocksAfter(a, |a|).addz <==> SplitsPair(a)
  {
    BlocksFound(a, |a|);
    forall k | 0 <= k < |a| / 2 ensures First(a, k) == a[2 * k] && Second(a, k) == a[2 * k + 1] && 2 * k % 2 == 0 {
    }
    FitsByPairs(a);
    if BlocksAfter(a, |a|).addz {
      var i :| 0 <= i < |a| && i % 2 == 0 && PairSplit(a[i], a[i + 1]);
      PairOf(a, i);
      assert PairSplit(First(a, i / 2), Second(a, i / 2));
    }
  }

  lemma FitsByPairs(a: seq<int>)
    requires |a| % 2 == 0
    ensures FitsLargeBlock(a) <==> forall i :: 0 <= i < |a| && i % 2 == 0 ==> PairFits(a[i], a[i + 1])
  {
    if FitsLargeBlock(a) {
      forall i | 0 <= i < |a| && i % 2 == 0 ensures PairFits(a[i], a[i + 1]) {
        PairOf(a, i);
        assert PairFits(First(a, i / 2), Second(a, i / 2));
      }
    }
    if forall i :: 0 <= i < |a| && i % 2 == 0 ==> PairFits(a[i], a[i + 1]) {
      forall k | 0 <= k < |a| / 2 ensures PairFits(First(a, k), Second(a, k)) {
        assert 2 * k % 2 == 0 && PairFits(a[2 * k], a[2 * k + 1]);
      }
    }
  }

  // ----- broadcast

  function BroadcastStep(broadc: int, ix: int): int {
    if ix < 0 then broadc else if broadc == 999 then ix else if broadc != ix then 1000 else broadc
  }

  function BroadcastAfter(a: seq<int>, n: nat): int
    requires n <= |a|
  {
    if n == 0 then 999 else BroadcastStep(BroadcastAfter(a, n - 1), a[n - 1])
  }

  lemma {:induction false} BroadcastFound(a: seq<int>, n: nat)
    requires n <= |a| <= 64 && InRange(a, |a|)
    ensures var b := BroadcastAfter(a, n);
            && (b == 999 <==> AllNegative(a[..n]))
            && (b == 1000 <==> !SameSource(a[..n]))
            && (b != 999 && b != 1000 ==> b in a[..n] && 0 <= b < |a|)
  {
    if n > 0 {
      BroadcastFound(a, n - 1);
      assert a[..n] == a[..n - 1] + [a[n - 1]];
      assert ValidIndex(a[n - 1], |a|);
      var b := BroadcastAfter(a, n - 1);
      if b != 999 && b != 1000 {
        var k :| 0 <= k < n - 1 && a[..n - 1][k] == b;
        assert a[..n][k] == b && a[..n][n - 1] == a[n - 1];
      }
      if b == 1000 {
        var i, j :| 0 <= i < n - 1 && 0 <= j < n - 1 &&
                    a[..n - 1][i] >= 0 && a[..n - 1][j] >= 0 && a[..n - 1][i] != a[..n - 1][j];
        assert a[..n][i] == a[..n - 1][i] && a[..n][j] == a[..n - 1][j];
      }
    }
  }

  // ----- zero extension

  datatype Zext = Zext(fits: bool, addz2: bool)

  function ZextStep(st: Zext, i: nat, ix: int): Zext {
    if ix >= 0 then st.(fits := st.fits && ix * 2 == i)
    else if ix == -1 && i % 2 == 0 then st.(addz2 := true)
    else st
  }

  function ZextAfter(a: seq<int>, n: nat): Zext
    requires n <= |a|
  {
    if n == 0 then Zext(true, false) else ZextStep(ZextAfter(a, n - 1), n - 1, a[n - 1])
  }

  lemma {:induction false} ZextFound(a: seq<int>, n: nat)
    requires n <= |a|
    ensures ZextAfter(a, n).fits <==> FitsZeroExtension(a[..n])
    ensures ZextAfter(a, n).addz2 <==> exists i :: 0 <= i < n && i % 2 == 0 && a[i] == -1
  {
    if n > 0 {
      ZextFound(a, n - 1);
      assert a[..n] == a[..n - 1] + [a[n - 1]];
    }
  }

  // ----- compress

  /** lasti and lastp are the last index that fitted and its position. */
  datatype Run = Run(fits: bool, addz2: bool, lasti: int, lastp: int)

  function CompressStep(st: Run, i: nat, ix: int): Run {
    if ix < 0 then st
    else if ix > st.lasti && ix - st.lasti >= i - st.lastp then
      Run(st.fits, st.addz2 || i - st.lastp > 1, ix, i)
    else st.(fits := false)
  }

  function CompressAfter(a: seq<int>, n: nat): Run
    requires n <= |a|
  {
    if n == 0 then Run(true, false, -1, -1) else CompressStep(CompressAfter(a, n - 1), n - 1, a[n - 1])
  }

  function ExpandStep(st: Run, i: nat, ix: int): Run {
    if ix < 0 then st
    else if ix > st.lasti && ix - st.lasti <= i - st.lastp then
      Run(st.fits, st.addz2 || ix - st.lasti > 1, ix, i)
    else st.(fits := false)
  }

  function ExpandAfter(a: seq<int>, n: nat): Run
    requires n <= |a|
  {
    if n == 0 then Run(true, false, -1, -1) else ExpandStep(ExpandAfter(a, n - 1), n - 1, a[n - 1])
  }

  /** As long as the list fits, st remembers the last non-negative index of the prefix. */
  predicate AtLast(a: seq<int>, n: nat, st: Run)
    requires n <= |a|
  {
    if st.lastp == -1 then st.lasti == -1 && forall k :: 0 <= k < n ==> a[k] < 0
    else 0 <= st.lastp < n && st.lasti == a[st.lastp] >= 0 && forall k :: st.lastp < k < n ==> a[k] < 0
  }

  lemma {:induction false} CompressFound(a: seq<int>, n: nat)
    requires n <= |a|
    ensures var st := CompressAfter(a, n);
            && (st.fits <==> FitsCompress(a, n))
            && (st.fits ==> AtLast(a, n, st))
            && (st.fits && !st.addz2 ==> !ZeroBeforeLast(a, n))
  {
    if n > 0 {
      CompressFound(a, n - 1);
      var prev, ix := CompressAfter(a, n - 1), a[n - 1];
      if prev.fits && ix >= 0 {
        CompressNext(a, n, prev);
      }
    }
  }

  /** One more index that is asked for. */
  lemma CompressNext(a: seq<int>, n: nat, prev: Run)
    requires 0 < n <= |a| && FitsCompress(a, n - 1) && AtLast(a, n - 1, prev) && a[n - 1] >= 0
    ensures FitsCompress(a, n) <==> a[n - 1] > prev.lasti && a[n - 1] - prev.lasti >= n - 1 - prev.lastp
    ensures n - 1 - prev.lastp <= 1 && !ZeroBeforeLast(a, n - 1) ==> !ZeroBeforeLast(a, n)
  {
    if prev.lastp >= 0 {
      assert a[prev.lastp] >= 0 && prev.lastp < n - 1;
      LastIsClosest(a, n, prev.lastp);
    }
  }

  lemma LastIsClosest(a: seq<int>, n: nat, p: nat)
    requires 0 < n <= |a| && FitsCompress(a, n - 1) && a[n - 1] >= 0 && p < n - 1 && a[p] >= 0
    requires forall k :: p < k < n - 1 ==> a[k] < 0
    ensures FitsCompress(a, n) <==> a[n - 1] - a[p] >= n - 1 - p
  {
    if a[n - 1] - a[p] >= n - 1 - p {
      forall i | 0 <= i < n - 1 && a[i] >= 0 ensures a[n - 1] - a[i] >= n - 1 - i {
        assert i < p ==> a[p] - a[i] >= p - i;
      }
    }
  }

  lemma {:induction false} ExpandFound(a: seq<int>, n: nat)
    requires n <= |a|
    ensures var st := ExpandAfter(a, n);
            && (st.fits <==> FitsExpand(a, n))
            && (st.fits ==> AtLast(a, n, st))
  {
    if n > 0 {
      ExpandFound(a, n - 1);
    }
  }

  /** All indexes so far are at most the last one. */
  lemma BelowLast(a: seq<int>, n: nat, k: nat)
    requires k < n <= |a| && ExpandAfter(a, n).fits
    ensures a[k] <= ExpandAfter(a, n).lasti && ExpandAfter(a, n).lasti >= -1
  {
    ExpandFound(a, n);
  }

  lemma {:induction false} ExpandGaps(a: seq<int>, n: nat)
    requires n <= |a| && ExpandAfter(a, n).fits
    ensures var st := ExpandAfter(a, n);
            if st.addz2 then exists v :: 0 <= v < st.lasti && !Uses(a, n, v)
            else forall v :: 0 <= v <= st.lasti ==> Uses(a, n, v)
  {
    if n > 0 {
      ExpandGaps(a, n - 1);
      var prev, ix := ExpandAfter(a, n - 1), a[n - 1];
      if prev.addz2 {
        var v :| 0 <= v < prev.lasti && !Uses(a, n - 1, v);
        assert !Uses(a, n, v);
      } else if ix >= 0 && ix - prev.lasti > 1 {
        assert !Uses(a, n, prev.lasti + 1) by {
          forall k | 0 <= k < n - 1 ensures a[k] != prev.lasti + 1 { BelowLast(a, n - 1, k); }
        }
        ExpandFound(a, n - 1);
      } else {
        forall v | 0 <= v <= ExpandAfter(a, n).lasti ensures Uses(a, n, v) {
          if v <= prev.lasti { assert Uses(a, n - 1, v); } else { assert a[n - 1] == v; }
        }
      }
    }
  }

  lemma ExpandGapFound(a: seq<int>, n: nat)
    requires n <= |a| && ExpandAfter(a, n).fits
    ensures ExpandAfter(a, n).addz2 <==> SkipsSource(a, n)
  {
    ExpandGaps(a, n);
    ExpandFound(a, n);
    var st := ExpandAfter(a, n);
    if st.addz2 {
      var v :| 0 <= v < st.lasti && !Uses(a, n, v);
      assert a[st.lastp] > v;
    } else {
      forall j, v | 0 <= j < n && 0 <= v < a[j] ensures Uses(a, n, v) { BelowLast(a, n, j); }
    }
  }

  // ----- 128-bit lanes

  datatype Lanes = Lanes(crossLane: bool, samePattern: bool, pattern: seq<int>)

  function LanesStep(st: Lanes, laneSize: nat, i: nat, ix: int): (r: Lanes)
    requires laneSize > 0 && |st.pattern| == laneSize
    ensures |r.pattern| == laneSize
  {
    LaneAndColumn(i, laneSize);
    var lane := i / laneSize;
    var st0 := if lane == 0 then st.(pattern := st.pattern[i := ix]) else st;
    var st1 := if ix >= 0 && ix / laneSize != lane then st0.(crossLane := true) else st0;
    if lane == 0 || ix < 0 then st1 else
    var j1, jx := i - lane * laneSize, ix - lane * laneSize;
    var st2 := if jx < 0 || jx >= laneSize then st1.(samePattern := false) else st1;
    if st2.pattern[j1] < 0 then st2.(pattern := st2.pattern[j1 := jx])
    else if st2.pattern[j1] != jx then st2.(samePattern := false)
    else st2
  }

  function LanesAfter(a: seq<int>, n: nat, laneSize: nat): (st: Lanes)
    requires n <= |a| && laneSize > 0
    ensures |st.pattern| == laneSize
  {
    if n == 0 then Lanes(false, true, seq(laneSize, _ => 0))
    else LanesStep(LanesAfter(a, n - 1, laneSize), laneSize, n - 1, a[n - 1])
  }

  /** The pattern that the lanes share. Column p of it is what the lanes ask for in their
      position p, or the first lane's negative index if no lane asks for anything there. */
  ghost predicate IsLanePattern(a: seq<int>, n: nat, laneSize: nat, lp: seq<int>)
    requires n <= |a| && laneSize > 0
  {
    && |lp| == laneSize
    && (forall i :: 0 <= i < n && a[i] >= 0 ==> lp[Column(i, laneSize)] == Column(a[i], laneSize))
    && (forall p :: 0 <= p < laneSize && p < n && lp[p] >= 0 ==> AskedFor(a, n, laneSize, p))
    && (forall p :: 0 <= p < laneSize && p < n && lp[p] < 0 ==> lp[p] == a[p])
  }

  /** Some lane asks for an element in column p. */
  predicate AskedFor(a: seq<int>, n: nat, laneSize: nat, p: int)
    requires n <= |a| && laneSize > 0
  {
    exists i :: 0 <= i < n && Column(i, laneSize) == p && a[i] >= 0
  }

  lemma StepCrosses(st: Lanes, laneSize: nat, i: nat, ix: int)
    requires laneSize > 0 && |st.pattern| == laneSize
    ensures LanesStep(st, laneSize, i, ix).crossLane <==>
      st.crossLane || (ix >= 0 && Lane(ix, laneSize) != Lane(i, laneSize))
  {
    LaneAndColumn(i, laneSize);
    if ix >= 0 {
      LaneAndColumn(ix, laneSize);
    }
  }

  lemma {:induction false} CrossingFound(a: seq<int>, n: nat, laneSize: nat)
    requires n <= |a| && laneSize > 0
    ensures LanesAfter(a, n, laneSize).crossLane <==> CrossesLane(a, n, laneSize)
  {
    if n > 0 {
      CrossingFound(a, n - 1, laneSize);
      StepCrosses(LanesAfter(a, n - 1, laneSize), laneSize, n - 1, a[n - 1]);
    }
  }

  /** A step that does not cross lanes, in terms of columns. */
  lemma LanesStepInColumns(st: Lanes, laneSize: nat, i: nat, ix: int)
    requires laneSize > 0 && |st.pattern| == laneSize && (ix >= 0 ==> Lane(ix, laneSize) == Lane(i, laneSize))
    ensures var r, p := LanesStep(st, laneSize, i, ix), Column(i, laneSize);
            if i < laneSize then i == p && r.samePattern == st.samePattern && r.pattern == st.pattern[i := ix]
            else if ix < 0 then r.samePattern == st.samePattern && r.pattern == st.pattern
            else if st.pattern[p] < 0 then
              r.samePattern == st.samePattern && r.pattern == st.pattern[p := Column(ix, laneSize)]
            else r.samePattern == (st.samePattern && st.pattern[p] == Column(ix, laneSize)) && r.pattern == st.pattern
  {
    LaneAndColumn(i, laneSize);
    if ix >= 0 {
      LaneAndColumn(ix, laneSize);
    }
  }

  lemma {:induction false} SharedAt(a: seq<int>, n: nat, laneSize: nat, k: nat)
    requires k < n <= |a| && laneSize > 0 && !CrossesLane(a, n, laneSize)
    requires LanesAfter(a, n, laneSize).samePattern && a[k] >= 0
    ensures LanesAfter(a, n, laneSize).pattern[Column(k, laneSize)] == Column(a[k], laneSize)
  {
    var prev, ix := LanesAfter(a, n - 1, laneSize), a[n - 1];
    assert ix >= 0 ==> Lane(ix, laneSize) == Lane(n - 1, laneSize);
    LanesStepInColumns(prev, laneSize, n - 1, ix);
    LaneAndColumn(k, laneSize);
    if k == n - 1 {
      LaneAndColumn(ix, laneSize);
    } else {
      SharedAt(a, n - 1, laneSize, k);
    }
  }

  lemma {:induction false} PatternAt(a: seq<int>, n: nat, laneSize: nat, p: nat)
    requires p < n <= |a| && p < laneSize && !CrossesLane(a, n, laneSize)
    ensures var v := LanesAfter(a, n, laneSize).pattern[p];
            if v >= 0 then AskedFor(a, n, laneSize, p) else v == a[p]
  {
    var prev, ix := LanesAfter(a, n - 1, laneSize), a[n - 1];
    assert ix >= 0 ==> Lane(ix, laneSize) == Lane(n - 1, laneSize);
    LanesStepInColumns(prev, laneSize, n - 1, ix);
    if p < n - 1 {
      PatternAt(a, n - 1, laneSize, p);
    }
  }

  lemma PatternIsShared(a: seq<int>, n: nat, laneSize: nat)
    requires n <= |a| && laneSize > 0 && !CrossesLane(a, n, laneSize)
    requires LanesAfter(a, n, laneSize).samePattern
    ensures IsLanePattern(a, n, laneSize, LanesAfter(a, n, laneSize).pattern)
  {
    forall k | 0 <= k < n && a[k] >= 0
      ensures LanesAfter(a, n, laneSize).pattern[Column(k, laneSize)] == Column(a[k], laneSize)
    {
      SharedAt(a, n, laneSize, k);
    }
    forall p | 0 <= p < laneSize && p < n
      ensures var v := LanesAfter(a, n, laneSize).pattern[p];
              if v >= 0 then AskedFor(a, n, laneSize, p) else v == a[p]
    {
      PatternAt(a, n, laneSize, p);
    }
  }

  lemma {:induction false} PatternFound(a: seq<int>, n: nat, laneSize: nat)
    requires n <= |a| && laneSize > 0 && !CrossesLane(a, n, laneSize)
    ensures LanesAfter(a, n, laneSize).samePattern <==> LanesAgree(a, n, laneSize)
  {
    if LanesAfter(a, n, laneSize).samePattern {
      PatternIsShared(a, n, laneSize);
    } else {
      var prev, ix, p := LanesAfter(a, n - 1, laneSize), a[n - 1], Column(n - 1, laneSize);
      assert !CrossesLane(a, n - 1, laneSize) && (ix >= 0 ==> Lane(ix, laneSize) == Lane(n - 1, laneSize));
      LanesStepInColumns(prev, laneSize, n - 1, ix);
      if prev.samePattern {
        PatternIsShared(a, n - 1, laneSize);
        assert AskedFor(a, n - 1, laneSize, p);
      } else {
        PatternFound(a, n - 1, laneSize);
      }
    }
  }
}
