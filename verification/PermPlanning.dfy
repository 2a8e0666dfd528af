/** Planning of permutes: the plan that perm_flags finds for an index list. */
module PermPlanning {
  // The analysis of the index list is turned into a plan: the flag bits, the rotate count and the
  // shuffle pattern of the packed 64-bit word.

  import opened IndexLists
  import opened PermScan

  datatype PermPlan = PermPlan(
    zeroing: bool, perm: bool, allzero: bool, largeblock: bool, addz: bool, addz2: bool,
    crossLane: bool, samePattern: bool, punpckh: bool, punpckl: bool,
    rotate: bool, shright: bool, shleft: bool, rotateBig: bool, broadcast: bool,
    zext: bool, compress: bool, expand: bool, outOfRange: bool,
    rotCount: nat, ipattern: nat)
  {
    /** The plan word shifted right by perm_rot_count: the pattern lies above the count. */
    function AboveFlags(): nat {
      rotCount + 256 * ipattern
    }
  }

  /** How far the source lies to the right of the destination, around a circle of n. */
  function Rotation(ix: nat, i: nat, n: nat): (rot: nat)
    requires ix < n && i < n
    ensures rot < n
  {
    if ix >= i then ix - i else ix + n - i
  }

  lemma RotationIsRemainder(ix: nat, i: nat, n: nat)
    requires ix < n && i < n
    ensures Rotation(ix, i, n) == (ix + n - i) % n
  {
    if ix >= i {
      DivisionIsUnique(ix + n - i, 1, ix - i, n);
    } else {
      DivisionIsUnique(ix + n - i, 0, ix + n - i, n);
    }
  }

  // ----- what the lanes have in common, in terms of the index list

  /** Within its lane, every element comes from rot places to the right. */
  ghost predicate LanesRotateBy(a: seq<int>, laneSize: nat, rot: nat)
    requires laneSize > 0
  {
    forall i :: 0 <= i < |a| && a[i] >= 0 ==> Rotation(Column(a[i], laneSize), Column(i, laneSize), laneSize) == rot
  }

  /** Every element comes from rot places to the right, around a source of n elements. */
  ghost predicate RotatesBy(a: seq<int>, n: nat, rot: nat)
    requires InRange(a, n) && |a| <= n
  {
    forall i :: 0 <= i < |a| && a[i] >= 0 && ValidIndex(a[i], n) ==> Rotation(a[i], i, n) == rot
  }

  ghost predicate FitsBigRotation(a: seq<int>, n: nat)
    requires InRange(a, n) && |a| <= n
  {
    exists rot :: RotatesBy(a, n, rot)
  }

  ghost predicate FitsRotation(a: seq<int>, laneSize: nat)
    requires laneSize > 0
  {
    exists rot :: LanesRotateBy(a, laneSize, rot)
  }

  /** Columns lo to hi ask for nothing. */
  ghost predicate ColumnsFree(a: seq<int>, laneSize: nat, lo: int, hi: int)
    requires laneSize > 0
  {
    forall i :: 0 <= i < |a| && lo <= Column(i, laneSize) < hi ==> a[i] < 0
  }

  /** Within its lane, every element comes from where an unpack instruction would take it. */
  ghost predicate LanesUnpack(a: seq<int>, laneSize: nat, start: nat)
    requires laneSize > 0
  {
    forall i :: 0 <= i < |a| && a[i] >= 0 ==> Column(a[i], laneSize) == start + Column(i, laneSize) / 2
  }

  // ----- loops over the lane pattern

  method FitRotation(lp: seq<int>) returns (rot: nat, fit: bool)
    requires 0 < |lp| <= 64 && forall i :: 0 <= i < |lp| ==> lp[i] < |lp|
    ensures rot < |lp|
    ensures fit ==> forall i :: 0 <= i < |lp| && lp[i] >= 0 ==> Rotation(lp[i], i, |lp|) == rot
    ensures !fit ==> exists i, j :: 0 <= i < |lp| && 0 <= j < |lp| && lp[i] >= 0 && lp[j] >= 0 &&
                                    Rotation(lp[i], i, |lp|) != Rotation(lp[j], j, |lp|)
  {
    var laneSize := |lp|;
    rot, fit := 999, true;
    ghost var first := 0;
    for i := 0 to laneSize
      invariant rot == 999 ==> fit && forall k :: 0 <= k < i ==> lp[k] < 0
      invariant rot != 999 ==> first < i && lp[first] >= 0 && rot == Rotation(lp[first], first, laneSize)
      invariant fit ==> forall k :: 0 <= k < i && lp[k] >= 0 ==> Rotation(lp[k], k, laneSize) == rot
      invariant !fit ==> exists k :: 0 <= k < i && lp[k] >= 0 && rot != Rotation(lp[k], k, laneSize)
    {
      if lp[i] >= 0 {
        var rot1 := (lp[i] + laneSize - i) % laneSize;
        RotationIsRemainder(lp[i], i, laneSize);
        if rot == 999 {
          rot, first := rot1, i;
        } else if rot != rot1 {
          fit := false;
        }
      }
    }
    if rot < laneSize { DivisionIsUnique(rot, 0, rot, laneSize); }
    rot := rot % laneSize;
  }

  method WantsAny(lp: seq<int>, lo: nat, hi: nat) returns (wanted: bool)
    requires lo <= hi <= |lp|
    ensures wanted <==> exists i :: lo <= i < hi && lp[i] >= 0
  {
    wanted := false;
    for i := lo to hi
      invariant wanted <==> exists k :: lo <= k < i && lp[k] >= 0
    {
      if lp[i] >= 0 { wanted := true; }
    }
  }

  method ZeroesAny(lp: seq<int>, lo: nat, hi: nat) returns (zeroed: bool)
    requires lo <= hi <= |lp|
    ensures zeroed <==> exists i :: lo <= i < hi && lp[i] == -1
  {
    zeroed := false;
    for i := lo to hi
      invariant zeroed <==> exists k :: lo <= k < i && lp[k] == -1
    {
      if lp[i] == -1 { zeroed := true; }
    }
  }

  method FitUnpack(lp: seq<int>, start: nat) returns (fit: bool)
    ensures fit <==> forall i :: 0 <= i < |lp| && lp[i] >= 0 ==> lp[i] == start + i / 2
  {
    fit := true;
    var j2 := start;
    for i := 0 to |lp|
      invariant j2 == start + i / 2
      invariant fit <==> forall k :: 0 <= k < i && lp[k] >= 0 ==> lp[k] == start + k / 2
    {
      if lp[i] >= 0 && lp[i] != j2 { fit := false; }
      if i % 2 == 1 { j2 := j2 + 1; }
    }
  }

  /** The fields of a pshufd pattern: one per 4-byte element, two per 8-byte element. */
  function PshufdField(laneSize: nat, ix: int): nat {
    if laneSize == 4 then ix % 4 else ix % 2 * 10 + 4
  }

  function PshufdShift(laneSize: nat, i: nat): nat {
    if i == 0 then 1
    else if laneSize == 4 then (if i == 1 then 4 else if i == 2 then 16 else 64)
    else 16
  }

  function PackedFields(lp: seq<int>, n: nat): nat
    requires n <= |lp|
  {
    if n == 0 then 0 else PackedFields(lp, n - 1) + PshufdField(|lp|, lp[n - 1]) * PshufdShift(|lp|, n - 1)
  }

  lemma Fields(x0: nat, x1: nat, x2: nat, x3: nat)
    requires x0 < 4 && x1 < 4 && x2 < 4 && x3 < 4
    ensures var p := x0 + 4 * x1 + 16 * x2 + 64 * x3;
            p < 256 && Field2(p, 0) == x0 && Field2(p, 1) == x1 && Field2(p, 2) == x2 && Field2(p, 3) == x3
  {
    var p := x0 + 4 * x1 + 16 * x2 + 64 * x3;
    assert p / 4 == x1 + 4 * x2 + 16 * x3;
    assert p / 16 == x2 + 4 * x3;
    assert p / 64 == x3;
  }

  /** The packed pattern can be taken apart again. */
  lemma PackedFieldsDecode(lp: seq<int>)
    requires |lp| == 2 || |lp| == 4
    ensures PackedFields(lp, |lp|) < 256
    ensures |lp| == 4 ==> forall i :: 0 <= i < 4 ==> Field2(PackedFields(lp, 4), i) == lp[i] % 4
    ensures |lp| == 2 ==> forall i :: 0 <= i < 2 ==>
      Field2(PackedFields(lp, 2), 2 * i) == lp[i] % 2 * 2 && Field2(PackedFields(lp, 2), 2 * i + 1) == lp[i] % 2 * 2 + 1
  {
    if |lp| == 4 {
      Fields(lp[0] % 4, lp[1] % 4, lp[2] % 4, lp[3] % 4);
      assert PackedFields(lp, 3) == PackedFields(lp, 2) + lp[2] % 4 * 16;
    } else {
      var x, y := lp[0] % 2, lp[1] % 2;
      Fields(2 * x, 2 * x + 1, 2 * y, 2 * y + 1);
      assert PackedFields(lp, 1) == x * 10 + 4;
    }
  }

  lemma PackedNumber(lp: seq<int>)
    ensures |lp| == 4 ==>
      PackedFields(lp, 4) == lp[0] % 4 + 4 * (lp[1] % 4) + 16 * (lp[2] % 4) + 64 * (lp[3] % 4)
    ensures |lp| == 2 ==> PackedFields(lp, 2) == lp[0] % 2 * 10 + 4 + 16 * (lp[1] % 2 * 10 + 4)
  {
    if |lp| == 4 {
      assert PackedFields(lp, 3) == PackedFields(lp, 2) + lp[2] % 4 * 16;
      assert PackedFields(lp, 1) == lp[0] % 4;
    } else if |lp| == 2 {
      assert PackedFields(lp, 1) == lp[0] % 2 * 10 + 4;
    }
  }

  method PackPattern(lp: seq<int>) returns (p: nat)
    ensures p == PackedFields(lp, |lp|)
  {
    p := 0;
    for i := 0 to |lp|
      invariant p == PackedFields(lp, i)
    {
      // each field lies above the earlier ones, so that OR and addition are the same
      p := p + PshufdField(|lp|, lp[i]) * PshufdShift(|lp|, i);
    }
  }

  method FitBigRotation(a: seq<int>, n: nat) returns (rot: nat)
    requires 0 < |a| <= n <= 128 && !AllNegative(a) && InRange(a, n)
    ensures rot < n ==> RotatesBy(a, n, rot)
    ensures rot < n <==> FitsBigRotation(a, n)
  {
    var N := |a|;
    rot := 999;
    ghost var first := 0;
    var i := 0;
    while i < N
      invariant 0 <= i <= N
      invariant rot == 999 ==> forall k :: 0 <= k < i ==> a[k] < 0
      invariant rot != 999 ==> first < i && 0 <= a[first] < n && rot == Rotation(a[first], first, n)
      invariant rot != 999 ==>
        forall k :: 0 <= k < i && a[k] >= 0 && ValidIndex(a[k], n) ==> Rotation(a[k], k, n) == rot
    {
      var ix := a[i];
      if ix >= 0 {
        assert ValidIndex(ix, n);
        var rot2 := (ix + n - i) % n;
        RotationIsRemainder(ix, i, n);
        if rot == 999 {
          rot, first := rot2, i;
        } else if rot != rot2 {
          forall m ensures !RotatesBy(a, n, m) {
            assert Rotation(a[first], first, n) != Rotation(a[i], i, n);
          }
          rot := 1000;
          break;
        }
      }
      i := i + 1;
    }
  }

  // ----- the pass over the index list

  datatype Scan = Scan(basics: Basics, blocks: Blocks, broadc: int, lanes: Lanes, zext: Zext, compress: Run,
                       expand: Run)

  function ScanOf(laneSize: nat, a: seq<int>, n: nat): Scan
    requires n <= |a| && |a| % 2 == 0 && laneSize > 0
  {
    Scan(BasicsAfter(a, n), BlocksAfter(a, n), BroadcastAfter(a, n), LanesAfter(a, n, laneSize),
         ZextAfter(a, n), CompressAfter(a, n), ExpandAfter(a, n))
  }

  method ScanIndexes(laneSize: nat, a: seq<int>) returns (s: Scan)
    requires |a| % 2 == 0 && laneSize > 0
    ensures s == ScanOf(laneSize, a, |a|)
  {
    var N := |a|;
    var basics, blocks, broadc := Basics(false, false, true, false), Blocks(true, false), 999;
    var lanes := Lanes(false, true, seq(laneSize, _ => 0));
    var zext, compress, expand := Zext(true, false), Run(true, false, -1, -1), Run(true, false, -1, -1);
    for i := 0 to N
      invariant |lanes.pattern| == laneSize
      invariant Scan(basics, blocks, broadc, lanes, zext, compress, expand) == ScanOf(laneSize, a, i)
    {
      var ix := a[i];
      basics := BasicsStep(basics, N, i, ix);
      broadc := BroadcastStep(broadc, ix);
      blocks := BlocksStep(blocks, a, i);
      lanes := LanesStep(lanes, laneSize, i, ix);
      zext := ZextStep(zext, i, ix);
      compress := CompressStep(compress, i, ix);
      expand := ExpandStep(expand, i, ix);
    }
    s := Scan(basics, blocks, broadc, lanes, zext, compress, expand);
  }

  ghost predicate BasicsFoundIn(a: seq<int>, st: Basics) {
    && (st.outOfRange <==> !InRange(a, |a|))
    && (st.zeroing <==> HasZero(a))
    && (st.allzero <==> AllNegative(a))
    && (st.perm <==> Moves(a))
  }

  ghost predicate BroadcastFoundIn(a: seq<int>, broadc: int) {
    && 0 <= broadc
    && (broadc < 999 <==> SameSource(a))
    && (broadc < 999 ==> broadc < |a| && forall i :: 0 <= i < |a| && a[i] >= 0 ==> a[i] == broadc)
  }

  ghost predicate LanesFoundIn(a: seq<int>, laneSize: nat, st: Lanes)
    requires laneSize > 0
  {
    && (st.crossLane <==> CrossesLane(a, |a|, laneSize))
    && (!st.crossLane ==> (st.samePattern <==> LanesAgree(a, |a|, laneSize)))
    && (!st.crossLane && st.samePattern ==> IsLanePattern(a, |a|, laneSize, st.pattern))
    && (laneSize == |a| ==> st.pattern == a)
  }

  ghost predicate SpreadFound(a: seq<int>, zext: Zext, compress: Run, expand: Run) {
    && (zext.fits <==> FitsZeroExtension(a))
    && (zext.addz2 <==> ZeroAtEven(a))
    && (compress.fits <==> FitsCompress(a, |a|))
    && (compress.fits ==> AtLast(a, |a|, compress))
    && (compress.fits && !compress.addz2 ==> !ZeroBeforeLast(a, |a|))
    && (expand.fits <==> FitsExpand(a, |a|))
    && (expand.fits ==> AtLast(a, |a|, expand))
    && (expand.fits ==> (expand.addz2 <==> SkipsSource(a, |a|)))
  }

  /** What the pass finds out. */
  ghost predicate Found(laneSize: nat, a: seq<int>, s: Scan)
    requires |a| % 2 == 0 && laneSize > 0
  {
    && BasicsFoundIn(a, s.basics)
    && (s.blocks.largeblock <==> FitsLargeBlock(a))
    && (s.blocks.addz <==> SplitsPair(a))
    && LanesFoundIn(a, laneSize, s.lanes)
    && SpreadFound(a, s.zext, s.compress, s.expand)
    && (InRange(a, |a|) && !AllNegative(a) ==> BroadcastFoundIn(a, s.broadc))
  }

  lemma BasicsMeaning(a: seq<int>)
    ensures BasicsFoundIn(a, BasicsAfter(a, |a|))
  {
    BasicsFound(a, |a|);
    assert a[..|a|] == a;
  }

  lemma BroadcastMeaning(a: seq<int>)
    requires |a| <= 64 && InRange(a, |a|) && !AllNegative(a)
    ensures BroadcastFoundIn(a, BroadcastAfter(a, |a|))
  {
    BroadcastFound(a, |a|);
    assert a[..|a|] == a;
  }

  lemma LanesMeaning(a: seq<int>, laneSize: nat)
    requires laneSize > 0
    ensures LanesFoundIn(a, laneSize, LanesAfter(a, |a|, laneSize))
  {
    CrossingFound(a, |a|, laneSize);
    if !CrossesLane(a, |a|, laneSize) {
      PatternFound(a, |a|, laneSize);
      if LanesAfter(a, |a|, laneSize).samePattern {
        PatternIsShared(a, |a|, laneSize);
      }
    }
    if laneSize == |a| {
      OneLanePattern(a, |a|);
    }
  }

  lemma SpreadMeaning(a: seq<int>)
    ensures SpreadFound(a, ZextAfter(a, |a|), CompressAfter(a, |a|), ExpandAfter(a, |a|))
  {
    assert a[..|a|] == a;
    ZextFound(a, |a|);
    CompressFound(a, |a|);
    ExpandFound(a, |a|);
    if ExpandAfter(a, |a|).fits {
      ExpandGapFound(a, |a|);
    }
  }

  lemma ScanMeaning(laneSize: nat, a: seq<int>)
    requires |a| % 2 == 0 && |a| <= 64 && laneSize > 0
    ensures Found(laneSize, a, ScanOf(laneSize, a, |a|))
  {
    BasicsMeaning(a);
    BlocksMeaning(a);
    LanesMeaning(a, laneSize);
    SpreadMeaning(a);
    if InRange(a, |a|) && !AllNegative(a) {
      BroadcastMeaning(a);
    }
  }

  // ----- the plan

  predicate ZeroAtEven(a: seq<int>) {
    exists i :: 0 <= i < |a| && i % 2 == 0 && a[i] == -1
  }

  ghost predicate BasicsPlanned(laneSize: nat, a: seq<int>, r: PermPlan)
    requires |a| % 2 == 0 && laneSize > 0
  {
    && !r.outOfRange
    && (r.zeroing <==> HasZero(a))
    && (r.allzero <==> AllNegative(a))
    && (r.perm <==> Moves(a))
    && (r.largeblock <==> FitsLargeBlock(a))
    && (r.crossLane <==> CrossesLane(a, |a|, laneSize))
    && (r.samePattern <==> !r.crossLane && LanesAgree(a, |a|, laneSize))
    && (r.largeblock && SplitsPair(a) ==> r.addz)
    && (!r.perm && r.addz ==> SplitsPair(a))
  }

  /** Zero extension, compression and expansion. */
  ghost predicate SpreadPlanned(a: seq<int>, r: PermPlan) {
    && (r.zext <==> FitsZeroExtension(a))
    && (r.compress <==> !r.zext && FitsCompress(a, |a|))
    && (r.expand <==> !r.zext && !r.compress && FitsExpand(a, |a|))
    && (r.addz2 <==> (r.zext && ZeroAtEven(a)) || (r.compress && ZeroBeforeLast(a, |a|)) ||
                     (r.expand && SkipsSource(a, |a|) && ZeroBeforeLast(a, |a|)))
  }

  /** Rotation and shifts within lanes. A count is a number of bytes. */
  ghost predicate RotationPlanned(laneSize: nat, instrset: nat, a: seq<int>, r: PermPlan)
    requires laneSize > 0
  {
    if FitsRotation(a, laneSize) then
      var rot := Elements(laneSize, r.rotCount);
      && (r.rotate <==> instrset >= 4)
      && (r.shleft <==> ColumnsFree(a, laneSize, 0, laneSize - rot))
      && (r.shright <==> ColumnsFree(a, laneSize, laneSize - rot, laneSize))
      && rot < laneSize && r.rotCount == Bytes(laneSize, rot) && LanesRotateBy(a, laneSize, rot)
    else
      !r.rotate && !r.shleft && !r.shright
  }

  /** No lane asks for an element in column p, and the first lane asks for zero there. A zero that
      only another lane asks for is forgotten. */
  ghost predicate ZeroColumn(a: seq<int>, laneSize: nat, p: int)
    requires laneSize > 0
  {
    0 <= p < laneSize <= |a| && a[p] == -1 && !AskedFor(a, |a|, laneSize, p)
  }

  /** Extra zeroing is planned if and only if a larger block leaves a -1 unzeroed, or a shift
      leaves such a column unzeroed. */
  ghost predicate ZeroingPlanned(laneSize: nat, a: seq<int>, r: PermPlan)
    requires |a| % 2 == 0 && laneSize > 0
  {
    var rot := Elements(laneSize, r.rotCount);
    r.addz <==>
      || (r.largeblock && SplitsPair(a))
      || (r.shleft && exists p :: laneSize - rot <= p < laneSize && ZeroColumn(a, laneSize, p))
      || (r.shright && exists p :: 0 <= p < laneSize - rot && ZeroColumn(a, laneSize, p))
  }

  /** Two lanes of four elements that come from one place to the right. In the second lane, the
      second element is to be zero. */
  function ShiftedLanes(): (a: seq<int>)
    ensures |a| == 8
  {
    [1, V_DC, 3, V_DC, 5, -1, 7, V_DC]
  }

  lemma TwoLanesOfFour(i: nat)
    requires i < 8
    ensures Lane(i, 4) == (if i < 4 then 0 else 1) && Column(i, 4) == if i < 4 then i else i - 4
  {
  }

  lemma ShiftedLanesStay()
    ensures !CrossesLane(ShiftedLanes(), 8, 4) && LanesAgree(ShiftedLanes(), 8, 4)
  {
    var a := ShiftedLanes();
    forall i | 0 <= i < 8 && a[i] >= 0
      ensures Lane(a[i], 4) == Lane(i, 4) && Column(a[i], 4) == Column(i, 4) + 1
    {
      TwoLanesOfFour(i);
      TwoLanesOfFour(a[i]);
    }
  }

  lemma ShiftedLanesRotate(rot: nat)
    ensures LanesRotateBy(ShiftedLanes(), 4, rot) <==> rot == 1
  {
    var a := ShiftedLanes();
    forall i | 0 <= i < 8 && a[i] >= 0 ensures Rotation(Column(a[i], 4), Column(i, 4), 4) == 1 {
      TwoLanesOfFour(i);
      TwoLanesOfFour(a[i]);
    }
    assert a[0] >= 0;
  }

  lemma ShiftedLanesFree()
    ensures ColumnsFree(ShiftedLanes(), 4, 3, 4) && !ColumnsFree(ShiftedLanes(), 4, 0, 3)
    ensures !FitsLargeBlock(ShiftedLanes()) && forall p :: !ZeroColumn(ShiftedLanes(), 4, p)
  {
    var a := ShiftedLanes();
    forall i | 0 <= i < 8 && 3 <= Column(i, 4) ensures a[i] < 0 {
      TwoLanesOfFour(i);
    }
    assert a[0] >= 0 && Column(0, 4) == 0;
    assert First(a, 0) == 1 && !PairFits(First(a, 0), Second(a, 0));
  }

  /** A zero that only the second lane asks for is forgotten: a right shift fits, it puts an
      element where that zero should be, and no extra zeroing is planned. */
  lemma ZeroForgotten(instrset: nat, r: PermPlan)
    requires r.perm && Planned(2, 4, instrset, ShiftedLanes(), r)
    ensures r.samePattern && r.shright && r.rotCount == 4 && !r.addz
  {
    ShiftedLanesStay();
    ShiftedLanesRotate(1);
    ShiftedLanesRotate(Elements(4, r.rotCount));
    ShiftedLanesFree();
  }

  /** With one lane, these are the -1 positions. */
  lemma ZeroColumnsOfOneLane(a: seq<int>, p: nat)
    requires p < |a|
    ensures ZeroColumn(a, |a|, p) <==> a[p] == -1
  {
    assert forall i :: 0 <= i < |a| ==> Column(i, |a|) == i;
  }

  /** Unpack instructions and pshufd. */
  ghost predicate PatternPlanned(laneSize: nat, a: seq<int>, r: PermPlan)
    requires laneSize > 0
  {
    && (r.punpckh <==> LanesUnpack(a, laneSize, laneSize / 2))
    && (r.punpckl <==> LanesUnpack(a, laneSize, 0))
    && FieldsPlanned(laneSize, a, r.ipattern)
    && (laneSize > 4 ==> r.ipattern == 0)
  }

  /** The fields of the shuffle pattern name the source of every element within its lane. */
  ghost predicate FieldsPlanned(laneSize: nat, a: seq<int>, pattern: nat) {
    && pattern < 256
    && (laneSize == 4 ==> forall i :: 0 <= i < |a| && a[i] >= 0 ==> Field2(pattern, i % 4) == a[i] % 4)
    && (laneSize == 2 ==> forall i :: 0 <= i < |a| && a[i] >= 0 ==>
          Field2(pattern, 2 * (i % 2)) == a[i] % 2 * 2 && Field2(pattern, 2 * (i % 2) + 1) == a[i] % 2 * 2 + 1)
  }

  ghost predicate AcrossLanesPlanned(lanes: nat, instrset: nat, a: seq<int>, r: PermPlan)
    requires InRange(a, |a|)
  {
    && (r.rotateBig <==> instrset >= 7 && !r.samePattern && lanes > 1 && FitsBigRotation(a, |a|))
    && (r.rotateBig ==> r.rotCount < |a| && RotatesBy(a, |a|, r.rotCount))
    && (r.broadcast <==> SameSource(a) && !r.rotate && !r.shleft && !r.shright && !r.rotateBig)
    && (r.broadcast ==> r.rotCount < |a| && forall i :: 0 <= i < |a| && a[i] >= 0 ==> a[i] == r.rotCount)
    && (!r.samePattern ==> !r.rotate && !r.shleft && !r.shright && !r.punpckh && !r.punpckl && r.ipattern == 0)
  }

  ghost predicate Planned(lanes: nat, laneSize: nat, instrset: nat, a: seq<int>, r: PermPlan)
    requires |a| % 2 == 0 && laneSize > 0 && InRange(a, |a|)
  {
    && BasicsPlanned(laneSize, a, r)
    && (r.perm ==>
          && SpreadPlanned(a, r)
          && AcrossLanesPlanned(lanes, instrset, a, r)
          && (r.samePattern ==> RotationPlanned(laneSize, instrset, a, r) && PatternPlanned(laneSize, a, r))
          && ZeroingPlanned(laneSize, a, r)
          && (!r.broadcast && !r.rotateBig && !(r.samePattern && FitsRotation(a, laneSize)) ==> r.rotCount == 0))
    && (!r.perm ==> NothingPlanned(a, r))
  }

  /** The plan of a list that moves nothing. */
  ghost predicate NothingPlanned(a: seq<int>, r: PermPlan)
    requires |a| % 2 == 0
  {
    && (r.addz <==> SplitsPair(a)) && !r.addz2 && !r.punpckh && !r.punpckl
    && !r.rotate && !r.shright && !r.shleft && !r.rotateBig && !r.broadcast && !r.zext && !r.compress && !r.expand
    && r.rotCount == 0 && r.ipattern == 0
  }

  /** The numbers fit in their fields of the plan word: 6 bits for a count, 8 bits for a pattern. */
  predicate FieldsFit(r: PermPlan) {
    r.rotCount < 64 && r.ipattern < 256
  }

  // ----- from the lane pattern to the index list

  lemma PatternRotation(a: seq<int>, laneSize: nat, lp: seq<int>, rot: nat)
    requires 0 < laneSize <= |a| && IsLanePattern(a, |a|, laneSize, lp)
    ensures LanesRotateBy(a, laneSize, rot) <==>
      forall p :: 0 <= p < laneSize && lp[p] >= 0 ==> Rotation(lp[p], p, laneSize) == rot
  {
    if LanesRotateBy(a, laneSize, rot) {
      forall p | 0 <= p < laneSize && lp[p] >= 0 ensures Rotation(lp[p], p, laneSize) == rot {
        assert AskedFor(a, |a|, laneSize, p);
      }
    }
  }

  lemma PatternFree(a: seq<int>, laneSize: nat, lp: seq<int>, lo: nat, hi: nat)
    requires 0 < laneSize <= |a| && IsLanePattern(a, |a|, laneSize, lp) && lo <= hi <= laneSize
    ensures ColumnsFree(a, laneSize, lo, hi) <==> forall p :: lo <= p < hi ==> lp[p] < 0
  {
    if p :| lo <= p < hi && lp[p] >= 0 {
      assert AskedFor(a, |a|, laneSize, p);
    }
  }

  lemma PatternUnpack(a: seq<int>, laneSize: nat, lp: seq<int>, start: nat)
    requires 0 < laneSize <= |a| && IsLanePattern(a, |a|, laneSize, lp)
    ensures LanesUnpack(a, laneSize, start) <==> forall p :: 0 <= p < laneSize && lp[p] >= 0 ==> lp[p] == start + p / 2
  {
    if LanesUnpack(a, laneSize, start) {
      forall p | 0 <= p < laneSize && lp[p] >= 0 ensures lp[p] == start + p / 2 {
        assert AskedFor(a, |a|, laneSize, p);
      }
    }
  }

  /** With a single lane the pattern is the list itself. */
  lemma {:induction false} OneLanePattern(a: seq<int>, n: nat)
    requires n <= |a| && |a| > 0
    ensures forall p :: 0 <= p < n ==> LanesAfter(a, n, |a|).pattern[p] == a[p]
  {
    if n > 0 {
      OneLanePattern(a, n - 1);
      LaneAndColumn(n - 1, |a|);
    }
  }

  /** A list that fits rotation and asks for only one element has only one non-negative column,
      and then it also fits a shift. The plan word has one count: rotation and broadcast
      never both claim it. */
  lemma RotatedBroadcastShifts(a: seq<int>, laneSize: nat, rot: nat)
    requires laneSize > 0 && rot < laneSize && SameSource(a) && LanesRotateBy(a, laneSize, rot)
    ensures ColumnsFree(a, laneSize, 0, laneSize - rot) || ColumnsFree(a, laneSize, laneSize - rot, laneSize)
  {
    if i :| 0 <= i < |a| && a[i] >= 0 {
      var c, x := Column(i, laneSize), Column(a[i], laneSize);
      forall j | 0 <= j < |a| && a[j] >= 0 ensures Column(j, laneSize) == c {
      }
    }
  }

  // ----- planning

  lemma ZeroBefore(a: seq<int>, st: Run)
    requires AtLast(a, |a|, st)
    ensures ZeroBeforeLast(a, |a|) <==> exists i :: 0 <= i < st.lastp && a[i] == -1
  {
    if i :| 0 <= i < st.lastp && a[i] == -1 {
      assert a[st.lastp] >= 0;
    }
  }

  /** The source's loop over the positions before the last one that fitted. */
  method ZeroesBefore(a: seq<int>, st: Run) returns (zeroed: bool)
    requires AtLast(a, |a|, st)
    ensures zeroed <==> ZeroBeforeLast(a, |a|)
  {
    ZeroBefore(a, st);
    if st.lastp < 0 {
      zeroed := false;
    } else {
      zeroed := ZeroesAny(a, 0, st.lastp);
    }
  }

  method PlanSpread(a: seq<int>, zext: Zext, compress: Run, expand: Run, r0: PermPlan) returns (r: PermPlan)
    requires SpreadFound(a, zext, compress, expand)
    requires !r0.zext && !r0.compress && !r0.expand && !r0.addz2
    ensures SpreadPlanned(a, r)
    ensures r == r0.(zext := r.zext, compress := r.compress, expand := r.expand, addz2 := r.addz2)
  {
    var addz2 := false;
    if zext.fits {
      addz2 := zext.addz2;
    } else if compress.fits {
      if compress.addz2 {
        addz2 := ZeroesBefore(a, compress);
      }
    } else if expand.fits {
      if expand.addz2 {
        addz2 := ZeroesBefore(a, expand);
      }
    }
    r := r0.(zext := zext.fits, compress := !zext.fits && compress.fits,
             expand := !zext.fits && !compress.fits && expand.fits, addz2 := addz2);
  }

  /** Rotation and shifts, in terms of the lane pattern. */
  ghost predicate RotationFitted(laneSize: nat, instrset: nat, lp: seq<int>, rot: nat, r: PermPlan)
    requires rot < laneSize == |lp|
  {
    && (forall p :: 0 <= p < laneSize && 0 <= lp[p] < laneSize ==> Rotation(lp[p], p, laneSize) == rot)
    && r.rotCount == Bytes(laneSize, rot)
    && (r.rotate <==> instrset >= 4)
    && (r.shleft <==> forall p :: 0 <= p < laneSize - rot ==> lp[p] < 0)
    && (r.shright <==> forall p :: laneSize - rot <= p < laneSize ==> lp[p] < 0)
  }

  lemma BytesAndBack(laneSize: nat, k: nat)
    requires ValidLane(laneSize)
    requires k < laneSize
    ensures Bytes(laneSize, k) < 16 && Elements(laneSize, Bytes(laneSize, k)) == k
    ensures Bytes(laneSize, k) * laneSize == 16 * k
  {
    LaneSizes(laneSize);
  }

  lemma RotationFits(laneSize: nat, instrset: nat, a: seq<int>, lp: seq<int>, rot: nat, r: PermPlan)
    requires 0 < laneSize <= |a| && IsLanePattern(a, |a|, laneSize, lp)
    requires rot < laneSize && RotationFitted(laneSize, instrset, lp, rot, r)
    requires Elements(laneSize, r.rotCount) == rot
    ensures LanesRotateBy(a, laneSize, rot) && RotationPlanned(laneSize, instrset, a, r)
  {
    PatternRotation(a, laneSize, lp, rot);
    PatternFree(a, laneSize, lp, 0, laneSize - rot);
    PatternFree(a, laneSize, lp, laneSize - rot, laneSize);
  }

  lemma NoRotationFits(laneSize: nat, a: seq<int>, lp: seq<int>, i: nat, j: nat)
    requires 0 < laneSize <= |a| && IsLanePattern(a, |a|, laneSize, lp)
    requires i < laneSize && j < laneSize && lp[i] >= 0 && lp[j] >= 0
    requires Rotation(lp[i], i, laneSize) != Rotation(lp[j], j, laneSize)
    ensures !FitsRotation(a, laneSize)
  {
    forall rot ensures !LanesRotateBy(a, laneSize, rot) {
      PatternRotation(a, laneSize, lp, rot);
    }
  }

  method PlanShifts(laneSize: nat, instrset: nat, lp: seq<int>, rot: nat, r0: PermPlan) returns (r: PermPlan)
    requires rot < laneSize == |lp| && Bytes(laneSize, rot) < 16 && Elements(laneSize, Bytes(laneSize, rot)) == rot
    requires forall p :: 0 <= p < laneSize && 0 <= lp[p] < laneSize ==> Rotation(lp[p], p, laneSize) == rot
    ensures RotationFitted(laneSize, instrset, lp, rot, r)
    ensures r == r0.(rotate := r.rotate, shleft := r.shleft, shright := r.shright, rotCount := r.rotCount,
                     addz := r.addz)
    ensures ShiftZeroing(laneSize, lp, r0, r)
  {
    var wantedLeft := WantsAny(lp, 0, laneSize - rot);
    var zeroedRight := ZeroesAny(lp, laneSize - rot, laneSize);
    var wantedRight := WantsAny(lp, laneSize - rot, laneSize);
    var zeroedLeft := ZeroesAny(lp, 0, laneSize - rot);
    r := r0.(rotate := instrset >= 4, rotCount := Bytes(laneSize, rot) % 16,
             shleft := !wantedLeft, shright := !wantedRight,
             addz := r0.addz || (!wantedLeft && zeroedRight) || (!wantedRight && zeroedLeft));
  }

  method PlanRotation(laneSize: nat, instrset: nat, a: seq<int>, lp: seq<int>, r0: PermPlan) returns (r: PermPlan)
    requires ValidLane(laneSize)
    requires laneSize <= |a| && IsLanePattern(a, |a|, laneSize, lp)
    requires !r0.rotate && !r0.shleft && !r0.shright && r0.rotCount == 0
    ensures RotationPlanned(laneSize, instrset, a, r) && r.rotCount < 16
    ensures r == r0.(rotate := r.rotate, shleft := r.shleft, shright := r.shright, rotCount := r.rotCount,
                     addz := r.addz)
    ensures ShiftZeroing(laneSize, lp, r0, r)
    ensures r.rotCount == 0 || FitsRotation(a, laneSize)
  {
    r := r0;
    var rot, fit := FitRotation(lp);
    if fit {
      BytesAndBack(laneSize, rot);
      r := PlanShifts(laneSize, instrset, lp, rot, r0);
      RotationFits(laneSize, instrset, a, lp, rot, r);
    } else {
      var i, j :| 0 <= i < |lp| && 0 <= j < |lp| && lp[i] >= 0 && lp[j] >= 0 &&
                  Rotation(lp[i], i, |lp|) != Rotation(lp[j], j, |lp|);
      NoRotationFits(laneSize, a, lp, i, j);
    }
  }

  /** Extra zeroing after a shift: a -1 in the part that the shift fills with elements. */
  predicate ShiftZeroing(laneSize: nat, lp: seq<int>, r0: PermPlan, r: PermPlan) {
    var rot := Elements(laneSize, r.rotCount);
    r.addz <==>
      || r0.addz
      || (r.shleft && exists i :: 0 <= i < |lp| && i >= laneSize - rot && lp[i] == -1)
      || (r.shright && exists i :: 0 <= i < |lp| && i < laneSize - rot && lp[i] == -1)
  }

  lemma PatternFields4(a: seq<int>, lp: seq<int>, i: nat)
    requires 4 <= |a| && IsLanePattern(a, |a|, 4, lp) && i < |a| && a[i] >= 0
    ensures Field2(PackedFields(lp, 4), i % 4) == a[i] % 4
  {
    PackedFieldsDecode(lp);
    LaneAndColumn(i, 4);
    LaneAndColumn(a[i], 4);
  }

  lemma PatternFields2(a: seq<int>, lp: seq<int>, i: nat)
    requires 2 <= |a| && IsLanePattern(a, |a|, 2, lp) && i < |a| && a[i] >= 0
    ensures var p := PackedFields(lp, 2);
            Field2(p, 2 * (i % 2)) == a[i] % 2 * 2 && Field2(p, 2 * (i % 2) + 1) == a[i] % 2 * 2 + 1
  {
    PackedFieldsDecode(lp);
    LaneAndColumn(i, 2);
    LaneAndColumn(a[i], 2);
    assert lp[i % 2] == a[i] % 2;
    assert i % 2 == 0 || i % 2 == 1;
  }

  lemma PatternFields(laneSize: nat, a: seq<int>, lp: seq<int>)
    requires 0 < laneSize <= |a| && IsLanePattern(a, |a|, laneSize, lp)
    ensures laneSize == 2 || laneSize == 4 ==> FieldsPlanned(laneSize, a, PackedFields(lp, |lp|))
  {
    if laneSize == 4 {
      PackedFieldsDecode(lp);
      forall i | 0 <= i < |a| && a[i] >= 0 ensures Field2(PackedFields(lp, 4), i % 4) == a[i] % 4 {
        PatternFields4(a, lp, i);
      }
    } else if laneSize == 2 {
      PackedFieldsDecode(lp);
      forall i | 0 <= i < |a| && a[i] >= 0
        ensures var p := PackedFields(lp, 2);
                Field2(p, 2 * (i % 2)) == a[i] % 2 * 2 && Field2(p, 2 * (i % 2) + 1) == a[i] % 2 * 2 + 1
      {
        PatternFields2(a, lp, i);
      }
    }
  }

  method PlanPattern(laneSize: nat, a: seq<int>, lp: seq<int>, r0: PermPlan) returns (r: PermPlan)
    requires 0 < laneSize <= |a| && IsLanePattern(a, |a|, laneSize, lp)
    requires r0.ipattern == 0
    ensures PatternPlanned(laneSize, a, r) && r.ipattern < 256
    ensures r == r0.(punpckh := r.punpckh, punpckl := r.punpckl, ipattern := r.ipattern)
  {
    var punpckh := FitUnpack(lp, laneSize / 2);
    var punpckl := FitUnpack(lp, 0);
    var ipattern := 0;
    if laneSize == 2 || laneSize == 4 {
      ipattern := PackPattern(lp);
      PatternFields(laneSize, a, lp);
      PackedFieldsDecode(lp);
    }
    PatternUnpack(a, laneSize, lp, laneSize / 2);
    PatternUnpack(a, laneSize, lp, 0);
    r := r0.(punpckh := punpckh, punpckl := punpckl, ipattern := ipattern);
  }

  lemma OneLane(a: seq<int>)
    requires |a| > 0 && InRange(a, |a|)
    ensures !CrossesLane(a, |a|, |a|) && LanesAgree(a, |a|, |a|)
  {
    forall i | 0 <= i < |a| && a[i] >= 0 ensures a[i] / |a| == i / |a| && i % |a| == i {
      LaneAndColumn(i, |a|);
      assert ValidIndex(a[i], |a|);
      LaneAndColumn(a[i], |a|);
    }
  }

  lemma ZeroColumns(a: seq<int>, laneSize: nat, lp: seq<int>, p: int)
    requires 0 < laneSize <= |a| && IsLanePattern(a, |a|, laneSize, lp) && 0 <= p < laneSize
    ensures lp[p] == -1 <==> ZeroColumn(a, laneSize, p)
  {
  }

  lemma PatternZeroing(a: seq<int>, laneSize: nat, lp: seq<int>, r0: PermPlan, r: PermPlan)
    requires |a| % 2 == 0 && 0 < laneSize <= |a| && IsLanePattern(a, |a|, laneSize, lp)
    requires ShiftZeroing(laneSize, lp, r0, r)
    requires r0.addz <==> r.largeblock && SplitsPair(a)
    ensures ZeroingPlanned(laneSize, a, r)
  {
    forall p | 0 <= p < laneSize ensures lp[p] == -1 <==> ZeroColumn(a, laneSize, p) {
      ZeroColumns(a, laneSize, lp, p);
    }
  }

  /** The analysis for lists with the same pattern in all lanes. */
  method PlanSamePattern(laneSize: nat, instrset: nat, a: seq<int>, lp: seq<int>, r0: PermPlan) returns (r: PermPlan)
    requires ValidLane(laneSize)
    requires laneSize <= |a| && IsLanePattern(a, |a|, laneSize, lp)
    requires !r0.rotate && !r0.shleft && !r0.shright && r0.rotCount == 0 && r0.ipattern == 0
    ensures RotationPlanned(laneSize, instrset, a, r)
    ensures PatternPlanned(laneSize, a, r)
    ensures FieldsFit(r)
    ensures ShiftZeroing(laneSize, lp, r0, r)
    ensures r == r0.(rotate := r.rotate, shleft := r.shleft, shright := r.shright, rotCount := r.rotCount,
                     addz := r.addz,
                     punpckh := r.punpckh, punpckl := r.punpckl, ipattern := r.ipattern)
    ensures r.rotCount == 0 || FitsRotation(a, laneSize)
  {
    r := PlanRotation(laneSize, instrset, a, lp, r0);
    ghost var r1 := r;
    r := PlanPattern(laneSize, a, lp, r);
    KeepsRotation(laneSize, instrset, a, r1, r);
  }

  lemma KeepsRotation(laneSize: nat, instrset: nat, a: seq<int>, r0: PermPlan, r: PermPlan)
    requires laneSize > 0 && RotationPlanned(laneSize, instrset, a, r0)
    requires r.rotate == r0.rotate && r.shleft == r0.shleft && r.shright == r0.shright && r.rotCount == r0.rotCount
    ensures RotationPlanned(laneSize, instrset, a, r)
  {
  }

  /** If a broadcast is planned, the list does not fit rotation. */
  lemma BroadcastExcludesRotation(laneSize: nat, instrset: nat, a: seq<int>, r: PermPlan)
    requires laneSize > 0 && RotationPlanned(laneSize, instrset, a, r)
    requires SameSource(a) && !r.rotate && !r.shleft && !r.shright
    ensures !FitsRotation(a, laneSize)
  {
    if FitsRotation(a, laneSize) {
      RotatedBroadcastShifts(a, laneSize, Elements(laneSize, r.rotCount));
    }
  }

  lemma KeepsBasics(laneSize: nat, a: seq<int>, r0: PermPlan, r: PermPlan)
    requires |a| % 2 == 0 && laneSize > 0 && BasicsPlanned(laneSize, a, r0) && r0.perm
    requires (r.zeroing, r.perm, r.allzero, r.largeblock, r.crossLane, r.samePattern, r.outOfRange)
          == (r0.zeroing, r0.perm, r0.allzero, r0.largeblock, r0.crossLane, r0.samePattern, r0.outOfRange)
    requires r0.addz ==> r.addz
    ensures BasicsPlanned(laneSize, a, r)
  {
  }

  lemma KeepsSpread(a: seq<int>, r0: PermPlan, r: PermPlan)
    requires SpreadPlanned(a, r0)
    requires (r.zext, r.compress, r.expand, r.addz2) == (r0.zext, r0.compress, r0.expand, r0.addz2)
    ensures SpreadPlanned(a, r)
  {
  }

  lemma KeepsPattern(laneSize: nat, a: seq<int>, r0: PermPlan, r: PermPlan)
    requires laneSize > 0 && PatternPlanned(laneSize, a, r0)
    requires r.punpckh == r0.punpckh && r.punpckl == r0.punpckl && r.ipattern == r0.ipattern
    ensures PatternPlanned(laneSize, a, r)
  {
  }

  /** What is planned before broadcasting is considered. */
  ghost predicate TurnPlanned(lanes: nat, laneSize: nat, instrset: nat, a: seq<int>, r: PermPlan)
    requires laneSize > 0 && |a| % 2 == 0 && InRange(a, |a|)
  {
    if r.samePattern then
      && RotationPlanned(laneSize, instrset, a, r) && PatternPlanned(laneSize, a, r) && !r.rotateBig
      && (r.rotCount == 0 || FitsRotation(a, laneSize))
      && ZeroingPlanned(laneSize, a, r)
    else
      && !r.rotate && !r.shleft && !r.shright && !r.punpckh && !r.punpckl && r.ipattern == 0
      && (r.addz <==> r.largeblock && SplitsPair(a))
      && (r.rotateBig <==> instrset >= 7 && lanes > 1 && FitsBigRotation(a, |a|))
      && (if r.rotateBig then r.rotCount < |a| && RotatesBy(a, |a|, r.rotCount) else r.rotCount == 0)
  }

  method PlanBigRotation(lanes: nat, laneSize: nat, instrset: nat, a: seq<int>, r0: PermPlan) returns (r: PermPlan)
    requires |a| % 2 == 0 && 0 < laneSize <= |a| <= 64
    requires InRange(a, |a|) && Moves(a) && !r0.samePattern
    requires !r0.rotate && !r0.shleft && !r0.shright && !r0.punpckh && !r0.punpckl && r0.rotCount == 0
    requires r0.ipattern == 0
    requires !r0.rotateBig && (r0.addz <==> r0.largeblock && SplitsPair(a))
    ensures TurnPlanned(lanes, laneSize, instrset, a, r) && FieldsFit(r)
    ensures r == r0.(rotCount := r.rotCount, rotateBig := r.rotateBig)
  {
    var rotateBig, rotCount := false, 0;
    if instrset >= 7 && lanes > 1 {
      var rot := FitBigRotation(a, |a|);
      if rot < |a| {
        rotateBig, rotCount := true, rot;
      }
    }
    r := r0.(rotateBig := rotateBig, rotCount := rotCount);
  }

  method PlanTurn(lanes: nat, laneSize: nat, instrset: nat, a: seq<int>, lp: seq<int>, r0: PermPlan)
      returns (r: PermPlan)
    requires ValidLane(laneSize)
    requires |a| % 2 == 0 && laneSize <= |a| <= 64
    requires InRange(a, |a|) && Moves(a)
    requires r0.samePattern ==> IsLanePattern(a, |a|, laneSize, lp)
    requires r0.addz <==> r0.largeblock && SplitsPair(a)
    requires !r0.rotate && !r0.shleft && !r0.shright && !r0.punpckh && !r0.punpckl && r0.rotCount == 0
    requires r0.ipattern == 0
    requires !r0.rotateBig
    ensures TurnPlanned(lanes, laneSize, instrset, a, r) && FieldsFit(r)
    ensures r == r0.(rotate := r.rotate, shleft := r.shleft, shright := r.shright, rotCount := r.rotCount,
                     addz := r.addz,
                     punpckh := r.punpckh, punpckl := r.punpckl, ipattern := r.ipattern, rotateBig := r.rotateBig)
    ensures r0.addz ==> r.addz
  {
    if r0.samePattern {
      r := PlanSamePattern(laneSize, instrset, a, lp, r0);
      PatternZeroing(a, laneSize, lp, r0, r);
    } else {
      r := PlanBigRotation(lanes, laneSize, instrset, a, r0);
    }
  }

  /** The last step of the analysis completes the plan. */
  lemma BroadcastCompletes(lanes: nat, laneSize: nat, instrset: nat, a: seq<int>, r0: PermPlan, r: PermPlan)
    requires laneSize > 0 && |a| % 2 == 0 && InRange(a, |a|)
    requires BasicsPlanned(laneSize, a, r0) && r0.perm && SpreadPlanned(a, r0)
    requires TurnPlanned(lanes, laneSize, instrset, a, r0)
    requires r.broadcast <==> SameSource(a) && !r.rotate && !r.shright && !r.shleft && !r.rotateBig
    requires r.broadcast ==> r.rotCount < |a| && forall i :: 0 <= i < |a| && a[i] >= 0 ==> a[i] == r.rotCount
    requires r == r0.(broadcast := r.broadcast, rotCount := r.rotCount) && (!r.broadcast ==> r.rotCount == r0.rotCount)
    ensures Planned(lanes, laneSize, instrset, a, r)
  {
    KeepsBasics(laneSize, a, r0, r);
    KeepsSpread(a, r0, r);
    if r.samePattern {
      KeepsPattern(laneSize, a, r0, r);
      if r.broadcast {
        BroadcastExcludesRotation(laneSize, instrset, a, r0);
      } else {
        KeepsRotation(laneSize, instrset, a, r0, r);
      }
    }
  }

  method PlanBeforeBroadcast(lanes: nat, laneSize: nat, instrset: nat, a: seq<int>, s: Scan) returns (r: PermPlan)
    requires ValidLane(laneSize)
    requires |a| % 2 == 0 && laneSize <= |a| <= 64
    requires Found(laneSize, a, s) && InRange(a, |a|) && Moves(a)
    ensures BasicsPlanned(laneSize, a, r) && SpreadPlanned(a, r) && TurnPlanned(lanes, laneSize, instrset, a, r)
    ensures r.perm && !r.broadcast && FieldsFit(r)
  {
    var r1 := PlanBasics(laneSize, a, s);
    var r2 := PlanSpread(a, s.zext, s.compress, s.expand, r1);
    r := PlanTurn(lanes, laneSize, instrset, a, s.lanes.pattern, r2);
    KeepsBasics(laneSize, a, r1, r);
    KeepsSpread(a, r2, r);
  }

  lemma CountIsFree(lanes: nat, laneSize: nat, instrset: nat, a: seq<int>, r: PermPlan)
    requires laneSize > 0 && |a| % 2 == 0 && InRange(a, |a|) && TurnPlanned(lanes, laneSize, instrset, a, r)
    requires SameSource(a) && !r.rotate && !r.shleft && !r.shright && !r.rotateBig
    ensures r.rotCount == 0
  {
    if r.samePattern {
      BroadcastExcludesRotation(laneSize, instrset, a, r);
    }
  }

  /** The last step of the analysis, for lists that need a permutation. */
  method PlanLast(lanes: nat, laneSize: nat, instrset: nat, a: seq<int>, broadc: int, r0: PermPlan)
      returns (r: PermPlan)
    requires 0 < laneSize && |a| % 2 == 0 && |a| <= 64 && InRange(a, |a|) && BroadcastFoundIn(a, broadc)
    requires BasicsPlanned(laneSize, a, r0) && SpreadPlanned(a, r0) && TurnPlanned(lanes, laneSize, instrset, a, r0)
    requires r0.perm && !r0.broadcast && FieldsFit(r0)
    ensures Planned(lanes, laneSize, instrset, a, r) && FieldsFit(r)
  {
    var broadcast := broadc < 999 && !r0.rotate && !r0.shleft && !r0.shright && !r0.rotateBig;
    var rotCount := r0.rotCount;
    if broadcast {
      CountIsFree(lanes, laneSize, instrset, a, r0);
      // the count field is still empty, so that OR and addition are the same
      rotCount := rotCount + broadc;
    }
    r := r0.(broadcast := broadcast, rotCount := rotCount);
    BroadcastCompletes(lanes, laneSize, instrset, a, r0, r);
  }

  /** The part of perm_flags for lists that need a permutation. */
  method PlanMoves(lanes: nat, laneSize: nat, instrset: nat, a: seq<int>, s: Scan) returns (r: PermPlan)
    requires ValidLane(laneSize)
    requires |a| % 2 == 0 && laneSize <= |a| <= 64
    requires Found(laneSize, a, s) && InRange(a, |a|) && Moves(a)
    ensures Planned(lanes, laneSize, instrset, a, r) && FieldsFit(r)
  {
    r := PlanBeforeBroadcast(lanes, laneSize, instrset, a, s);
    assert BroadcastFoundIn(a, s.broadc);
    r := PlanLast(lanes, laneSize, instrset, a, s.broadc, r);
  }

  method Scanning(laneSize: nat, a: seq<int>) returns (s: Scan)
    requires |a| % 2 == 0 && |a| <= 64 && laneSize > 0
    ensures Found(laneSize, a, s)
  {
    s := ScanIndexes(laneSize, a);
    ScanMeaning(laneSize, a);
  }

  method PlanBasics(laneSize: nat, a: seq<int>, s: Scan) returns (r: PermPlan)
    requires 0 < laneSize && |a| % 2 == 0
    requires Found(laneSize, a, s) && InRange(a, |a|)
    ensures BasicsPlanned(laneSize, a, r)
    ensures r.addz <==> SplitsPair(a) && r.largeblock
    ensures r.samePattern ==> s.lanes.samePattern && !CrossesLane(a, |a|, laneSize)
    ensures r == PermPlan(r.zeroing, r.perm, r.allzero, r.largeblock, r.addz, false, r.crossLane, r.samePattern,
                  false, false, false, false, false, false, false, false, false, false, false, 0, 0)
  {
    // the flags that turn out to be irrelevant are removed
    r := PermPlan(s.basics.zeroing, s.basics.perm, s.basics.allzero, s.blocks.largeblock,
                  s.blocks.addz && s.blocks.largeblock, false, s.lanes.crossLane,
                  s.lanes.samePattern && !s.lanes.crossLane,
                  false, false, false, false, false, false, false, false, false, false, false, 0, 0);
  }

  lemma SizeFacts(sh: Shape)
    requires sh.Valid()
    ensures sh.Size() % 2 == 0 && 2 <= sh.laneSize <= sh.Size() <= 64
    ensures sh.lanes == 1 ==> sh.Size() == sh.laneSize
  {
    LaneSizes(sh.laneSize);
  }

  method PlanNoMoves(lanes: nat, laneSize: nat, instrset: nat, a: seq<int>, s: Scan) returns (r: PermPlan)
    requires 0 < laneSize && |a| % 2 == 0
    requires Found(laneSize, a, s) && InRange(a, |a|) && !Moves(a)
    ensures Planned(lanes, laneSize, instrset, a, r) && FieldsFit(r)
  {
    r := PlanBasics(laneSize, a, s);
    UnmovedPairs(a);
  }

  /** A list that moves nothing fits larger blocks. */
  lemma UnmovedPairs(a: seq<int>)
    requires |a| % 2 == 0 && !Moves(a)
    ensures FitsLargeBlock(a)
  {
    forall k | 0 <= k < |a| / 2 ensures PairFits(First(a, k), Second(a, k)) {
      assert a[2 * k] >= 0 ==> a[2 * k] == 2 * k;
      assert a[2 * k + 1] >= 0 ==> a[2 * k + 1] == 2 * k + 1;
    }
  }

  method PlanScanned(lanes: nat, laneSize: nat, instrset: nat, a: seq<int>, s: Scan) returns (r: PermPlan)
    requires ValidLane(laneSize)
    requires |a| % 2 == 0 && laneSize <= |a| <= 64
    requires Found(laneSize, a, s)
    ensures r.outOfRange <==> !InRange(a, |a|)
    ensures InRange(a, |a|) ==> Planned(lanes, laneSize, instrset, a, r) && FieldsFit(r)
  {
    if s.basics.outOfRange {
      r := PermPlan(false, false, false, false, false, false, false, false, false, false, false,
                    false, false, false, false, false, false, false, true, 0, 0);
    } else if s.basics.perm {
      r := PlanMoves(lanes, laneSize, instrset, a, s);
    } else {
      r := PlanNoMoves(lanes, laneSize, instrset, a, s);
    }
  }

  /** perm_flags. A list with an index out of range gets only that flag: no consumer reads any
      other bit of its word. */
  method PermFlags(sh: Shape, instrset: nat, a: seq<int>) returns (r: PermPlan)
    requires sh.Valid() && |a| == sh.Size()
    ensures |a| % 2 == 0
    ensures r.outOfRange <==> !InRange(a, |a|)
    ensures InRange(a, |a|) ==> Planned(sh.lanes, sh.laneSize, instrset, a, r) && FieldsFit(r)
  {
    SizeFacts(sh);
    var s := Scanning(sh.laneSize, a);
    r := PlanScanned(sh.lanes, sh.laneSize, instrset, a, s);
  }
}
