/** Planning of blends: the plan that blend_flags finds for an index list with two sources. */
module BlendPlanning {
  import opened IndexLists
  import PermScan
  import PermPlanning
  import opened BitNumbers
  import opened BlendScan

  datatype BlendPlan = BlendPlan(
    zeroing: bool, allzero: bool, largeblock: bool, addz: bool, fromA: bool, fromB: bool, permA: bool, permB: bool,
    crossLane: bool, samePattern: bool, unpack: Unpacks, turn: Turns, shufab: bool, shufba: bool,
    rotateBig: bool, outOfRange: bool, shufpattern: nat, rotpattern: nat)

  /** The flags for punpckh and punpckl with the operands in either order. */
  datatype Unpacks = Unpacks(highAB: bool, highBA: bool, lowAB: bool, lowBA: bool)

  /** The flags for palignr with the operands in either order. */
  datatype Turns = Turns(ab: bool, ba: bool)

  // ----- the patterns, in terms of the index list

  /** What the unpack instructions put in column c. */
  function Interleaved(c: nat, n: nat, start: nat, evenFromB: bool): nat {
    start + c / 2 + (if evenFromB == (c % 2 == 0) then n else 0)
  }

  ghost predicate LanesInterleave(a: seq<int>, n: nat, laneSize: nat, start: nat, evenFromB: bool)
    requires laneSize > 0
  {
    forall i :: 0 <= i < |a| && a[i] >= 0 ==>
      BlendColumn(a[i], n, laneSize) == Interleaved(Column(i, laneSize), n, start, evenFromB)
  }

  /** The place of the element on the circle made of one lane of a followed by one lane of b. */
  function CircleColumn(ix: nat, n: nat, laneSize: nat): (c: nat)
    requires laneSize > 0
    ensures c < 2 * laneSize
  {
    Column(Home(ix, n), laneSize) + (if ix < n then 0 else laneSize)
  }

  ghost predicate LanesTurnBy(a: seq<int>, n: nat, laneSize: nat, rot: nat)
    requires laneSize > 0
  {
    forall i :: 0 <= i < |a| && a[i] >= 0 ==>
      PermPlanning.Rotation(CircleColumn(a[i], n, laneSize), Column(i, laneSize), 2 * laneSize) == rot
  }

  ghost predicate FitsTurn(a: seq<int>, n: nat, laneSize: nat)
    requires laneSize > 0
  {
    exists rot :: LanesTurnBy(a, n, laneSize, rot)
  }

  /** The lower half of each lane comes from one source and the upper half from the other. */
  ghost predicate HalvesFrom(a: seq<int>, n: nat, laneSize: nat, lowFromB: bool)
    requires laneSize > 0
  {
    forall i :: 0 <= i < |a| && a[i] >= 0 ==> (a[i] >= n) == (lowFromB == (Column(i, laneSize) < 2))
  }

  // ----- loops over the lane pattern

  ghost predicate PatternInterleaves(lp: seq<int>, k: nat, n: nat, start: nat, evenFromB: bool)
    requires k <= |lp|
  {
    k > 0 ==> PatternInterleaves(lp, k - 1, n, start, evenFromB) &&
              (lp[k - 1] >= 0 ==> lp[k - 1] == Interleaved(k - 1, n, start, evenFromB))
  }

  lemma {:induction false} PatternInterleavesMeans(lp: seq<int>, k: nat, n: nat, start: nat, evenFromB: bool)
    requires k <= |lp|
    ensures PatternInterleaves(lp, k, n, start, evenFromB) <==>
            forall p :: 0 <= p < k && lp[p] >= 0 ==> lp[p] == Interleaved(p, n, start, evenFromB)
  {
    if k > 0 { PatternInterleavesMeans(lp, k - 1, n, start, evenFromB); }
  }

  method FitUnpacks(lp: seq<int>, n: nat) returns (u: Unpacks)
    requires |lp| % 2 == 0
    ensures u.lowAB <==> PatternInterleaves(lp, |lp|, n, 0, false)
    ensures u.lowBA <==> PatternInterleaves(lp, |lp|, n, 0, true)
    ensures u.highAB <==> PatternInterleaves(lp, |lp|, n, |lp| / 2, false)
    ensures u.highBA <==> PatternInterleaves(lp, |lp|, n, |lp| / 2, true)
  {
    var laneSize := |lp|;
    var highAB, highBA, lowAB, lowBA := true, true, true, true;
    for iu := 0 to laneSize
      invariant lowAB <==> PatternInterleaves(lp, iu, n, 0, false)
      invariant lowBA <==> PatternInterleaves(lp, iu, n, 0, true)
      invariant highAB <==> PatternInterleaves(lp, iu, n, laneSize / 2, false)
      invariant highBA <==> PatternInterleaves(lp, iu, n, laneSize / 2, true)
    {
      var ix := lp[iu];
      var odd, even := if iu % 2 == 1 then n else 0, if iu % 2 == 1 then 0 else n;
      if ix >= 0 {
        if ix != iu / 2 + odd { lowAB := false; }
        if ix != iu / 2 + even { lowBA := false; }
        if ix != (iu + laneSize) / 2 + odd { highAB := false; }
        if ix != (iu + laneSize) / 2 + even { highBA := false; }
      }
    }
    u := Unpacks(highAB, highBA, lowAB, lowBA);
  }

  /** The place of a pattern entry on the circle of two lanes. */
  function CircleOf(v: nat, n: nat, laneSize: nat): nat {
    Home(v, n) + (if v < n then 0 else laneSize)
  }

  /** How far entry p of the pattern is turned on the circle. */
  function TurnAt(lp: seq<int>, n: nat, p: nat): nat
    requires p < |lp| && lp[p] >= 0 && CircleOf(lp[p], n, |lp|) < 2 * |lp|
  {
    PermPlanning.Rotation(CircleOf(lp[p], n, |lp|), p, 2 * |lp|)
  }

  ghost predicate OnCircle(lp: seq<int>, n: nat, p: int) {
    0 <= p < |lp| && lp[p] >= 0 && CircleOf(lp[p], n, |lp|) < 2 * |lp|
  }

  ghost predicate PatternTurns(lp: seq<int>, k: nat, n: nat, rot: nat)
    requires k <= |lp|
  {
    forall p :: 0 <= p < k && OnCircle(lp, n, p) ==> TurnAt(lp, n, p) == rot
  }

  method FitTurn(lp: seq<int>, n: nat) returns (rot: nat, ghost first: nat, ghost other: nat)
    requires 0 < |lp| <= 64
    requires forall p :: 0 <= p < |lp| && lp[p] >= 0 ==> Home(lp[p], n) < |lp|
    ensures rot < 2 * |lp| || rot == 999 || rot == 1000
    ensures rot == 999 ==> forall p :: 0 <= p < |lp| ==> lp[p] < 0
    ensures rot < 2 * |lp| ==> PatternTurns(lp, |lp|, n, rot)
    ensures rot == 1000 ==>
      OnCircle(lp, n, first) && OnCircle(lp, n, other) && TurnAt(lp, n, first) != TurnAt(lp, n, other)
  {
    var laneSize := |lp|;
    rot, first, other := 999, 0, 0;
    for iu := 0 to laneSize
      invariant rot < 2 * |lp| || rot == 999 || rot == 1000
      invariant rot == 999 ==> forall p :: 0 <= p < iu ==> lp[p] < 0
      invariant rot != 999 ==> OnCircle(lp, n, first)
      invariant rot < 2 * |lp| ==> rot == TurnAt(lp, n, first) && PatternTurns(lp, iu, n, rot)
      invariant rot == 1000 ==> OnCircle(lp, n, other) && TurnAt(lp, n, first) != TurnAt(lp, n, other)
    {
      var ix := lp[iu];
      if ix >= 0 {
        var t := Home(ix, n);
        if ix >= n { t := t + laneSize; }
        var tb := (t + 2 * laneSize - iu) % (2 * laneSize);
        PermPlanning.RotationIsRemainder(t, iu, 2 * laneSize);
        if rot == 999 {
          rot, first := tb, iu;
        } else if rot != 1000 && rot != tb {
          rot, other := 1000, iu;
        }
      }
    }
  }

  method FitHalves(lp: seq<int>, n: nat) returns (ab: bool, ba: bool)
    requires |lp| == 4
    ensures ab <==> forall p :: 0 <= p < 4 && lp[p] >= 0 ==> (lp[p] >= n) == (p >= 2)
    ensures ba <==> forall p :: 0 <= p < 4 && lp[p] >= 0 ==> (lp[p] >= n) == (p < 2)
  {
    ab, ba := true, true;
    var ii := 0;
    while ii < 2
      invariant 0 <= ii <= 2
      invariant ab <==> forall p :: 0 <= p < ii && lp[p] >= 0 ==> (lp[p] >= n) == (p >= 2)
      invariant ba <==> forall p :: 0 <= p < ii && lp[p] >= 0 ==> (lp[p] >= n) == (p < 2)
    {
      if lp[ii] >= n && lp[ii] >= 0 { ab := false; } else if lp[ii] >= 0 { ba := false; }
      ii := ii + 1;
    }
    while ii < 4
      invariant 2 <= ii <= 4
      invariant ab <==> forall p :: 0 <= p < ii && lp[p] >= 0 ==> (lp[p] >= n) == (p >= 2)
      invariant ba <==> forall p :: 0 <= p < ii && lp[p] >= 0 ==> (lp[p] >= n) == (p < 2)
    {
      if lp[ii] >= n && lp[ii] >= 0 { ba := false; } else if lp[ii] >= 0 { ab := false; }
      ii := ii + 1;
    }
  }

  /** The pattern for shufpd: the lowest bit of every index. */
  function LowBitsUpTo(a: seq<int>, k: nat): nat
    requires k <= |a|
  {
    if k == 0 then 0 else LowBitsUpTo(a, k - 1) + a[k - 1] % 2 * BitValue(k - 1)
  }

  function BitValue(k: nat): nat {
    if k == 0 then 1 else if k == 1 then 2 else if k == 2 then 4 else if k == 3 then 8
    else if k == 4 then 16 else if k == 5 then 32 else if k == 6 then 64 else 128
  }

  method PackLowBits(a: seq<int>) returns (p: nat)
    ensures p == LowBitsUpTo(a, |a|)
  {
    p := 0;
    for ii := 0 to |a|
      invariant p == LowBitsUpTo(a, ii)
    {
      p := p + a[ii] % 2 * BitValue(ii);
    }
  }

  /** The bits and two-bit fields of a pattern, lowest first. */
  lemma FieldsAreBits(p: nat, k: nat)
    ensures k < 8 ==> (Bit(p, k) == 1 <==> FlagBit(p, k)) && Bit(p, k) < 2
    ensures k < 4 ==> Field2(p, k) == Bit(p, 2 * k) + 2 * Bit(p, 2 * k + 1)
  {
    LowEightBits(p);
    TwoBits(p);
    TwoBits(p / 4);
    TwoBits(p / 16);
    TwoBits(p / 64);
    HalvedAgain(p);
  }

  lemma TwoBits(q: nat)
    ensures q % 4 == q % 2 + 2 * (q / 2 % 2)
  {
  }

  lemma Bits4(x: seq<nat>)
    requires |x| == 4 && forall i :: 0 <= i < 4 ==> x[i] < 2
    ensures var p := x[0] + 2 * x[1] + 4 * x[2] + 8 * x[3];
            p < 16 && Bit(p, 0) == x[0] && Bit(p, 1) == x[1] && Bit(p, 2) == x[2] && Bit(p, 3) == x[3]
  {
  }

  lemma Bits8(lo: nat, hi: nat)
    requires lo < 16 && hi < 16
    ensures var p := lo + 16 * hi;
            p < 256
            && Bit(p, 0) == Bit(lo, 0) && Bit(p, 1) == Bit(lo, 1) && Bit(p, 2) == Bit(lo, 2) && Bit(p, 3) == Bit(lo, 3)
            && Bit(p, 4) == Bit(hi, 0) && Bit(p, 5) == Bit(hi, 1) && Bit(p, 6) == Bit(hi, 2) && Bit(p, 7) == Bit(hi, 3)
  {
    var p := lo + 16 * hi;
    assert p / 2 == lo / 2 + 8 * hi;
    assert p / 4 == lo / 4 + 4 * hi;
    assert p / 8 == lo / 8 + 2 * hi;
    assert p / 16 == hi && p / 32 == hi / 2 && p / 64 == hi / 4 && p / 128 == hi / 8;
  }

  lemma LowBitsAre(a: seq<int>)
    ensures |a| >= 2 ==> LowBitsUpTo(a, 2) == a[0] % 2 + 2 * (a[1] % 2)
    ensures |a| >= 4 ==> LowBitsUpTo(a, 4) == LowBitsUpTo(a, 2) + 4 * (a[2] % 2) + 8 * (a[3] % 2)
    ensures |a| >= 6 ==> LowBitsUpTo(a, 6) == LowBitsUpTo(a, 4) + 16 * (a[4] % 2) + 32 * (a[5] % 2)
    ensures |a| >= 8 ==> LowBitsUpTo(a, 8) == LowBitsUpTo(a, 6) + 64 * (a[6] % 2) + 128 * (a[7] % 2)
  {
    if |a| >= 2 { assert LowBitsUpTo(a, 1) == a[0] % 2; }
    if |a| >= 4 { assert LowBitsUpTo(a, 3) == LowBitsUpTo(a, 2) + 4 * (a[2] % 2); }
    if |a| >= 6 { assert LowBitsUpTo(a, 5) == LowBitsUpTo(a, 4) + 16 * (a[4] % 2); }
    if |a| >= 8 { assert LowBitsUpTo(a, 7) == LowBitsUpTo(a, 6) + 64 * (a[6] % 2); }
  }

  lemma LowBitsDecode(a: seq<int>)
    requires |a| == 2 || |a| == 4 || |a| == 8
    ensures LowBitsUpTo(a, |a|) < 256 && (|a| <= 4 ==> LowBitsUpTo(a, |a|) < 16)
    ensures forall i :: 0 <= i < |a| ==> Bit(LowBitsUpTo(a, |a|), i) == a[i] % 2
  {
    if |a| == 2 {
      LowBitsAre(a);
      Bits4([a[0] % 2, a[1] % 2, 0, 0]);
    } else {
      LowBitsDecode4(a);
      if |a| == 8 {
        LowBitsAre(a);
        Bits4([a[4] % 2, a[5] % 2, a[6] % 2, a[7] % 2]);
        Bits8(LowBitsUpTo(a, 4), a[4] % 2 + 2 * (a[5] % 2) + 4 * (a[6] % 2) + 8 * (a[7] % 2));
      }
    }
  }

  lemma LowBitsDecode4(a: seq<int>)
    requires |a| >= 4
    ensures LowBitsUpTo(a, 4) < 16
    ensures forall i :: 0 <= i < 4 ==> Bit(LowBitsUpTo(a, 4), i) == a[i] % 2
  {
    LowBitsAre(a);
    Bits4([a[0] % 2, a[1] % 2, a[2] % 2, a[3] % 2]);
  }

  // ----- from the lane pattern to the index list

  lemma PatternUnpack(a: seq<int>, laneSize: nat, lp: seq<int>, start: nat, evenFromB: bool)
    requires 0 < laneSize <= |a| && IsLanePattern(a, |a|, |a|, laneSize, lp)
    ensures LanesInterleave(a, |a|, laneSize, start, evenFromB) <==>
      PatternInterleaves(lp, laneSize, |a|, start, evenFromB)
  {
    PatternInterleavesMeans(lp, laneSize, |a|, start, evenFromB);
    if LanesInterleave(a, |a|, laneSize, start, evenFromB) {
      forall p | 0 <= p < laneSize && lp[p] >= 0 ensures lp[p] == Interleaved(p, |a|, start, evenFromB) {
        assert PermScan.AskedFor(a, |a|, laneSize, p);
      }
    }
  }

  lemma EntryOnCircle(a: seq<int>, laneSize: nat, lp: seq<int>, i: nat)
    requires 0 < laneSize <= |a| && IsLanePattern(a, |a|, |a|, laneSize, lp)
    requires i < |a| && a[i] >= 0
    ensures OnCircle(lp, |a|, Column(i, laneSize))
    ensures TurnAt(lp, |a|, Column(i, laneSize)) ==
            PermPlanning.Rotation(CircleColumn(a[i], |a|, laneSize), Column(i, laneSize), 2 * laneSize)
  {
    assert lp[Column(i, laneSize)] == BlendColumn(a[i], |a|, laneSize);
  }

  lemma PatternTurn(a: seq<int>, laneSize: nat, lp: seq<int>, rot: nat)
    requires 0 < laneSize <= |a| && IsLanePattern(a, |a|, |a|, laneSize, lp)
    ensures LanesTurnBy(a, |a|, laneSize, rot) <==> PatternTurns(lp, laneSize, |a|, rot)
  {
    if LanesTurnBy(a, |a|, laneSize, rot) {
      forall p | 0 <= p < laneSize && OnCircle(lp, |a|, p) ensures TurnAt(lp, |a|, p) == rot {
        assert PermScan.AskedFor(a, |a|, laneSize, p);
        var i :| 0 <= i < |a| && Column(i, laneSize) == p && a[i] >= 0;
        EntryOnCircle(a, laneSize, lp, i);
      }
    }
    if PatternTurns(lp, laneSize, |a|, rot) {
      forall i | 0 <= i < |a| && a[i] >= 0
        ensures PermPlanning.Rotation(CircleColumn(a[i], |a|, laneSize), Column(i, laneSize), 2 * laneSize) == rot
      {
        EntryOnCircle(a, laneSize, lp, i);
      }
    }
  }

  lemma PatternHalves(a: seq<int>, laneSize: nat, lp: seq<int>, lowFromB: bool)
    requires 4 == laneSize <= |a| && IsLanePattern(a, |a|, |a|, laneSize, lp)
    ensures HalvesFrom(a, |a|, 4, lowFromB) <==>
            forall p :: 0 <= p < 4 && lp[p] >= 0 ==> (lp[p] >= |a|) == (lowFromB == (p < 2))
  {
    if HalvesFrom(a, |a|, 4, lowFromB) {
      forall p | 0 <= p < 4 && lp[p] >= 0 ensures (lp[p] >= |a|) == (lowFromB == (p < 2)) {
        assert PermScan.AskedFor(a, |a|, laneSize, p);
      }
    }
  }

  // ----- the plan

  ghost predicate BasicsPlanned(laneSize: nat, a: seq<int>, r: BlendPlan)
    requires |a| % 2 == 0 && laneSize > 0
  {
    var n := |a|;
    && !r.outOfRange
    && (r.zeroing <==> HasZero(a))
    && (r.allzero <==> AllNegative(a))
    && (r.largeblock <==> FitsLargeBlock(a))
    && (r.addz <==> r.largeblock && SplitsPair(a))
    && (r.fromA <==> UsesA(a, n))
    && (r.fromB <==> UsesB(a, n))
    && (r.permA <==> MovesA(a, n))
    && (r.permB <==> MovesB(a, n))
    && (r.crossLane <==> BlendCrosses(a, n, n, laneSize))
    && (r.samePattern <==> !r.crossLane && BlendLanesAgree(a, n, n, laneSize))
  }

  ghost predicate UnpacksPlanned(laneSize: nat, a: seq<int>, u: Unpacks)
    requires laneSize > 0
  {
    && (u.lowAB <==> LanesInterleave(a, |a|, laneSize, 0, false))
    && (u.lowBA <==> LanesInterleave(a, |a|, laneSize, 0, true))
    && (u.highAB <==> LanesInterleave(a, |a|, laneSize, laneSize / 2, false))
    && (u.highBA <==> LanesInterleave(a, |a|, laneSize, laneSize / 2, true))
  }

  /** palignr: the flag says which source is above the other one, and the count is what remains
      of the rotation. */
  ghost predicate TurnsPlanned(laneSize: nat, instrset: nat, a: seq<int>, t: Turns, rotpattern: nat)
    requires laneSize > 0
  {
    var count := PermScan.Elements(laneSize, rotpattern);
    && (t.ab || t.ba <==> instrset >= 4 && FitsTurn(a, |a|, laneSize))
    && !(t.ab && t.ba)
    && (t.ab || t.ba ==> count < laneSize && rotpattern == PermScan.Bytes(laneSize, count) < 16)
    && (t.ba ==> LanesTurnBy(a, |a|, laneSize, count))
    && (t.ab ==> LanesTurnBy(a, |a|, laneSize, laneSize + count))
  }

  /** shufps and shufpd: the flags for the two operand orders, and the pattern. */
  ghost predicate ShufFlags(laneSize: nat, a: seq<int>, samePattern: bool, ab: bool, ba: bool, pattern: nat)
    requires laneSize > 0
  {
    && pattern < 256
    && (laneSize == 2 ==>
          && (ab <==> Alternates(a, |a|, |a|, false))
          && (ba <==> Alternates(a, |a|, |a|, true))
          && (|a| <= 4 ==> pattern < 16)
          && (ab || ba ==> forall i :: 0 <= i < |a| ==> Bit(pattern, i) == a[i] % 2))
    && (laneSize == 4 ==>
          && (ab <==> samePattern && HalvesFrom(a, |a|, 4, false))
          && (ba <==> samePattern && HalvesFrom(a, |a|, 4, true))
          && (ab || ba ==> forall i :: 0 <= i < |a| && a[i] >= 0 ==> Field2(pattern, i % 4) == a[i] % 4))
    && (laneSize > 4 ==> !ab && !ba)
    && (!ab && !ba ==> pattern == 0)
  }

  ghost predicate ShufPlanned(laneSize: nat, a: seq<int>, r: BlendPlan)
    requires laneSize > 0
  {
    ShufFlags(laneSize, a, r.samePattern, r.shufab, r.shufba, r.shufpattern)
  }

  ghost predicate AcrossLanesPlanned(lanes: nat, a: seq<int>, r: BlendPlan)
    requires InRange(a, 2 * |a|)
  {
    && (r.rotateBig <==> lanes > 1 && !r.samePattern && PermPlanning.FitsBigRotation(a, 2 * |a|))
    && (r.rotateBig ==> r.rotpattern < 2 * |a| && PermPlanning.RotatesBy(a, 2 * |a|, r.rotpattern))
  }

  ghost predicate Planned(lanes: nat, laneSize: nat, instrset: nat, a: seq<int>, r: BlendPlan)
    requires |a| % 2 == 0 && laneSize > 0 && InRange(a, 2 * |a|)
  {
    && BasicsPlanned(laneSize, a, r)
    && (r.permA || r.permB ==>
          && ShufPlanned(laneSize, a, r)
          && AcrossLanesPlanned(lanes, a, r)
          && (if r.samePattern then
                UnpacksPlanned(laneSize, a, r.unpack) && TurnsPlanned(laneSize, instrset, a, r.turn, r.rotpattern)
              else r.unpack == Unpacks(false, false, false, false) && r.turn == Turns(false, false)))
    && (!r.permA && !r.permB ==>
          && r.unpack == Unpacks(false, false, false, false) && r.turn == Turns(false, false) && !r.rotateBig
          && (r.shufab <==> laneSize == 2 && Alternates(a, |a|, |a|, false))
          && (r.shufba <==> laneSize == 2 && Alternates(a, |a|, |a|, true))
          && r.shufpattern == 0)
    && (!r.turn.ab && !r.turn.ba && !r.rotateBig ==> r.rotpattern == 0)
  }

  // ----- the pass over the index list

  datatype Scan = Scan(basics: BlendBasics, blocks: PermScan.Blocks, lanes: PermScan.Lanes, shuf: Shuf)

  ghost predicate Found(laneSize: nat, a: seq<int>, s: Scan)
    requires |a| % 2 == 0 && laneSize > 0
  {
    && BasicsFoundIn(a, |a|, s.basics)
    && (s.blocks.largeblock <==> FitsLargeBlock(a))
    && (s.blocks.addz <==> SplitsPair(a))
    && LanesFoundIn(a, |a|, laneSize, s.lanes)
    && (s.shuf.ab <==> Alternates(a, |a|, |a|, false))
    && (s.shuf.ba <==> Alternates(a, |a|, |a|, true))
  }

  /** The pass stops at an illegal index. */
  method ScanIndexes(laneSize: nat, a: seq<int>) returns (s: Scan, legal: bool)
    requires |a| % 2 == 0 && laneSize > 0
    ensures legal <==> InRange(a, 2 * |a|)
    ensures legal ==>
      s == Scan(BasicsAfter(a, |a|), PermScan.BlocksAfter(a, |a|), LanesAfter(a, |a|, laneSize), ShufAfter(a, |a|))
  {
    var N := |a|;
    var basics, blocks := BlendBasics(false, true, false, false, false, false), PermScan.Blocks(true, false);
    var lanes, shuf := PermScan.Lanes(false, true, seq(laneSize, _ => 0)), Shuf(true, true);
    legal := true;
    var ii := 0;
    while ii < N
      invariant 0 <= ii <= N && |lanes.pattern| == laneSize && legal
      invariant ValidUpTo(a, ii)
      invariant basics == BasicsAfter(a, ii) && blocks == PermScan.BlocksAfter(a, ii)
      invariant lanes == LanesAfter(a, ii, laneSize) && shuf == ShufAfter(a, ii)
    {
      var ix := a[ii];
      if (ix < 0 && ix != -1 && ix != V_DC) || ix >= 2 * N {
        legal := false;
        break;
      }
      basics := BasicsStep(basics, N, ii, ix);
      blocks := PermScan.BlocksStep(blocks, a, ii);
      lanes := LanesStep(lanes, N, laneSize, ii, ix);
      shuf := ShufStep(shuf, N, ii, ix);
      ii := ii + 1;
    }
    s := Scan(basics, blocks, lanes, shuf);
  }

  method Scanning(laneSize: nat, a: seq<int>) returns (s: Scan, legal: bool)
    requires |a| % 2 == 0 && laneSize > 0
    ensures legal <==> InRange(a, 2 * |a|)
    ensures legal ==> Found(laneSize, a, s)
  {
    s, legal := ScanIndexes(laneSize, a);
    if legal {
      BasicsMeaning(a);
      PermScan.BlocksMeaning(a);
      LanesMeaning(a, laneSize);
      ShufFound(a, |a|);
    }
  }

  // ----- planning

  method PlanUnpacks(laneSize: nat, a: seq<int>, lp: seq<int>) returns (u: Unpacks)
    requires 0 < laneSize <= |a| && laneSize % 2 == 0 && IsLanePattern(a, |a|, |a|, laneSize, lp)
    ensures UnpacksPlanned(laneSize, a, u)
  {
    u := FitUnpacks(lp, |a|);
    PatternUnpack(a, laneSize, lp, 0, false);
    PatternUnpack(a, laneSize, lp, 0, true);
    PatternUnpack(a, laneSize, lp, laneSize / 2, false);
    PatternUnpack(a, laneSize, lp, laneSize / 2, true);
  }

  lemma PatternHomes(a: seq<int>, laneSize: nat, lp: seq<int>)
    requires 0 < laneSize <= |a| && IsLanePattern(a, |a|, |a|, laneSize, lp)
    ensures forall p :: 0 <= p < laneSize && lp[p] >= 0 ==> Home(lp[p], |a|) < laneSize
    ensures !AllNegative(a) ==> exists p :: 0 <= p < laneSize && lp[p] >= 0
  {
    forall p | 0 <= p < laneSize && lp[p] >= 0 ensures Home(lp[p], |a|) < laneSize {
      assert PermScan.AskedFor(a, |a|, laneSize, p);
    }
    if !AllNegative(a) {
      var i :| 0 <= i < |a| && a[i] >= 0;
      assert lp[Column(i, laneSize)] >= 0;
    }
  }

  lemma TurnFails(a: seq<int>, laneSize: nat, lp: seq<int>, first: nat, other: nat)
    requires 0 < laneSize <= |a| && IsLanePattern(a, |a|, |a|, laneSize, lp)
    requires OnCircle(lp, |a|, first) && OnCircle(lp, |a|, other) && TurnAt(lp, |a|, first) != TurnAt(lp, |a|, other)
    ensures !FitsTurn(a, |a|, laneSize)
  {
    forall rot ensures !LanesTurnBy(a, |a|, laneSize, rot) {
      PatternTurn(a, laneSize, lp, rot);
    }
  }

  method PlanTurns(laneSize: nat, instrset: nat, a: seq<int>, lp: seq<int>) returns (t: Turns, rotpattern: nat)
    requires PermScan.ValidLane(laneSize) && laneSize <= |a| <= 64 && !AllNegative(a)
    requires IsLanePattern(a, |a|, |a|, laneSize, lp)
    ensures TurnsPlanned(laneSize, instrset, a, t, rotpattern) && rotpattern < 16
    ensures !t.ab && !t.ba ==> rotpattern == 0
  {
    t, rotpattern := Turns(false, false), 0;
    if instrset >= 4 {
      PatternHomes(a, laneSize, lp);
      var rot, first, other := FitTurn(lp, |a|);
      if rot < 999 {
        PatternTurn(a, laneSize, lp, rot);
        t, rotpattern := TurnOf(laneSize, rot);
      } else {
        TurnFails(a, laneSize, lp, first, other);
      }
    }
  }

  method TurnOf(laneSize: nat, rot: nat) returns (t: Turns, rotpattern: nat)
    requires PermScan.ValidLane(laneSize) && rot < 2 * laneSize
    ensures t == if rot < laneSize then Turns(false, true) else Turns(true, false)
    ensures rotpattern == PermScan.Bytes(laneSize, PermScan.Elements(laneSize, rotpattern)) < 16
    ensures rot == PermScan.Elements(laneSize, rotpattern) + if rot < laneSize then 0 else laneSize
  {
    t := if rot < laneSize then Turns(false, true) else Turns(true, false);
    if rot < laneSize {
      DivisionIsUnique(rot, 0, rot, laneSize);
    } else {
      DivisionIsUnique(rot, 1, rot - laneSize, laneSize);
    }
    rotpattern := PermScan.Bytes(laneSize, rot % laneSize);
    PermPlanning.BytesAndBack(laneSize, rot % laneSize);
  }

  method PlanShufPs(a: seq<int>, lp: seq<int>) returns (ab: bool, ba: bool, pattern: nat)
    requires 4 <= |a| && |a| % 4 == 0 && IsLanePattern(a, |a|, |a|, 4, lp)
    requires InRange(a, 2 * |a|)
    ensures ab <==> HalvesFrom(a, |a|, 4, false)
    ensures ba <==> HalvesFrom(a, |a|, 4, true)
    ensures pattern < 256 && (!ab && !ba ==> pattern == 0)
    ensures ab || ba ==> forall i :: 0 <= i < |a| && a[i] >= 0 ==> Field2(pattern, i % 4) == a[i] % 4
  {
    ab, ba := FitHalves(lp, |a|);
    PatternHalves(a, 4, lp, false);
    PatternHalves(a, 4, lp, true);
    pattern := 0;
    if ab || ba {
      pattern := PermPlanning.PackPattern(lp);
      PermPlanning.PackedFieldsDecode(lp);
      forall i | 0 <= i < |a| && a[i] >= 0 ensures Field2(pattern, i % 4) == a[i] % 4 {
        FieldOfColumn(a, lp, i);
      }
    }
  }

  lemma FieldOfColumn(a: seq<int>, lp: seq<int>, i: nat)
    requires 4 <= |a| && |a| % 4 == 0 && IsLanePattern(a, |a|, |a|, 4, lp)
    requires i < |a| && a[i] >= 0
    ensures lp[i % 4] % 4 == a[i] % 4
  {
    var h := Home(a[i], |a|);
    LaneAndColumn(i, 4);
    LaneAndColumn(h, 4);
    assert lp[i % 4] == h % 4 + if a[i] < |a| then 0 else |a|;
    ColumnModulo(h, |a|);
  }

  lemma ColumnModulo(h: nat, n: nat)
    requires n % 4 == 0
    ensures h % 4 % 4 == h % 4 && (h % 4 + n) % 4 == h % 4 == (h + n) % 4
  {
  }

  /** The numbers fit in their fields of the plan word, 8 bits each. */
  predicate FieldsFit(r: BlendPlan) {
    r.shufpattern < 256 && r.rotpattern < 256
  }

  /** What the analysis adds for lists that need a permutation. */
  datatype MovePlan = MovePlan(unpack: Unpacks, turn: Turns, rotateBig: bool, rotpattern: nat, shufab: bool,
                               shufba: bool, shufpattern: nat)

  ghost predicate MovesPlanned(lanes: nat, laneSize: nat, instrset: nat, a: seq<int>, samePattern: bool, m: MovePlan)
    requires laneSize > 0 && InRange(a, 2 * |a|)
  {
    if samePattern then
      && UnpacksPlanned(laneSize, a, m.unpack) && !m.rotateBig
      && TurnsPlanned(laneSize, instrset, a, m.turn, m.rotpattern)
    else
      && m.unpack == Unpacks(false, false, false, false) && m.turn == Turns(false, false)
      && (m.rotateBig <==> lanes > 1 && PermPlanning.FitsBigRotation(a, 2 * |a|))
      && (m.rotateBig ==> m.rotpattern < 2 * |a| && PermPlanning.RotatesBy(a, 2 * |a|, m.rotpattern))
  }

  predicate NoCountWithoutUse(m: MovePlan) {
    !m.turn.ab && !m.turn.ba && !m.rotateBig ==> m.rotpattern == 0
  }

  method PlanTurnsAndRotation(lanes: nat, laneSize: nat, instrset: nat, a: seq<int>, samePattern: bool, lp: seq<int>)
      returns (m: MovePlan)
    requires PermScan.ValidLane(laneSize) && laneSize <= |a| <= 64 && laneSize % 2 == 0 && InRange(a, 2 * |a|)
    requires !AllNegative(a)
    requires samePattern ==> IsLanePattern(a, |a|, |a|, laneSize, lp)
    ensures MovesPlanned(lanes, laneSize, instrset, a, samePattern, m) && m.rotpattern < 128 && NoCountWithoutUse(m)
  {
    var u, t, rotateBig, rotpattern := Unpacks(false, false, false, false), Turns(false, false), false, 0;
    if samePattern {
      u := PlanUnpacks(laneSize, a, lp);
      t, rotpattern := PlanTurns(laneSize, instrset, a, lp);
    } else if lanes > 1 {
      var rot := PermPlanning.FitBigRotation(a, 2 * |a|);
      if rot < 2 * |a| {
        rotateBig, rotpattern := true, rot;
      }
    }
    m := MovePlan(u, t, rotateBig, rotpattern, false, false, 0);
  }

  method PlanShuf(laneSize: nat, a: seq<int>, samePattern: bool, lp: seq<int>, shuf: Shuf)
      returns (ab: bool, ba: bool, pattern: nat)
    requires PermScan.ValidLane(laneSize) && laneSize <= |a| && |a| % laneSize == 0 && InRange(a, 2 * |a|)
    requires laneSize == 2 ==> |a| == 2 || |a| == 4 || |a| == 8
    requires samePattern ==> IsLanePattern(a, |a|, |a|, laneSize, lp)
    requires (shuf.ab <==> Alternates(a, |a|, |a|, false)) && (shuf.ba <==> Alternates(a, |a|, |a|, true))
    ensures ShufFlags(laneSize, a, samePattern, ab, ba, pattern)
  {
    ab, ba, pattern := false, false, 0;
    if laneSize == 2 {
      ab, ba := shuf.ab, shuf.ba;
      if ab || ba {
        pattern := PackLowBits(a);
        LowBitsDecode(a);
      }
    } else if laneSize == 4 && samePattern {
      ab, ba, pattern := PlanShufPs(a, lp);
    }
  }

  /** The flags that need no permutation analysis, and the results of that analysis. */
  function PlanOf(s: Scan, m: MovePlan): BlendPlan {
    var samePattern := s.lanes.samePattern && !s.lanes.crossLane;
    BlendPlan(s.basics.zeroing, s.basics.allzero, s.blocks.largeblock, s.blocks.addz && s.blocks.largeblock,
              s.basics.fromA, s.basics.fromB, s.basics.permA, s.basics.permB, s.lanes.crossLane, samePattern,
              m.unpack, m.turn, m.shufab, m.shufba, m.rotateBig, false, m.shufpattern, m.rotpattern)
  }

  lemma PlanOfBasics(laneSize: nat, a: seq<int>, s: Scan, m: MovePlan)
    requires |a| % 2 == 0 && laneSize > 0 && Found(laneSize, a, s)
    ensures BasicsPlanned(laneSize, a, PlanOf(s, m))
  {
  }

  lemma PlanOfMoves(lanes: nat, laneSize: nat, instrset: nat, a: seq<int>, s: Scan, m: MovePlan)
    requires |a| % 2 == 0 && laneSize > 0 && InRange(a, 2 * |a|) && Found(laneSize, a, s)
    requires s.basics.permA || s.basics.permB
    requires var same := s.lanes.samePattern && !s.lanes.crossLane;
             && MovesPlanned(lanes, laneSize, instrset, a, same, m)
             && ShufFlags(laneSize, a, same, m.shufab, m.shufba, m.shufpattern) && NoCountWithoutUse(m)
    ensures Planned(lanes, laneSize, instrset, a, PlanOf(s, m))
  {
    PlanOfBasics(laneSize, a, s, m);
  }

  /** The part of blend_flags for lists that need a permutation. */
  method PlanMoves(lanes: nat, laneSize: nat, instrset: nat, a: seq<int>, s: Scan) returns (m: MovePlan)
    requires PermScan.ValidLane(laneSize) && |a| % 2 == 0 && laneSize <= |a| <= 64 && laneSize % 2 == 0
    requires |a| % laneSize == 0
    requires laneSize == 2 ==> |a| == 2 || |a| == 4 || |a| == 8
    requires InRange(a, 2 * |a|) && Found(laneSize, a, s) && (s.basics.permA || s.basics.permB)
    ensures var same := s.lanes.samePattern && !s.lanes.crossLane;
      && MovesPlanned(lanes, laneSize, instrset, a, same, m)
      && ShufFlags(laneSize, a, same, m.shufab, m.shufba, m.shufpattern)
    ensures m.rotpattern < 128 && m.shufpattern < 256 && NoCountWithoutUse(m)
  {
    var same := s.lanes.samePattern && !s.lanes.crossLane;
    var t := PlanTurnsAndRotation(lanes, laneSize, instrset, a, same, s.lanes.pattern);
    var ab, ba, pattern := PlanShuf(laneSize, a, same, s.lanes.pattern, s.shuf);
    m := MovePlan(t.unpack, t.turn, t.rotateBig, t.rotpattern, ab, ba, pattern);
  }

  method PlanScanned(lanes: nat, laneSize: nat, instrset: nat, a: seq<int>, s: Scan) returns (r: BlendPlan)
    requires PermScan.ValidLane(laneSize) && |a| % 2 == 0 && laneSize <= |a| <= 64 && laneSize % 2 == 0
    requires |a| % laneSize == 0
    requires laneSize == 2 ==> |a| == 2 || |a| == 4 || |a| == 8
    requires InRange(a, 2 * |a|) && Found(laneSize, a, s)
    ensures Planned(lanes, laneSize, instrset, a, r) && FieldsFit(r)
  {
    var m;
    if s.basics.permA || s.basics.permB {
      m := PlanMoves(lanes, laneSize, instrset, a, s);
      PlanOfMoves(lanes, laneSize, instrset, a, s, m);
    } else {
      m := MovePlan(Unpacks(false, false, false, false), Turns(false, false), false, 0,
                    laneSize == 2 && s.shuf.ab, laneSize == 2 && s.shuf.ba, 0);
      PlanOfBasics(laneSize, a, s, m);
    }
    r := PlanOf(s, m);
  }

  lemma SizeFacts(sh: PermScan.Shape)
    requires sh.Valid()
    ensures sh.Size() % sh.laneSize == 0 && sh.laneSize % 2 == 0
    ensures sh.laneSize == 2 ==> sh.Size() == 2 || sh.Size() == 4 || sh.Size() == 8
  {
    PermScan.LaneSizes(sh.laneSize);
  }

  /** blend_flags. An illegal index stops the analysis and gets only that flag. */
  method BlendFlags(sh: PermScan.Shape, instrset: nat, a: seq<int>) returns (r: BlendPlan)
    requires sh.Valid() && |a| == sh.Size()
    ensures |a| % 2 == 0
    ensures r.outOfRange <==> !InRange(a, 2 * |a|)
    ensures InRange(a, 2 * |a|) ==> Planned(sh.lanes, sh.laneSize, instrset, a, r)
    ensures FieldsFit(r)
  {
    PermPlanning.SizeFacts(sh);
    SizeFacts(sh);
    var s, legal := Scanning(sh.laneSize, a);
    if legal {
      r := PlanScanned(sh.lanes, sh.laneSize, instrset, a, s);
    } else {
      r := BlendPlan(false, false, false, false, false, false, false, false, false, false,
                     Unpacks(false, false, false, false), Turns(false, false), false, false, false, true, 0, 0);
    }
  }
}
