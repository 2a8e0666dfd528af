/** Loading of elements at fixed indexes. */
module Gathers {
  // gather8i and gather4q of vectori256e.h. The array is seen as all of the memory that surrounds
  // it, so that the loads can be observed. The permute and blend functions of the integer vectors
  // are those of the floating point vectors with elements of the same size.

  import opened Options
  import opened Vectors
  import opened IndexLists
  import opened BitNumbers
  import opened HalfIndexes
  import opened HalfRejections
  import HalfBlends

  type Memory = int -> Elem

  const WORD: int := 0x1_0000_0000
  const INT_MAX: int := 0x7FFF_FFFF

  predicate IsMinimum(a: seq<int>, m: int) {
    m in a && forall k :: 0 <= k < |a| ==> m <= a[k]
  }

  predicate IsMaximum(a: seq<int>, m: int) {
    m in a && forall k :: 0 <= k < |a| ==> a[k] <= m
  }

  /** min_index */
  method MinIndex(a: seq<int>) returns (ix: int)
    requires |a| > 0
    ensures IsMinimum(a, ix)
  {
    ix := a[0];
    for i := 1 to |a|
      invariant ix in a && forall k :: 0 <= k < i ==> ix <= a[k]
    {
      if a[i] < ix { ix := a[i]; }
    }
  }

  /** max_index */
  method MaxIndex(a: seq<int>) returns (ix: int)
    requires |a| > 0
    ensures IsMaximum(a, ix)
  {
    ix := a[0];
    for i := 1 to |a|
      invariant ix in a && forall k :: 0 <= k < i ==> a[k] <= ix
    {
      if a[i] > ix { ix := a[i]; }
    }
  }

  // ----- loading a block

  function Block(mem: Memory, p: int, n: nat): (v: Vec)
    ensures |v| == n && forall k :: 0 <= k < n ==> v[k] == mem(p + k)
  {
    seq(n, k requires 0 <= k < n => mem(p + k))
  }

  ghost predicate Covers(touched: set<int>, p: int, n: nat) {
    forall q :: q in touched <==> p <= q < p + n
  }

  function Places(p: int, n: nat): (s: set<int>)
    ensures Covers(s, p, n)
  {
    if n == 0 then {} else Places(p, n - 1) + {p + n - 1}
  }

  /** The load instruction: a block and the places that were read. */
  method Load(mem: Memory, p: int, n: nat) returns (v: Vec, touched: set<int>)
    ensures v == Block(mem, p, n) && touched == Places(p, n)
  {
    v := Block(mem, p, n);
    touched := Places(p, n);
  }

  // ----- the lookup function

  /** For n a power of two, the mask n - 1 changes no index below n, and gives no other. */
  lemma {:induction false} MaskedIndex(i: nat, n: nat)
    requires n > 0 && BitAnd(n, n - 1) == 0
    ensures BitAnd(i, n - 1) < n && (i < n ==> BitAnd(i, n - 1) == i)
  {
    if n > 1 {
      EvenPower(n);
      MaskedIndex(i / 2, n / 2);
      assert BitAnd(i, n - 1) == 2 * BitAnd(i / 2, n / 2 - 1) + i % 2;
    }
  }

  lemma EvenPower(n: nat)
    requires n > 1 && BitAnd(n, n - 1) == 0
    ensures n % 2 == 0 && BitAnd(n / 2, n / 2 - 1) == 0 && (n - 1) / 2 == n / 2 - 1
  {
    if n % 2 == 1 {
      assert (n - 1) / 2 == n / 2;
      BitAndSelf(n / 2);
      assert false;
    }
  }

  lemma {:induction false} PowersHaveNoCommonBit(n: nat)
    requires n > 0
    ensures BitAnd(n, n - 1) == 0 <==> PowerOfTwo(n)
  {
    if n % 2 == 1 {
      assert (n - 1) / 2 == n / 2;
      BitAndSelf(n / 2);
    } else {
      PowersHaveNoCommonBit(n / 2);
      assert (n - 1) / 2 == n / 2 - 1;
    }
  }

  lemma {:induction false} MaskIsRemainder(i: nat, n: nat)
    requires n > 0 && BitAnd(n, n - 1) == 0
    ensures BitAnd(i, n - 1) == i % n
  {
    if n > 1 {
      EvenPower(n);
      MaskIsRemainder(i / 2, n / 2);
      assert BitAnd(i, n - 1) == 2 * BitAnd(i / 2, n / 2 - 1) + i % 2;
      RemainderOfHalf(i, n / 2);
    }
  }

  lemma RemainderOfHalf(i: nat, h: nat)
    requires h > 0
    ensures i % (2 * h) == 2 * (i / 2 % h) + i % 2
  {
    var q := i / 2 / h;
    assert i / 2 == q * h + i / 2 % h;
    assert i == q * (2 * h) + (2 * (i / 2 % h) + i % 2);
    DivisionIsUnique(i, q, 2 * (i / 2 % h) + i % 2, 2 * h);
  }

  /** What limiting does to an index outside of the table: modulo n if n is a power of two,
      otherwise the last place, where a negative index is a large one. */
  lemma LimitedIs(i: int, n: nat)
    requires 0 < n <= INT_MAX
    ensures PowerOfTwo(n) ==> Limited(i, n) == i % 0x1_0000_0000 % n
    ensures !PowerOfTwo(n) && 0 <= i < n ==> Limited(i, n) == i
    ensures !PowerOfTwo(n) && n <= i < 0x1_0000_0000 ==> Limited(i, n) == n - 1
    ensures !PowerOfTwo(n) && -0x8000_0000 <= i < 0 ==> Limited(i, n) == n - 1
  {
    PowersHaveNoCommonBit(n);
    if PowerOfTwo(n) {
      MaskIsRemainder(i % WORD, n);
    }
  }

  /** An index as an unsigned 32-bit number, limited to the table. */
  function Limited(i: int, n: nat): (j: nat)
    requires 0 < n <= INT_MAX
    ensures j < n && (0 <= i < n ==> j == i)
  {
    Capped(i % WORD, n)
  }

  function Capped(u: nat, n: nat): (j: nat)
    requires n > 0
    ensures j < n && (u < n ==> j == u)
  {
    if BitAnd(n, n - 1) == 0 then
      MaskedIndex(u, n);
      BitAnd(u, n - 1)
    else if u < n - 1 then u else n - 1
  }

  /** lookup in a table of n elements that is too large for a register. No index can make it
      read outside the table. */
  method Lookup(mem: Memory, n: nat, index: seq<int>) returns (v: Vec, touched: set<int>)
    requires 0 < n <= INT_MAX
    ensures |v| == |index| && forall k :: 0 <= k < |index| ==> v[k] == mem(Limited(index[k], n))
    ensures forall p :: p in touched ==> 0 <= p < n
  {
    v, touched := [], {};
    for k := 0 to |index|
      invariant |v| == k && forall j :: 0 <= j < k ==> v[j] == mem(Limited(index[j], n))
      invariant forall p :: p in touched ==> 0 <= p < n
    {
      v := v + [mem(Limited(index[k], n))];
      touched := touched + {Limited(index[k], n)};
    }
  }

  // ----- gather

  predicate Gathered(mem: Memory, idx: seq<int>, v: Vec) {
    |v| == |idx| && forall k :: 0 <= k < |idx| ==> v[k] == mem(idx[k])
  }

  /** No load reads before the array or after the largest index. */
  predicate StaysWithin(touched: set<int>, imax: int) {
    forall p :: p in touched ==> 0 <= p <= imax
  }

  /** When the loads stay within the array up to the largest index. */
  predicate LargeEnough(imin: int, imax: int, n: nat) {
    imax >= n || (imax == n - 1 && imin == 0)
  }

  /** Indexes relative to p. */
  function Relative(idx: seq<int>, p: int): (r: seq<int>)
    ensures |r| == |idx| && forall k :: 0 <= k < |idx| ==> r[k] == idx[k] - p
  {
    seq(|idx|, k requires 0 <= k < |idx| => idx[k] - p)
  }

  /** Indexes into two blocks at p and q. */
  function InTwoBlocks(idx: seq<int>, p: int, q: int, n: nat): (r: seq<int>)
    ensures |r| == |idx| && forall k :: 0 <= k < |idx| ==> r[k] == if idx[k] < p + n then idx[k] - p else idx[k] - q + n
  {
    seq(|idx|, k requires 0 <= k < |idx| => if idx[k] < p + n then idx[k] - p else idx[k] - q + n)
  }

  /** gather8i, gather4q: the width is that of the emulated vectors. A negative index is
      rejected. */
  method Gather(base: Base, levels: nat, instrset: nat, zextMissing: bool, idx: seq<int>, mem: Memory)
      returns (r: Option<Vec>, touched: set<int>)
    requires levels > 0 && base.Supported(instrset) && |idx| == WidthAt(base, levels)
    requires forall p :: |mem(p)| == base.ElementSize()
    requires forall k :: 0 <= k < |idx| ==> idx[k] < INT_MAX
    ensures r.None? <==> exists k :: 0 <= k < |idx| && idx[k] < 0
    ensures r.Some? ==> Gathered(mem, idx, r.value)
    ensures forall imin, imax :: r.Some? && IsMinimum(idx, imin) && IsMaximum(idx, imax) ==>
      (StaysWithin(touched, imax) <==> LargeEnough(imin, imax, |idx|))
  {
    var n := |idx|;
    var imin := MinIndex(idx);
    var imax := MaxIndex(idx);
    touched := {};
    if imin < 0 {
      return None, touched;
    }
    if imax - imin <= n - 1 {
      var p := if imax > n - 1 then imax - (n - 1) else imin;
      r, touched := OneBlock(base, levels, instrset, zextMissing, idx, mem, p);
      OneBlockWithin(touched, p, n, imin, imax);
      return;
    }
    if forall k :: 0 <= k < n ==> idx[k] < imin + n || idx[k] > imax - n {
      r, touched := TwoBlocks(base, levels, instrset, zextMissing, idx, mem, imin, imax - (n - 1));
      return;
    }
    var v;
    v, touched := Lookup(mem, imax + 1, idx);
    r := Some(v);
  }

  /** With all indexes 0, elements after the only one asked for are read. */
  method GatherOfFirst(mem: Memory) returns (r: Option<Vec>, touched: set<int>)
    requires forall p :: |mem(p)| == 4
    ensures r.Some? && Gathered(mem, [0, 0, 0, 0, 0, 0, 0, 0], r.value)
    ensures !StaysWithin(touched, 0)
  {
    var idx := [0, 0, 0, 0, 0, 0, 0, 0];
    assert IsMinimum(idx, 0) && IsMaximum(idx, 0);
    r, touched := Gather(Vec4f, 1, 2, false, idx, mem);
  }

  /** Whether the single block stays within the array. */
  lemma OneBlockWithin(touched: set<int>, p: int, n: nat, imin: int, imax: int)
    requires n > 0 && 0 <= imin <= imax <= imin + n - 1
    requires p == if imax > n - 1 then imax - (n - 1) else imin
    requires Covers(touched, p, n)
    ensures StaysWithin(touched, imax) <==> LargeEnough(imin, imax, n)
  {
    assert p + n - 1 in touched && p in touched;
  }

  /** Load one block and permute. */
  method OneBlock(base: Base, levels: nat, instrset: nat, zextMissing: bool, idx: seq<int>, mem: Memory, p: int)
      returns (r: Option<Vec>, touched: set<int>)
    requires levels > 0 && base.Supported(instrset) && |idx| == WidthAt(base, levels)
    requires forall q :: |mem(q)| == base.ElementSize()
    requires forall k :: 0 <= k < |idx| ==> p <= idx[k] < p + |idx|
    ensures r.Some? && Gathered(mem, idx, r.value) && Covers(touched, p, |idx|)
  {
    var n := |idx|;
    var b;
    b, touched := Load(mem, p, n);
    var list := Relative(idx, p);
    InRangeAccepted(base, levels, list);
    r := HalfBlends.EmulatedPermute(base, levels, instrset, zextMissing, list, b);
    SanitizedInRange(list, n);
    PermutedBlock(mem, idx, p, base.ElementSize(), r.value);
  }

  lemma PermutedBlock(mem: Memory, idx: seq<int>, p: int, s: nat, y: Vec)
    requires forall k :: 0 <= k < |idx| ==> p <= idx[k] < p + |idx|
    requires Meets(Relative(idx, p), s, Block(mem, p, |idx|), y)
    ensures Gathered(mem, idx, y)
  {
    var list, b := Relative(idx, p), Block(mem, p, |idx|);
    forall k | 0 <= k < |idx| ensures y[k] == mem(idx[k]) {
      assert 0 <= list[k] < |b| && b[list[k]] == mem(p + list[k]);
    }
  }

  /** Load two blocks and blend. */
  method TwoBlocks(base: Base, levels: nat, instrset: nat, zextMissing: bool, idx: seq<int>, mem: Memory,
                   p: int, q: int) returns (r: Option<Vec>, touched: set<int>)
    requires levels > 0 && base.Supported(instrset) && |idx| == WidthAt(base, levels)
    requires forall i :: |mem(i)| == base.ElementSize()
    requires forall k :: 0 <= k < |idx| ==> p <= idx[k] && (idx[k] < p + |idx| || q <= idx[k] < q + |idx|)
    ensures r.Some? && Gathered(mem, idx, r.value)
    ensures forall i :: i in touched <==> p <= i < p + |idx| || q <= i < q + |idx|
  {
    var n := |idx|;
    var b, touchedB := Load(mem, p, n);
    var c, touchedC := Load(mem, q, n);
    touched := touchedB + touchedC;
    var list := InTwoBlocks(idx, p, q, n);
    LegalAccepted(base, levels, list);
    r := HalfBlends.WideBlend(base, levels, instrset, zextMissing, list, b, c);
    SanitizedInRange(list, 2 * n);
    forall k | 0 <= k < n ensures r.value[k] == mem(idx[k]) {
      BlendedElement(mem, b, c, p, q, n, idx[k]);
      assert 0 <= list[k] < |b + c|;
    }
  }

  lemma BlendedElement(mem: Memory, b: Vec, c: Vec, p: int, q: int, n: nat, i: int)
    requires b == Block(mem, p, n) && c == Block(mem, q, n) && (p <= i < p + n || (p + n <= i && q <= i < q + n))
    ensures (b + c)[if i < p + n then i - p else i - q + n] == mem(i)
  {
  }
}
