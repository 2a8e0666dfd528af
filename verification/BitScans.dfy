/** The number of the highest bit. */
module BitScans {
  // bit_scan_reverse_const of instrset.h

  import opened IndexLists
  import opened BitNumbers

  /** A shift keeps the order with a power of two. */
  lemma {:induction false} ShiftedBelow(n: nat, b: nat, j: nat)
    ensures RightShift(n, b) < Pow2(j) <==> n < Pow2(b + j)
  {
    if b > 0 { ShiftedBelow(n / 2, b - 1, j); }
  }

  /** What is left after a shift by b fits in j bits. */
  predicate Left(n: nat, a: nat, b: nat, j: nat) {
    a == RightShift(n, b) && 1 <= a < Pow2(j)
  }

  lemma HalfTheBits(n: nat, a: nat, b: nat, j: nat)
    requires Left(n, a, b, 2 * j)
    ensures if a >= Pow2(j) then Left(n, RightShift(a, j), b + j, j) else Left(n, a, b, j)
  {
    ShiftedBelow(a, j, j);
    ShiftedBelow(a, j, 0);
    ShiftedTwice(n, b, j);
  }

  lemma OneBitLeft(n: nat, a: nat, b: nat)
    requires Left(n, a, b, 1)
    ensures Pow2(b) <= n < Pow2(b + 1)
  {
    ShiftedBelow(n, b, 0);
    ShiftedBelow(n, b, 1);
  }

  /** bit_scan_reverse_const. The last turn, which shifts by 0, changes nothing. */
  method BitScanReverse(n: nat) returns (r: int)
    requires n < Pow2(64)
    ensures n == 0 ==> r == -1
    ensures n > 0 ==> 0 <= r < 64 && Pow2(r) <= n < Pow2(r + 1)
  {
    if n == 0 { return -1; }
    var a: nat, b: nat, j: nat := n, 0, 64;
    while j > 0
      invariant j == 0 || PowerOfTwo(j)
      invariant Left(n, a, b, if j == 0 then 1 else j)
      invariant b <= 64 - j && b < 64
    {
      if j > 1 { HalfTheBits(n, a, b, j / 2); }
      j := j / 2;
      if a >= Pow2(j) {
        a, b := RightShift(a, j), b + j;
      }
    }
    OneBitLeft(n, a, b);
    r := b;
  }
}
