/** Numbers as strings of bits. */
module BitNumbers {

  function BitAnd(x: nat, y: nat): (r: nat)
    ensures r <= x && r <= y
  {
    if x == 0 || y == 0 then 0 else 2 * BitAnd(x / 2, y / 2) + (if x % 2 == 1 && y % 2 == 1 then 1 else 0)
  }

  lemma {:induction false} BitAndSelf(x: nat)
    ensures BitAnd(x, x) == x
  {
    if x > 0 { BitAndSelf(x / 2); }
  }

  function RightShift(x: nat, n: nat): nat {
    if n == 0 then x else RightShift(x / 2, n - 1)
  }

  function FlagBit(b: nat, n: nat): bool {
    RightShift(b, n) % 2 == 1
  }

  function Pow2(n: nat): (p: nat)
    ensures p > 0
  {
    if n == 0 then 1 else 2 * Pow2(n - 1)
  }

  /** Bit n of a number below 2^(n+1) tells which half it is in. */
  lemma {:induction false} TopBit(x: nat, n: nat)
    requires x < 2 * Pow2(n)
    ensures FlagBit(x, n) <==> x >= Pow2(n)
  {
    if n > 0 {
      TopBit(x / 2, n - 1);
    }
  }

  lemma {:induction false} ShiftedTwice(n: nat, b: nat, j: nat)
    ensures RightShift(RightShift(n, b), j) == RightShift(n, b + j)
  {
    if b > 0 { ShiftedTwice(n / 2, b - 1, j); }
  }

  lemma ShiftsAre(x: nat)
    ensures RightShift(x, 0) == x && RightShift(x, 1) == x / 2 && RightShift(x, 2) == x / 4
    ensures RightShift(x, 8) == x / 256
  {
    TwoAndFour(x);
    TwoAndFour(x / 16);
    ShiftedTwice(x, 4, 4);
  }

  lemma TwoAndFour(x: nat)
    ensures RightShift(x, 1) == x / 2 && RightShift(x, 2) == x / 4 && RightShift(x, 4) == x / 16
  {
    assert RightShift(x, 1) == RightShift(x / 2, 0);
    assert RightShift(x, 2) == RightShift(x / 2, 1) == RightShift(x / 2 / 2, 0);
    assert RightShift(x / 4, 2) == RightShift(x / 4 / 2, 1) == RightShift(x / 4 / 2 / 2, 0);
    ShiftedTwice(x, 2, 2);
  }

  /** The bits at 8, 9 and 10. */
  lemma HighBits(b: nat)
    ensures FlagBit(b, 8) <==> b / 256 % 2 == 1
    ensures FlagBit(b, 9) <==> b / 512 % 2 == 1
    ensures FlagBit(b, 10) <==> b / 1024 % 2 == 1
  {
    ShiftsAre(b);
    OneMoreShift(b, 8);
    OneMoreShift(b, 9);
    assert b / 256 / 2 == b / 512;
    assert b / 512 / 2 == b / 1024;
  }

  lemma OneMoreShift(p: nat, k: nat)
    ensures RightShift(p, k + 1) == RightShift(p, k) / 2
  {
    ShiftedTwice(p, k, 1);
    assert RightShift(RightShift(p, k), 1) == RightShift(RightShift(p, k) / 2, 0);
  }

  lemma LowEightBits(p: nat)
    ensures RightShift(p, 1) == p / 2 && RightShift(p, 2) == p / 4 && RightShift(p, 3) == p / 8
    ensures RightShift(p, 4) == p / 16 && RightShift(p, 5) == p / 32
    ensures RightShift(p, 6) == p / 64 && RightShift(p, 7) == p / 128
  {
    TwoAndFour(p);
    OneMoreShift(p, 2);
    OneMoreShift(p, 4);
    OneMoreShift(p, 5);
    OneMoreShift(p, 6);
    HalvedAgain(p);
  }

  lemma HalvedAgain(p: nat)
    ensures p / 4 / 2 == p / 8 && p / 16 / 2 == p / 32 && p / 32 / 2 == p / 64 && p / 64 / 2 == p / 128
  {
  }
}
