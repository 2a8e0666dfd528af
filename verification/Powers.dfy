/** Integer powers by repeated squaring. */
module Powers {
  // pow_template_i and pow_n of vectorf128.h. Floating point numbers are modelled as exact reals,
  // with the two special results that the functions can have.

  import opened Options
  import opened BitNumbers

  datatype Num = Finite(v: real) | Infinite | NotANumber

  const INT_MIN: int := -0x8000_0000
  const INT_MAX: int := 0x7FFF_FFFF

  function Pow(x: real, n: nat): real {
    if n == 0 then 1.0 else x * Pow(x, n - 1)
  }

  lemma FirstPowers(x: real)
    ensures Pow(x, 0) == 1.0 && Pow(x, 1) == x && Pow(x, 2) == x * x
  {
    assert Pow(x, 1) == x * Pow(x, 0);
  }

  lemma {:induction false} PowAdd(x: real, m: nat, n: nat)
    ensures Pow(x, m) * Pow(x, n) == Pow(x, m + n)
  {
    if m > 0 {
      PowAdd(x, m - 1, n);
      assert Pow(x, m) * Pow(x, n) == x * (Pow(x, m - 1) * Pow(x, n));
    }
  }

  lemma PowAddOf(x: real, m: nat, n: nat, p: real, q: real)
    requires p == Pow(x, m) && q == Pow(x, n)
    ensures p * q == Pow(x, m + n)
  {
    PowAdd(x, m, n);
  }

  lemma {:induction false} PowOfSquare(x: real, n: nat)
    ensures Pow(x * x, n) == Pow(x, 2 * n)
  {
    if n > 0 {
      PowOfSquare(x, n - 1);
      assert Pow(x, 2 * n) == x * (x * Pow(x, 2 * (n - 1)));
      assert Pow(x * x, n) == (x * x) * Pow(x * x, n - 1);
    }
  }

  lemma {:induction false} PowZero(x: real, n: nat)
    requires n > 0
    ensures Pow(x, n) == 0.0 <==> x == 0.0
  {
    if n > 1 { PowZero(x, n - 1); }
  }

  /** 1/x for a finite x. */
  function Reciprocal(x: real): Num {
    if x == 0.0 then Infinite else Finite(1.0 / x)
  }

  /** The power that the functions promise: x^n for n >= 0, otherwise the reciprocal of x^-n,
      except that the negation of the smallest integer overflows. */
  function PowerOf(x: real, n: int): Num {
    if n >= 0 then Finite(Pow(x, n))
    else if n == INT_MIN then NotANumber
    else Reciprocal(Pow(x, -n))
  }

  /** The result is the inverse of the positive power, and infinite only for x = 0. */
  lemma NegativePower(x: real, n: int)
    requires INT_MIN < n < 0
    ensures PowerOf(x, n) == Infinite <==> x == 0.0
    ensures x != 0.0 ==> PowerOf(x, n).Finite? && PowerOf(x, n).v * Pow(x, -n) == 1.0
  {
    PowZero(x, -n);
  }

  /** One bit of the exponent. */
  lemma HalveExponent(x: real, n: nat, y: real)
    ensures y * Pow(x, n) == (if n % 2 == 1 then y * x else y) * Pow(x * x, n / 2)
  {
    PowOfSquare(x, n / 2);
    if n % 2 == 1 {
      assert Pow(x, n) == x * Pow(x, n - 1) && n - 1 == 2 * (n / 2);
      assert y * (x * Pow(x, n - 1)) == (y * x) * Pow(x, n - 1);
    } else {
      assert n == 2 * (n / 2);
    }
  }

  /** pow_template_i */
  method PowTemplate(x0: real, n0: int) returns (r: Num)
    requires INT_MIN <= n0 <= INT_MAX
    ensures r == PowerOf(x0, n0)
    ensures n0 >= 0 ==> r == Finite(Pow(x0, n0))
    ensures n0 == -0x8000_0000 ==> r == NotANumber
    ensures -0x8000_0000 < n0 < 0 ==> (r == Infinite <==> x0 == 0.0)
    ensures -0x8000_0000 < n0 < 0 && x0 != 0.0 ==> r.Finite? && r.v * Pow(x0, -n0) == 1.0
    decreases n0 < 0
  {
    var x, y, n := x0, 1.0, n0;
    if n >= 0 {
      while true
        invariant n >= 0 && y * Pow(x, n) == Pow(x0, n0)
        decreases n
      {
        HalveExponent(x, n, y);
        if n % 2 == 1 { y := y * x; }
        n := n / 2;
        if n == 0 { return Finite(y); }
        x := x * x;
      }
    } else {
      if n == INT_MIN { return NotANumber; }
      r := PowTemplate(x0, -n);
      r := Reciprocal(r.v);
      NegativePower(x0, n0);
    }
  }

  // ----- the unrolled version for a constant exponent

  /** The value of the lowest bit set. */
  function LowestBit(n: nat): nat
    requires n > 0
  {
    if n % 2 == 1 then 1 else 2 * LowestBit(n / 2)
  }

  lemma {:induction false} LowestBitIs(n: nat)
    requires n > 0
    ensures BitAnd(n, n - 1) + LowestBit(n) == n
  {
    if n % 2 == 1 {
      BitAndSelf(n / 2);
      assert (n - 1) / 2 == n / 2;
    } else {
      LowestBitIs(n / 2);
      assert (n - 1) / 2 == n / 2 - 1 && (n - 1) % 2 == 1;
    }
  }

  /** The number made of the k lowest bits. */
  function LowBits(n: nat, k: nat): nat {
    if k == 0 then 0 else n % 2 + 2 * LowBits(n / 2, k - 1)
  }

  lemma {:induction false} LowBitsGrow(n: nat, k: nat)
    ensures LowBits(n, k + 1) == LowBits(n, k) + if FlagBit(n, k) then Pow2(k) else 0
  {
    if k > 0 {
      LowBitsGrow(n / 2, k - 1);
      assert FlagBit(n, k) == FlagBit(n / 2, k - 1);
      assert LowBits(n, k + 1) == n % 2 + 2 * LowBits(n / 2, k);
    }
  }

  lemma {:induction false} LowBitsAll(n: nat, k: nat)
    requires n < Pow2(k)
    ensures LowBits(n, k) == n
  {
    if k > 0 { LowBitsAll(n / 2, k - 1); }
  }

  /** Bit k is the lowest one if and only if it is set and those below it are not. */
  lemma {:induction false} LowestBitAt(n: nat, k: nat)
    requires n > 0
    ensures LowestBit(n) == Pow2(k) <==> LowBits(n, k) == 0 && FlagBit(n, k)
  {
    if k > 0 && n % 2 == 0 {
      LowestBitAt(n / 2, k - 1);
      assert FlagBit(n, k) == FlagBit(n / 2, k - 1);
    }
  }

  /** The state after bit k of the exponent: x has been squared k times; the accumulator y has
      been written if and only if one of the bits so far is set. */
  ghost predicate BitsDone(a: real, n: nat, k: nat, x: real, y: Option<real>) {
    var low := LowBits(n, k + 1);
    x == Pow(a, Pow2(k)) && y == if low == 0 then None else Some(Pow(a, low))
  }

  /** Squaring and one bit. Reading y requires that it has been written. */
  method NextBit(ghost a: real, n: nat, k: nat, lowest: nat, x0: real, y0: Option<real>)
      returns (x: real, y: Option<real>)
    requires n > 0 && lowest == LowestBit(n) && BitsDone(a, n, k, x0, y0)
    ensures BitsDone(a, n, k + 1, x, y)
  {
    x, y := x0 * x0, y0;
    PowAddOf(a, Pow2(k), Pow2(k), x0, x0);
    LowestBitAt(n, k + 1);
    LowBitsGrow(n, k + 1);
    Pow2Doubles(k);
    assert x == Pow(a, Pow2(k + 1));
    if FlagBit(n, k + 1) {
      if lowest == Pow2(k + 1) {
        y := Some(x);
      } else {
        var z := y.value * x;
        PowAddOf(a, LowBits(n, k + 1), Pow2(k + 1), y.value, x);
        assert z == Pow(a, LowBits(n, k + 2));
        y := Some(z);
      }
    }
  }

  lemma Pow2Doubles(k: nat)
    ensures Pow2(k + 1) == Pow2(k) + Pow2(k) && Pow2(k) > 0
  {
  }

  lemma Finished(a: real, n: nat, k: nat, x: real, y: Option<real>)
    requires 0 < n < Pow2(k + 1) && BitsDone(a, n, k, x, y)
    ensures y == Some(Pow(a, n))
  {
    LowBitsAll(n, k + 1);
  }

  lemma UnitsAre()
    ensures Pow2(0) == 1 && Pow2(1) == 2 && Pow2(2) == 4 && Pow2(3) == 8 && Pow2(4) == 16
    ensures Pow2(5) == 32 && Pow2(6) == 64 && Pow2(7) == 128 && Pow2(8) == 256
  {
    assert Pow2(2) == 4;
    assert Pow2(4) == 16;
    assert Pow2(6) == 64;
  }

  /** pow_n. The accumulator y has no value at first; that it is never read before it is written
      is part of what is verified. For the smallest integer the function does not compile: the
      test for it comes first, but the branch for negative exponents is instantiated all the same,
      and its exponent overflows. */
  method PowN(a: real, n: int) returns (r: Option<Num>)
    requires INT_MIN <= n <= INT_MAX
    ensures r.None? <==> n == INT_MIN
    ensures r.Some? ==> r.value == PowerOf(a, n)
    ensures n >= 0 ==> r == Some(Finite(Pow(a, n)))
    ensures INT_MIN < n < 0 ==> (r == Some(Infinite) <==> a == 0.0)
    ensures INT_MIN < n < 0 && a != 0.0 ==> r.Some? && r.value.Finite? && r.value.v * Pow(a, -n) == 1.0
    decreases n < 0
  {
    if n == INT_MIN { return None; }
    if n < 0 {
      var p := PowN(a, -n);
      NegativePower(a, n);
      return Some(Reciprocal(p.value.v));
    }
    if n == 0 { return Some(Finite(1.0)); }
    var y;
    if n >= 256 {
      y := PowTemplate(a, n);
    } else {
      y := PowUnrolled(a, n);
    }
    r := Some(y);
  }

  method PowUnrolled(a: real, n: nat) returns (r: Num)
    requires 0 < n < 256
    ensures r == Finite(Pow(a, n))
  {
    UnitsAre();
    var lowest := n - BitAnd(n, n - 1);
    LowestBitIs(n);
    var x, y := a, None;
    if n % 2 == 1 { y := Some(x); }
    assert Pow(a, 0) == 1.0 && Pow(a, 1) == a && LowBits(n, 1) == n % 2;
    if n < 2 { Finished(a, n, 0, x, y); return Finite(y.value); }
    x, y := NextBit(a, n, 0, lowest, x, y);
    if n < 4 { Finished(a, n, 1, x, y); return Finite(y.value); }
    x, y := NextBit(a, n, 1, lowest, x, y);
    if n < 8 { Finished(a, n, 2, x, y); return Finite(y.value); }
    x, y := NextBit(a, n, 2, lowest, x, y);
    if n < 16 { Finished(a, n, 3, x, y); return Finite(y.value); }
    x, y := NextBit(a, n, 3, lowest, x, y);
    if n < 32 { Finished(a, n, 4, x, y); return Finite(y.value); }
    x, y := NextBit(a, n, 4, lowest, x, y);
    if n < 64 { Finished(a, n, 5, x, y); return Finite(y.value); }
    x, y := NextBit(a, n, 5, lowest, x, y);
    if n < 128 { Finished(a, n, 6, x, y); return Finite(y.value); }
    x, y := NextBit(a, n, 6, lowest, x, y);
    Finished(a, n, 7, x, y);
    return Finite(y.value);
  }
}
