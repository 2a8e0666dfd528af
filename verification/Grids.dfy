/** Two-dimensional arrays of numbers. */
module Grids {
  /** Each row has n elements. */
  predicate Rectangular(f: seq<seq<real>>, n: nat) {
    forall i :: 0 <= i < |f| ==> |f[i]| == n
  }

  /** The first m rows and n columns of an array. */
  ghost function Part(a: array2<real>, m: nat, n: nat): (f: seq<seq<real>>)
    requires m <= a.Length0 && n <= a.Length1
    reads a
    ensures |f| == m && Rectangular(f, n)
    ensures forall i, j :: 0 <= i < m && 0 <= j < n ==> f[i][j] == a[i, j]
  {
    seq(m, i requires 0 <= i < m reads a => seq(n, j requires 0 <= j < n reads a => a[i, j]))
  }

  /** The rows of an array. */
  ghost function Rows(a: array2<real>): (f: seq<seq<real>>)
    reads a
    ensures |f| == a.Length0 && Rectangular(f, a.Length1)
    ensures forall i, j :: 0 <= i < a.Length0 && 0 <= j < a.Length1 ==> f[i][j] == a[i, j]
  {
    Part(a, a.Length0, a.Length1)
  }

  // ----- products, kept apart from linear arithmetic

  function Times(a: real, b: real): real {
    a * b
  }

  lemma TimesSum(a: real, b: real, c: real)
    ensures Times(a + b, c) == Times(a, c) + Times(b, c)
  {
  }
}
