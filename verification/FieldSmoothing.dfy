/** Smoothing of a two-dimensional field. */
module FieldSmoothing {
  // smoothField2d of pplotutil.py. The filter matrix is (1 2 1) x (1 2 1), and each dimension
  // can be periodic. Numbers are exact reals.

  import opened Grids

  // ----- sums

  function Sum(s: seq<real>): real {
    if s == [] then 0.0 else s[0] + Sum(s[1..])
  }

  lemma {:induction false} SumAppend(s: seq<real>, t: seq<real>)
    ensures Sum(s + t) == Sum(s) + Sum(t)
  {
    if s == [] {
      assert s + t == t;
    } else {
      SumAppend(s[1..], t);
      assert (s + t)[1..] == s[1..] + t;
    }
  }

  function Zeros(n: nat): (z: seq<real>)
    ensures |z| == n && forall i :: 0 <= i < n ==> z[i] == 0.0
  {
    seq(n, _ => 0.0)
  }

  lemma {:induction false} SumOfZeros(n: nat)
    ensures Sum(Zeros(n)) == 0.0
  {
    if n > 0 {
      SumOfZeros(n - 1);
      assert Zeros(n)[1..] == Zeros(n - 1);
    }
  }

  lemma {:induction false} SumScaled(s: seq<real>, x: real)
    ensures Sum(Scaled(s, x)) == Sum(s) * x
  {
    if s != [] {
      SumScaled(s[1..], x);
      assert Scaled(s, x)[1..] == Scaled(s[1..], x);
    }
  }

  function Scaled(s: seq<real>, x: real): (r: seq<real>)
    ensures |r| == |s| && forall i :: 0 <= i < |s| ==> r[i] == Times(s[i], x)
  {
    seq(|s|, i requires 0 <= i < |s| => Times(s[i], x))
  }

  // ----- the filter in one dimension

  /** The index i, which can be one outside at either end, or -1 if there is nothing there. */
  function Inside(i: int, len: nat, periodic: bool): (k: int)
    requires -1 <= i <= len && len > 0
    ensures -1 <= k < len
  {
    if 0 <= i < len then i else if !periodic then -1 else if i < 0 then len - 1 else 0
  }

  function At(s: seq<real>, i: int, periodic: bool): real
    requires -1 <= i <= |s| && |s| > 0
  {
    var k := Inside(i, |s|, periodic);
    if k < 0 then 0.0 else s[k]
  }

  predicate AtEdge(i: int, len: nat, periodic: bool) {
    !periodic && (i == 0 || i == len - 1)
  }

  function Mixed(a: real, b: real, c: real, edge: bool): real {
    if edge then (a + 2.0 * b + c) / 3.0 else (a + 2.0 * b + c) / 4.0
  }

  /** The filtered value of element i. */
  function FilteredAt(s: seq<real>, i: int, periodic: bool): real
    requires 0 <= i < |s|
  {
    Mixed(At(s, i - 1, periodic), s[i], At(s, i + 1, periodic), AtEdge(i, |s|, periodic))
  }

  function Filtered(s: seq<real>, periodic: bool): (r: seq<real>)
    ensures |r| == |s| && forall i :: 0 <= i < |s| ==> r[i] == FilteredAt(s, i, periodic)
  {
    seq(|s|, i requires 0 <= i < |s| => FilteredAt(s, i, periodic))
  }

  function MixedRows(a: seq<real>, b: seq<real>, c: seq<real>, edge: bool): (r: seq<real>)
    requires |a| == |b| == |c|
    ensures |r| == |b| && forall i :: 0 <= i < |b| ==> r[i] == Mixed(a[i], b[i], c[i], edge)
  {
    seq(|b|, i requires 0 <= i < |b| => Mixed(a[i], b[i], c[i], edge))
  }

  lemma {:induction false} SumMixed(a: seq<real>, b: seq<real>, c: seq<real>, edge: bool)
    requires |a| == |b| == |c|
    ensures Sum(MixedRows(a, b, c, edge)) == Mixed(Sum(a), Sum(b), Sum(c), edge)
  {
    if b != [] {
      SumMixed(a[1..], b[1..], c[1..], edge);
      assert MixedRows(a, b, c, edge)[1..] == MixedRows(a[1..], b[1..], c[1..], edge);
    }
  }

  /** In one dimension, the total is kept if the dimension is periodic, and also if it has
      two elements. */
  predicate KeepsTotal(len: nat, periodic: bool) {
    periodic || len == 2
  }

  /** The elements one place further on, and one place back, around the period. */
  function Before(s: seq<real>): (r: seq<real>)
    requires |s| > 0
    ensures |r| == |s| && forall i :: 0 <= i < |s| ==> r[i] == At(s, i - 1, true)
  {
    [s[|s| - 1]] + s[..|s| - 1]
  }

  function After(s: seq<real>): (r: seq<real>)
    requires |s| > 0
    ensures |r| == |s| && forall i :: 0 <= i < |s| ==> r[i] == At(s, i + 1, true)
  {
    s[1..] + [s[0]]
  }

  lemma SumSwapped(s: seq<real>, t: seq<real>)
    ensures Sum(s + t) == Sum(t + s)
  {
    SumAppend(s, t);
    SumAppend(t, s);
  }

  lemma BeforeTotal(s: seq<real>)
    requires |s| > 0
    ensures Sum(Before(s)) == Sum(s)
  {
    SumSwapped([s[|s| - 1]], s[..|s| - 1]);
    assert s[..|s| - 1] + [s[|s| - 1]] == s;
    assert Before(s) == [s[|s| - 1]] + s[..|s| - 1];
  }

  lemma AfterTotal(s: seq<real>)
    requires |s| > 0
    ensures Sum(After(s)) == Sum(s)
  {
    SumSwapped([s[0]], s[1..]);
    assert [s[0]] + s[1..] == s;
    assert After(s) == s[1..] + [s[0]];
  }

  lemma FilteredTotal(s: seq<real>, periodic: bool)
    requires |s| > 0 && KeepsTotal(|s|, periodic)
    ensures Sum(Filtered(s, periodic)) == Sum(s)
  {
    if periodic {
      BeforeTotal(s);
      AfterTotal(s);
      assert Filtered(s, true) == MixedRows(Before(s), s, After(s), false);
      SumMixed(Before(s), s, After(s), false);
    } else {
      FilteredPair(s);
    }
  }

  lemma FilteredPair(s: seq<real>)
    requires |s| == 2
    ensures Sum(Filtered(s, false)) == Sum(s)
  {
    SumOfTwo(s);
    SumOfTwo(Filtered(s, false));
    assert FilteredAt(s, 0, false) == (2.0 * s[0] + s[1]) / 3.0;
    assert FilteredAt(s, 1, false) == (s[0] + 2.0 * s[1]) / 3.0;
  }

  lemma SumOfOne(s: seq<real>)
    requires |s| == 1
    ensures Sum(s) == s[0]
  {
    assert s[1..] == [];
  }

  lemma SumOfTwo(s: seq<real>)
    requires |s| == 2
    ensures Sum(s) == s[0] + s[1]
  {
    SumOfOne(s[1..]);
  }

  /** One at the first place. */
  function Unit(len: nat): (u: seq<real>)
    requires len > 0
    ensures |u| == len && u[0] == 1.0 && forall i :: 0 < i < len ==> u[i] == 0.0
  {
    [1.0] + Zeros(len - 1)
  }

  lemma UnitTotal(len: nat, periodic: bool)
    requires len > 0
    ensures Sum(Unit(len)) == 1.0
    ensures 0.0 < Sum(Filtered(Unit(len), periodic)) <= 1.0
    ensures Sum(Filtered(Unit(len), periodic)) == 1.0 <==> KeepsTotal(len, periodic)
  {
    SumOfZeros(len - 1);
    SumOfOne([1.0]);
    SumAppend([1.0], Zeros(len - 1));
    if KeepsTotal(len, periodic) {
      FilteredTotal(Unit(len), periodic);
    } else {
      UnitLost(len);
    }
  }

  lemma UnitLost(len: nat)
    requires len > 0 && len != 2
    ensures Sum(Filtered(Unit(len), false)) == if len == 1 then 2.0 / 3.0 else 11.0 / 12.0
  {
    var u, head := Unit(len), [2.0 / 3.0, 1.0 / 4.0];
    if len == 1 {
      SumOfOne(Filtered(u, false));
    } else {
      forall i | 0 <= i < len ensures FilteredAt(u, i, false) == if i < 2 then head[i] else 0.0 {
      }
      assert Filtered(u, false) == head + Zeros(len - 2);
      SumAppend(head, Zeros(len - 2));
      SumOfZeros(len - 2);
      SumOfTwo(head);
    }
  }

  // ----- the filter in two dimensions

  /** Row i of the field, zero outside a dimension that is not periodic. */
  function RowAt(f: seq<seq<real>>, n: nat, i: int, periodic: bool): (r: seq<real>)
    requires Rectangular(f, n) && -1 <= i <= |f| && |f| > 0
    ensures |r| == n
  {
    var k := Inside(i, |f|, periodic);
    if k < 0 then Zeros(n) else f[k]
  }

  /** The field with one more element at each side. */
  function Padded(f: seq<seq<real>>, n: nat, p1: bool, p2: bool, i: int, j: int): real
    requires Rectangular(f, n) && |f| > 0 && n > 0 && -1 <= i <= |f| && -1 <= j <= n
  {
    At(RowAt(f, n, i, p1), j, p2)
  }

  /** The contribution of one row to the weighted sum around element j. */
  function Weighted(row: seq<real>, j: int, periodic: bool): real
    requires 0 <= j < |row|
  {
    At(row, j - 1, periodic) + 2.0 * At(row, j, periodic) + At(row, j + 1, periodic)
  }

  function Divisor(edge1: bool, edge2: bool): (w: real)
    ensures w > 0.0
  {
    if edge1 && edge2 then 9.0 else if edge1 || edge2 then 12.0 else 16.0
  }

  /** The promised element (i, j). */
  function Smoothed(f: seq<seq<real>>, n: nat, p1: bool, p2: bool, i: int, j: int): real
    requires Rectangular(f, n) && 0 <= i < |f| && 0 <= j < n
  {
    SmoothedRows(RowAt(f, n, i - 1, p1), RowAt(f, n, i, p1), RowAt(f, n, i + 1, p1), j, p2, AtEdge(i, |f|, p1))
  }

  function SmoothedRows(a: seq<real>, b: seq<real>, c: seq<real>, j: int, p2: bool, edge1: bool): real
    requires |a| == |b| == |c| && 0 <= j < |b|
  {
    (Weighted(a, j, p2) + 2.0 * Weighted(b, j, p2) + Weighted(c, j, p2)) / Divisor(edge1, AtEdge(j, |b|, p2))
  }

  predicate IsSmoothed(f: seq<seq<real>>, n: nat, p1: bool, p2: bool, g: seq<seq<real>>)
    requires Rectangular(f, n) && |f| > 0 && n > 0
  {
    && |g| == |f| && Rectangular(g, n)
    && forall i, j :: 0 <= i < |f| && 0 <= j < n ==> g[i][j] == Smoothed(f, n, p1, p2, i, j)
  }

  // ----- the weights, spelled out

  /** Away from the edges, in every mode. */
  lemma InteriorMean(f: seq<seq<real>>, n: nat, p1: bool, p2: bool, i: nat, j: nat)
    requires Rectangular(f, n) && 0 < i < |f| - 1 && 0 < j < n - 1
    ensures Smoothed(f, n, p1, p2, i, j) ==
      (f[i - 1][j - 1] + 2.0 * f[i - 1][j] + f[i - 1][j + 1]
       + 2.0 * f[i][j - 1] + 4.0 * f[i][j] + 2.0 * f[i][j + 1]
       + f[i + 1][j - 1] + 2.0 * f[i + 1][j] + f[i + 1][j + 1]) / 16.0
  {
  }

  /** With both dimensions periodic, everywhere. */
  lemma PeriodicMean(f: seq<seq<real>>, n: nat, i: nat, j: nat)
    requires Rectangular(f, n) && i < |f| && j < n
    ensures var u, d := if i == 0 then |f| - 1 else i - 1, if i == |f| - 1 then 0 else i + 1;
      var l, r := if j == 0 then n - 1 else j - 1, if j == n - 1 then 0 else j + 1;
      Smoothed(f, n, true, true, i, j) ==
      (f[u][l] + 2.0 * f[u][j] + f[u][r] + 2.0 * f[i][l] + 4.0 * f[i][j] + 2.0 * f[i][r]
       + f[d][l] + 2.0 * f[d][j] + f[d][r]) / 16.0
  {
  }

  /** Without periodic dimensions, in two corners and along the first row. */
  lemma OpenMean(f: seq<seq<real>>, n: nat)
    requires Rectangular(f, n) && |f| >= 2 && n >= 2
    ensures var m := |f|;
      && Smoothed(f, n, false, false, 0, 0) == (4.0 * f[0][0] + 2.0 * f[0][1] + 2.0 * f[1][0] + f[1][1]) / 9.0
      && Smoothed(f, n, false, false, m - 1, n - 1)
         == (4.0 * f[m - 1][n - 1] + 2.0 * f[m - 1][n - 2] + 2.0 * f[m - 2][n - 1] + f[m - 2][n - 2]) / 9.0
  {
  }

  lemma OpenEdgeMean(f: seq<seq<real>>, n: nat, j: nat)
    requires Rectangular(f, n) && |f| >= 2 && 0 < j < n - 1
    ensures Smoothed(f, n, false, false, 0, j) ==
      (2.0 * f[0][j - 1] + 4.0 * f[0][j] + 2.0 * f[0][j + 1]
       + f[1][j - 1] + 2.0 * f[1][j] + f[1][j + 1]) / 12.0
  {
  }

  // ----- conservation of the total

  function RowSums(f: seq<seq<real>>): (r: seq<real>)
    ensures |r| == |f| && forall i :: 0 <= i < |f| ==> r[i] == Sum(f[i])
  {
    seq(|f|, i requires 0 <= i < |f| => Sum(f[i]))
  }

  function Total(f: seq<seq<real>>): real {
    Sum(RowSums(f))
  }

  function MixedAt(f: seq<seq<real>>, n: nat, i: int, p1: bool): (r: seq<real>)
    requires Rectangular(f, n) && 0 <= i < |f|
    ensures |r| == n
  {
    MixedRows(RowAt(f, n, i - 1, p1), f[i], RowAt(f, n, i + 1, p1), AtEdge(i, |f|, p1))
  }

  /** The two dimensions can be filtered one after the other. */
  lemma SeparableAt(f: seq<seq<real>>, n: nat, p1: bool, p2: bool, i: nat, j: nat)
    requires Rectangular(f, n) && i < |f| && j < n
    ensures Smoothed(f, n, p1, p2, i, j) == FilteredAt(MixedAt(f, n, i, p1), j, p2)
  {
    RowsSeparable(RowAt(f, n, i - 1, p1), f[i], RowAt(f, n, i + 1, p1), j, p2, AtEdge(i, |f|, p1));
  }

  lemma RowsSeparable(a: seq<real>, b: seq<real>, c: seq<real>, j: nat, p2: bool, edge1: bool)
    requires |a| == |b| == |c| && j < |b|
    ensures SmoothedRows(a, b, c, j, p2, edge1) == FilteredAt(MixedRows(a, b, c, edge1), j, p2)
  {
    AtMixed(a, b, c, edge1, j - 1, p2);
    AtMixed(a, b, c, edge1, j + 1, p2);
    NineTerms(At(a, j - 1, p2), a[j], At(a, j + 1, p2), At(b, j - 1, p2), b[j], At(b, j + 1, p2),
      At(c, j - 1, p2), c[j], At(c, j + 1, p2), edge1, AtEdge(j, |b|, p2));
  }

  lemma Separable(f: seq<seq<real>>, n: nat, p1: bool, p2: bool, g: seq<seq<real>>, i: nat)
    requires Rectangular(f, n) && i < |f| && n > 0 && IsSmoothed(f, n, p1, p2, g)
    ensures g[i] == Filtered(MixedAt(f, n, i, p1), p2)
  {
    forall j | 0 <= j < n ensures g[i][j] == FilteredAt(MixedAt(f, n, i, p1), j, p2) {
      SeparableAt(f, n, p1, p2, i, j);
    }
  }

  lemma AtMixed(a: seq<real>, b: seq<real>, c: seq<real>, edge: bool, j: int, p: bool)
    requires |a| == |b| == |c| > 0 && -1 <= j <= |b|
    ensures At(MixedRows(a, b, c, edge), j, p) == Mixed(At(a, j, p), At(b, j, p), At(c, j, p), edge)
  {
  }

  lemma NineTerms(a0: real, a1: real, a2: real, b0: real, b1: real, b2: real, c0: real, c1: real, c2: real,
                  edge1: bool, edge2: bool)
    ensures Mixed(Mixed(a0, b0, c0, edge1), Mixed(a1, b1, c1, edge1), Mixed(a2, b2, c2, edge1), edge2)
      == ((a0 + 2.0 * a1 + a2) + 2.0 * (b0 + 2.0 * b1 + b2) + (c0 + 2.0 * c1 + c2)) / Divisor(edge1, edge2)
  {
  }

  lemma SumOfMixedAt(f: seq<seq<real>>, n: nat, i: nat, p1: bool)
    requires Rectangular(f, n) && i < |f|
    ensures Sum(MixedAt(f, n, i, p1)) == Filtered(RowSums(f), p1)[i]
  {
    SumMixed(RowAt(f, n, i - 1, p1), f[i], RowAt(f, n, i + 1, p1), AtEdge(i, |f|, p1));
    SumOfZeros(n);
  }

  lemma TotalKept(f: seq<seq<real>>, n: nat, p1: bool, p2: bool, g: seq<seq<real>>)
    requires Rectangular(f, n) && |f| > 0 && n > 0 && IsSmoothed(f, n, p1, p2, g)
    requires KeepsTotal(|f|, p1) && KeepsTotal(n, p2)
    ensures Total(g) == Total(f)
  {
    forall i | 0 <= i < |f| ensures RowSums(g)[i] == Filtered(RowSums(f), p1)[i] {
      Separable(f, n, p1, p2, g, i);
      FilteredTotal(MixedAt(f, n, i, p1), p2);
      SumOfMixedAt(f, n, i, p1);
    }
    assert RowSums(g) == Filtered(RowSums(f), p1);
    FilteredTotal(RowSums(f), p1);
  }

  /** A single one in the corner. */
  function Corner(m: nat, n: nat): (f: seq<seq<real>>)
    requires m > 0 && n > 0
    ensures |f| == m && Rectangular(f, n) && f[0] == Unit(n)
    ensures forall i :: 0 < i < m ==> f[i] == Zeros(n)
  {
    [Unit(n)] + seq(m - 1, _ => Zeros(n))
  }

  lemma CornerRows(m: nat, n: nat, p1: bool, p2: bool, g: seq<seq<real>>, i: nat)
    requires m > 0 && n > 0 && i < m && IsSmoothed(Corner(m, n), n, p1, p2, g)
    ensures Sum(g[i]) == Times(Filtered(Unit(m), p1)[i], Sum(Filtered(Unit(n), p2)))
  {
    Separable(Corner(m, n), n, p1, p2, g, i);
    CornerRow(m, n, p1, p2, i);
  }

  lemma CornerRow(m: nat, n: nat, p1: bool, p2: bool, i: nat)
    requires i < m && n > 0
    ensures Sum(Filtered(MixedAt(Corner(m, n), n, i, p1), p2))
         == Times(FilteredAt(Unit(m), i, p1), Sum(Filtered(Unit(n), p2)))
  {
    CornerMixed(m, n, p1, i);
    FilteredScaledTotal(Unit(n), FilteredAt(Unit(m), i, p1), p2);
  }

  lemma FilteredScaledTotal(s: seq<real>, x: real, p: bool)
    ensures Sum(Filtered(Scaled(s, x), p)) == Times(x, Sum(Filtered(s, p)))
  {
    FilteredScaled(s, x, p);
    SumScaled(Filtered(s, p), x);
  }

  lemma CornerMixed(m: nat, n: nat, p1: bool, i: nat)
    requires i < m && n > 0
    ensures MixedAt(Corner(m, n), n, i, p1) == Scaled(Unit(n), FilteredAt(Unit(m), i, p1))
  {
    forall j | 0 <= j < n ensures MixedAt(Corner(m, n), n, i, p1)[j] == Times(Unit(n)[j], FilteredAt(Unit(m), i, p1)) {
      CornerAt(m, n, i - 1, p1, j);
      CornerAt(m, n, i, p1, j);
      CornerAt(m, n, i + 1, p1, j);
    }
  }

  lemma FilteredScaled(s: seq<real>, x: real, p: bool)
    ensures Filtered(Scaled(s, x), p) == Scaled(Filtered(s, p), x)
  {
    forall j | 0 <= j < |s| ensures FilteredAt(Scaled(s, x), j, p) == Times(FilteredAt(s, j, p), x) {
      AtScaled(s, x, j - 1, p);
      AtScaled(s, x, j + 1, p);
      MixedScaled(At(s, j - 1, p), s[j], At(s, j + 1, p), AtEdge(j, |s|, p), x);
    }
  }

  lemma MixedScaled(a: real, b: real, c: real, edge: bool, x: real)
    ensures Mixed(Times(a, x), Times(b, x), Times(c, x), edge) == Times(Mixed(a, b, c, edge), x)
  {
  }

  lemma CornerAt(m: nat, n: nat, i: int, p1: bool, j: nat)
    requires m > 0 && j < n && -1 <= i <= m
    ensures RowAt(Corner(m, n), n, i, p1)[j] == if j == 0 then At(Unit(m), i, p1) else 0.0
  {
  }

  lemma AtScaled(s: seq<real>, x: real, j: int, p: bool)
    requires |s| > 0 && -1 <= j <= |s|
    ensures At(Scaled(s, x), j, p) == Times(At(s, j, p), x)
  {
  }

  /** The total of every field is kept if and only if each dimension is periodic or has two
      elements: otherwise it is not kept for a one in the corner. */
  lemma TotalLost(m: nat, n: nat, p1: bool, p2: bool, g: seq<seq<real>>)
    requires m > 0 && n > 0 && IsSmoothed(Corner(m, n), n, p1, p2, g)
    ensures Total(g) == Total(Corner(m, n)) <==> KeepsTotal(m, p1) && KeepsTotal(n, p2)
  {
    var u, t := Filtered(Unit(m), p1), Sum(Filtered(Unit(n), p2));
    forall i | 0 <= i < m ensures RowSums(g)[i] == Times(u[i], t) {
      CornerRows(m, n, p1, p2, g, i);
    }
    assert RowSums(g) == Scaled(u, t);
    SumScaled(u, t);
    UnitTotal(m, p1);
    UnitTotal(n, p2);
    ProductOfParts(Sum(u), t);
    CornerTotal(m, n);
  }

  lemma CornerTotal(m: nat, n: nat)
    requires m > 0 && n > 0
    ensures Total(Corner(m, n)) == 1.0
  {
    SumOfZeros(n);
    UnitTotal(n, true);
    UnitTotal(m, true);
    assert RowSums(Corner(m, n)) == Unit(m);
  }

  lemma ProductOfParts(u: real, t: real)
    requires 0.0 < u <= 1.0 && 0.0 < t <= 1.0
    ensures u * t == 1.0 <==> u == 1.0 && t == 1.0
  {
    assert u < 1.0 ==> u * t < t;
  }

  // ----- bounds

  predicate Bounded(f: seq<seq<real>>, lo: real, hi: real) {
    forall i, j :: 0 <= i < |f| && 0 <= j < |f[i]| ==> lo <= f[i][j] <= hi
  }

  /** The divisor is the sum of the weights of the elements that are there. */
  predicate Normalized(len: nat, periodic: bool) {
    periodic || len >= 2
  }

  lemma MixedBounds(a: real, b: real, c: real, edge: bool, lo: real, hi: real)
    requires lo <= b <= hi
    requires lo <= a <= hi || (a == 0.0 && edge)
    requires lo <= c <= hi || (c == 0.0 && edge)
    requires edge ==> (a == 0.0 && lo <= c <= hi) || (c == 0.0 && lo <= a <= hi)
    ensures lo <= Mixed(a, b, c, edge) <= hi
  {
  }

  lemma FilteredBounds(s: seq<real>, periodic: bool, lo: real, hi: real, i: nat)
    requires i < |s| && Normalized(|s|, periodic)
    requires forall k :: 0 <= k < |s| ==> lo <= s[k] <= hi
    ensures lo <= Filtered(s, periodic)[i] <= hi
  {
    MixedBounds(At(s, i - 1, periodic), s[i], At(s, i + 1, periodic), AtEdge(i, |s|, periodic), lo, hi);
  }

  /** Each element of the result is between the smallest and the largest of the field. */
  lemma WithinBounds(f: seq<seq<real>>, n: nat, p1: bool, p2: bool, g: seq<seq<real>>, lo: real, hi: real)
    requires Rectangular(f, n) && |f| > 0 && n > 0 && IsSmoothed(f, n, p1, p2, g)
    requires Normalized(|f|, p1) && Normalized(n, p2) && Bounded(f, lo, hi)
    ensures Bounded(g, lo, hi)
  {
    forall i, j | 0 <= i < |g| && 0 <= j < |g[i]| ensures lo <= g[i][j] <= hi {
      Separable(f, n, p1, p2, g, i);
      forall k | 0 <= k < n ensures lo <= MixedAt(f, n, i, p1)[k] <= hi {
        MixedBounds(RowAt(f, n, i - 1, p1)[k], f[i][k], RowAt(f, n, i + 1, p1)[k], AtEdge(i, |f|, p1), lo, hi);
      }
      FilteredBounds(MixedAt(f, n, i, p1), p2, lo, hi, j);
    }
  }

  predicate Constant(f: seq<seq<real>>, c: real) {
    forall i, j :: 0 <= i < |f| && 0 <= j < |f[i]| ==> f[i][j] == c
  }

  /** A constant field is unchanged if and only if the dimensions that are not periodic have at
      least two elements. */
  lemma ConstantsFixed(f: seq<seq<real>>, n: nat, p1: bool, p2: bool, g: seq<seq<real>>, c: real)
    requires Rectangular(f, n) && |f| > 0 && n > 0 && IsSmoothed(f, n, p1, p2, g)
    requires Constant(f, c) && c != 0.0
    ensures g == f <==> Normalized(|f|, p1) && Normalized(n, p2)
  {
    if Normalized(|f|, p1) && Normalized(n, p2) {
      WithinBounds(f, n, p1, p2, g, c, c);
      assert forall i :: 0 <= i < |f| ==> g[i] == f[i];
    } else {
      Separable(f, n, p1, p2, g, 0);
      assert g[0][0] != f[0][0] by {
        var row := MixedAt(f, n, 0, p1);
        assert row[0] == if Normalized(|f|, p1) then c else c * 2.0 / 3.0;
        assert n > 1 ==> row[n - 1] == row[0] && row[1] == row[0];
      }
    }
  }

  // ----- the function itself

  /** The value of the field at (i, j), which can be one outside. */
  ghost function Around(field: array2<real>, p1: bool, p2: bool, i: int, j: int): (v: real)
    requires field.Length0 > 0 && field.Length1 > 0 && -1 <= i <= field.Length0 && -1 <= j <= field.Length1
    reads field
  {
    var k, l := Inside(i, field.Length0, p1), Inside(j, field.Length1, p2);
    if k < 0 || l < 0 then 0.0 else field[k, l]
  }

  lemma AroundIsPadded(field: array2<real>, p1: bool, p2: bool, i: int, j: int)
    requires field.Length0 > 0 && field.Length1 > 0 && -1 <= i <= field.Length0 && -1 <= j <= field.Length1
    ensures Around(field, p1, p2, i, j) == Padded(Rows(field), field.Length1, p1, p2, i, j)
  {
  }

  ghost predicate Surrounds(e: array2<real>, field: array2<real>)
    reads e, field
  {
    field.Length0 > 0 && field.Length1 > 0 && e.Length0 == field.Length0 + 2 && e.Length1 == field.Length1 + 2
  }

  ghost predicate IsCorner(field: array2<real>, a: int, b: int) {
    (a == 0 || a == field.Length0 + 1) && (b == 0 || b == field.Length1 + 1)
  }

  /** The array e, except perhaps its corners, is the field with its surroundings. */
  ghost predicate Shows(field: array2<real>, p1: bool, p2: bool, e: array2<real>)
    requires Surrounds(e, field)
    reads e, field
  {
    forall a, b :: 0 <= a < e.Length0 && 0 <= b < e.Length1 && !IsCorner(field, a, b) ==>
      e[a, b] == Around(field, p1, p2, a - 1, b - 1)
  }

  ghost predicate CornersShow(field: array2<real>, p1: bool, p2: bool, e: array2<real>)
    requires Surrounds(e, field)
    reads e, field
  {
    forall a, b :: 0 <= a < e.Length0 && 0 <= b < e.Length1 && IsCorner(field, a, b) ==>
      e[a, b] == Around(field, p1, p2, a - 1, b - 1)
  }

  /** The part of smoothField2d that sets up the array "expanded". */
  method Expand(field: array2<real>, p1: bool, p2: bool) returns (expanded: array2<real>)
    requires field.Length0 > 0 && field.Length1 > 0
    ensures Surrounds(expanded, field)
    ensures Shows(field, p1, p2, expanded) && CornersShow(field, p1, p2, expanded)
  {
    expanded := Embed(field);
    if p1 { WrapRows(field, expanded); }
    if p2 { WrapColumns(field, p1, expanded); }
    if p1 && p2 { WrapCorners(field, expanded); }
  }

  method Embed(field: array2<real>) returns (expanded: array2<real>)
    requires field.Length0 > 0 && field.Length1 > 0
    ensures fresh(expanded) && Surrounds(expanded, field)
    ensures Shows(field, false, false, expanded) && CornersShow(field, false, false, expanded)
  {
    var m, n := field.Length0, field.Length1;
    expanded := new real[m + 2, n + 2]((_, _) => 0.0);
    for i := 0 to m
      invariant forall a, b :: 0 <= a < m + 2 && 0 <= b < n + 2 ==>
        expanded[a, b] == if a <= i then Around(field, false, false, a - 1, b - 1) else 0.0
    {
      for j := 0 to n
        invariant forall a, b :: 0 <= a < m + 2 && 0 <= b < n + 2 ==>
          expanded[a, b] == if a <= i || (a == i + 1 && b <= j) then Around(field, false, false, a - 1, b - 1) else 0.0
      {
        expanded[i + 1, j + 1] := field[i, j];
      }
    }
  }

  method WrapCorners(field: array2<real>, expanded: array2<real>)
    requires field != expanded && Surrounds(expanded, field) && Shows(field, true, true, expanded)
    modifies expanded
    ensures Shows(field, true, true, expanded) && CornersShow(field, true, true, expanded)
  {
    var m, n := field.Length0, field.Length1;
    expanded[0, 0] := field[m - 1, n - 1];
    expanded[0, n + 1] := field[m - 1, 0];
    expanded[m + 1, 0] := field[0, n - 1];
    expanded[m + 1, n + 1] := field[0, 0];
  }

  method WrapRows(field: array2<real>, expanded: array2<real>)
    requires field != expanded && Surrounds(expanded, field)
    requires Shows(field, false, false, expanded) && CornersShow(field, false, false, expanded)
    modifies expanded
    ensures Shows(field, true, false, expanded) && CornersShow(field, true, false, expanded)
  {
    var m, n := field.Length0, field.Length1;
    for j := 0 to n
      invariant forall a, b :: 0 <= a < m + 2 && 0 <= b < n + 2 ==>
        expanded[a, b] == Around(field, b <= j, false, a - 1, b - 1)
    {
      expanded[0, j + 1] := field[m - 1, j];
      expanded[m + 1, j + 1] := field[0, j];
    }
  }

  method WrapColumns(field: array2<real>, p1: bool, expanded: array2<real>)
    requires field != expanded && Surrounds(expanded, field)
    requires Shows(field, p1, false, expanded) && CornersShow(field, p1, false, expanded)
    modifies expanded
    ensures Shows(field, p1, true, expanded) && CornersShow(field, p1, false, expanded)
  {
    var m, n := field.Length0, field.Length1;
    for i := 0 to m
      invariant forall a, b :: 0 <= a < m + 2 && 0 <= b < n + 2 ==>
        expanded[a, b] == Around(field, p1, 1 <= a <= i, a - 1, b - 1)
    {
      expanded[i + 1, 0] := field[i, n - 1];
      expanded[i + 1, n + 1] := field[i, 0];
    }
  }

  /** The part of smoothField2d that sets up the array "normalization". */
  method Normalize(m: nat, n: nat, p1: bool, p2: bool) returns (normalization: array2<real>)
    requires m > 0 && n > 0
    ensures normalization.Length0 == m && normalization.Length1 == n
    ensures forall i, j :: 0 <= i < m && 0 <= j < n ==>
      normalization[i, j] == Divisor(AtEdge(i, m, p1), AtEdge(j, n, p2))
  {
    var last1, last2 := m - 1, n - 1;
    normalization := new real[m, n]((_, _) => 16.0);
    if !p1 {
      forall j | 0 <= j < n { normalization[0, j] := 12.0; }
      forall j | 0 <= j < n { normalization[last1, j] := 12.0; }
    }
    if !p2 {
      forall i | 0 <= i < m { normalization[i, 0] := 12.0; }
      forall i | 0 <= i < m { normalization[i, last2] := 12.0; }
    }
    if !p1 && !p2 {
      normalization[0, 0] := 9.0;
      normalization[0, n - 1] := 9.0;
      normalization[m - 1, 0] := 9.0;
      normalization[m - 1, n - 1] := 9.0;
    }
  }

  /** smoothField2d. A field without elements is an index error. */
  method SmoothField2d(field: array2<real>, p1: bool, p2: bool) returns (ok: bool, out: array2<real>)
    ensures ok <==> field.Length0 > 0 && field.Length1 > 0
    ensures ok ==> IsSmoothed(Rows(field), field.Length1, p1, p2, Rows(out))
  {
    if field.Length0 == 0 || field.Length1 == 0 { return false, field; }
    var e := Expand(field, p1, p2);
    var w := Normalize(field.Length0, field.Length1, p1, p2);
    out := new real[field.Length0, field.Length1]((i: nat, j: nat) requires i < w.Length0 && j < w.Length1
      && e.Length0 == w.Length0 + 2 && e.Length1 == w.Length1 + 2 && w[i, j] != 0.0 reads e, w => Stencil(e, w, i, j));
    assert out.Length0 == field.Length0 && out.Length1 == field.Length1;
    forall i, j | 0 <= i < field.Length0 && 0 <= j < field.Length1
      ensures Rows(out)[i][j] == Smoothed(Rows(field), field.Length1, p1, p2, i, j)
    {
      StencilMeaning(field, e, w, p1, p2, i, j);
    }
    ok := true;
  }

  /** One element of the result. */
  function Stencil(e: array2<real>, w: array2<real>, i: nat, j: nat): real
    requires i < w.Length0 && j < w.Length1 && e.Length0 == w.Length0 + 2 && e.Length1 == w.Length1 + 2
    requires w[i, j] != 0.0
    reads e, w
  {
    Nine(w[i, j], e[i, j], e[i + 1, j], e[i + 2, j], e[i, j + 1], e[i + 1, j + 1], e[i + 2, j + 1],
         e[i, j + 2], e[i + 1, j + 2], e[i + 2, j + 2])
  }

  lemma StencilMeaning(field: array2<real>, e: array2<real>, w: array2<real>, p1: bool, p2: bool, i: nat, j: nat)
    requires Surrounds(e, field) && Shows(field, p1, p2, e) && CornersShow(field, p1, p2, e)
    requires i < field.Length0 == w.Length0 && j < field.Length1 == w.Length1
    requires w[i, j] == Divisor(AtEdge(i, w.Length0, p1), AtEdge(j, w.Length1, p2))
    ensures Stencil(e, w, i, j) == Smoothed(Rows(field), field.Length1, p1, p2, i, j)
  {
    Neighbours(field, e, p1, p2, i, j);
    NinePoints(Rows(field), field.Length1, p1, p2, i, j);
  }

  lemma Neighbours(field: array2<real>, e: array2<real>, p1: bool, p2: bool, i: nat, j: nat)
    requires i < field.Length0 && j < field.Length1 && Surrounds(e, field)
    requires Shows(field, p1, p2, e) && CornersShow(field, p1, p2, e)
    ensures e[i, j] == Padded(Rows(field), field.Length1, p1, p2, i - 1, j - 1)
    ensures e[i + 1, j] == Padded(Rows(field), field.Length1, p1, p2, i, j - 1)
    ensures e[i + 2, j] == Padded(Rows(field), field.Length1, p1, p2, i + 1, j - 1)
    ensures e[i, j + 1] == Padded(Rows(field), field.Length1, p1, p2, i - 1, j)
    ensures e[i + 1, j + 1] == Padded(Rows(field), field.Length1, p1, p2, i, j)
    ensures e[i + 2, j + 1] == Padded(Rows(field), field.Length1, p1, p2, i + 1, j)
    ensures e[i, j + 2] == Padded(Rows(field), field.Length1, p1, p2, i - 1, j + 1)
    ensures e[i + 1, j + 2] == Padded(Rows(field), field.Length1, p1, p2, i, j + 1)
    ensures e[i + 2, j + 2] == Padded(Rows(field), field.Length1, p1, p2, i + 1, j + 1)
  {
    forall k, l | i <= k <= i + 2 && j <= l <= j + 2
      ensures e[k, l] == Padded(Rows(field), field.Length1, p1, p2, k - 1, l - 1)
    {
      AroundIsPadded(field, p1, p2, k - 1, l - 1);
    }
  }

  function Nine(w: real, x0: real, x1: real, x2: real, x3: real, x4: real, x5: real, x6: real, x7: real, x8: real): real
    requires w != 0.0
  {
    1.0 / w * (1.0 * x0 + 2.0 * x1 + 1.0 * x2 + 2.0 * x3 + 4.0 * x4 + 2.0 * x5 + 1.0 * x6 + 2.0 * x7 + 1.0 * x8)
  }

  lemma NinePoints(f: seq<seq<real>>, n: nat, p1: bool, p2: bool, i: nat, j: nat)
    requires Rectangular(f, n) && i < |f| && j < n
    ensures Smoothed(f, n, p1, p2, i, j) == Nine(Divisor(AtEdge(i, |f|, p1), AtEdge(j, n, p2)),
      Padded(f, n, p1, p2, i - 1, j - 1), Padded(f, n, p1, p2, i, j - 1), Padded(f, n, p1, p2, i + 1, j - 1),
      Padded(f, n, p1, p2, i - 1, j), Padded(f, n, p1, p2, i, j), Padded(f, n, p1, p2, i + 1, j),
      Padded(f, n, p1, p2, i - 1, j + 1), Padded(f, n, p1, p2, i, j + 1), Padded(f, n, p1, p2, i + 1, j + 1))
  {
  }
}
