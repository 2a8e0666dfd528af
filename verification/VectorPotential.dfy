/** Az from Bx and By (pplotutil.py). */
module VectorPotential {
  // Bx = dAz/dy and By = -dAz/dx, up to the sign that the code gives them. Numbers are exact reals.

  import opened Grids

  type Grid = seq<seq<real>>

  predicate IsGrid(g: Grid, nx: nat, ny: nat) {
    |g| == nx && Rectangular(g, ny)
  }

  // ----- the potential on the grid of nx + 1 by ny + 1 points

  predicate FirstColumn(fx: Grid, nx: nat, ny: nat, dy: real, az: Grid)
    requires IsGrid(fx, nx, ny) && IsGrid(az, nx + 1, ny + 1) && nx > 0
  {
    az[0][0] == 0.0 && forall j :: 0 <= j < ny ==> az[0][j + 1] == az[0][j] - Times(fx[0][j], dy)
  }

  /** The steps in the first direction are those that By requires. */
  predicate StepsAlong(fy: Grid, nx: nat, ny: nat, dx: real, az: Grid)
    requires IsGrid(fy, nx, ny) && IsGrid(az, nx + 1, ny + 1)
  {
    forall i, j :: 0 <= i < nx && 0 <= j < ny ==> az[i + 1][j] - az[i][j] == Times(fy[i][j], dx)
  }

  /** The value that stands for By beyond the top row. */
  function Top(fx: Grid, fy: Grid, nx: nat, ny: nat, i: int): real
    requires IsGrid(fx, nx, ny) && IsGrid(fy, nx, ny) && ny > 0 && 0 <= i < nx - 1
  {
    fx[i + 1][ny - 1] - fx[i][ny - 1] + fy[i][ny - 1]
  }

  predicate TopSteps(fx: Grid, fy: Grid, nx: nat, ny: nat, dx: real, az: Grid)
    requires IsGrid(fx, nx, ny) && IsGrid(fy, nx, ny) && ny > 0 && IsGrid(az, nx + 1, ny + 1)
  {
    && (forall i :: 0 <= i < nx - 1 ==> az[i + 1][ny] - az[i][ny] == Times(Top(fx, fy, nx, ny, i), dx))
    && az[nx][ny] == az[0][ny]
  }

  predicate Integrated(fx: Grid, fy: Grid, nx: nat, ny: nat, dx: real, dy: real, az: Grid) {
    && nx > 0 && ny > 0 && IsGrid(fx, nx, ny) && IsGrid(fy, nx, ny) && IsGrid(az, nx + 1, ny + 1)
    && FirstColumn(fx, nx, ny, dy, az)
    && StepsAlong(fy, nx, ny, dx, az)
    && TopSteps(fx, fy, nx, ny, dx, az)
  }

  // ----- the steps in the other direction

  /** The step from (i, j) to (i, j + 1) is the one that Bx requires. */
  predicate StepAcross(fx: Grid, nx: nat, ny: nat, dy: real, az: Grid, i: nat, j: nat)
    requires IsGrid(fx, nx, ny) && IsGrid(az, nx + 1, ny + 1) && i < nx && j < ny
  {
    az[i][j + 1] - az[i][j] == -Times(fx[i][j], dy)
  }

  /** The discrete divergence in the cell of (i, j), (i + 1, j), (i, j + 1). */
  function Divergence(fx: Grid, fy: Grid, nx: nat, ny: nat, dx: real, dy: real, i: nat, j: nat): real
    requires IsGrid(fx, nx, ny) && IsGrid(fy, nx, ny) && i + 1 < nx && j + 1 < ny
  {
    Times(fx[i + 1][j] - fx[i][j], dy) + Times(fy[i][j + 1] - fy[i][j], dx)
  }

  lemma NextStepAcross(fx: Grid, fy: Grid, nx: nat, ny: nat, dx: real, dy: real, az: Grid, i: nat, j: nat)
    requires Integrated(fx, fy, nx, ny, dx, dy, az) && i + 1 < nx && j + 1 < ny
    requires StepAcross(fx, nx, ny, dy, az, i, j)
    ensures StepAcross(fx, nx, ny, dy, az, i + 1, j) <==> Divergence(fx, fy, nx, ny, dx, dy, i, j) == 0.0
  {
    TimesSum(fx[i + 1][j] - fx[i][j], fx[i][j], dy);
    TimesSum(fy[i][j + 1] - fy[i][j], fy[i][j], dx);
    assert az[i + 1][j + 1] - az[i][j + 1] == Times(fy[i][j + 1], dx);
  }

  predicate DivergenceFree(fx: Grid, fy: Grid, nx: nat, ny: nat, dx: real, dy: real)
    requires IsGrid(fx, nx, ny) && IsGrid(fy, nx, ny)
  {
    forall i, j :: 0 <= i < nx - 1 && 0 <= j < ny - 1 ==> Divergence(fx, fy, nx, ny, dx, dy, i, j) == 0.0
  }

  predicate StepsAcross(fx: Grid, nx: nat, ny: nat, dy: real, az: Grid)
    requires IsGrid(fx, nx, ny) && IsGrid(az, nx + 1, ny + 1)
  {
    forall i, j :: 0 <= i < nx && 0 <= j < ny - 1 ==> StepAcross(fx, nx, ny, dy, az, i, j)
  }

  lemma {:induction false} ReachesRow(fx: Grid, fy: Grid, nx: nat, ny: nat, dx: real, dy: real, az: Grid, i: nat,
                                      j: nat)
    requires Integrated(fx, fy, nx, ny, dx, dy, az) && i < nx && j + 1 < ny
    requires DivergenceFree(fx, fy, nx, ny, dx, dy)
    ensures StepAcross(fx, nx, ny, dy, az, i, j)
  {
    if i > 0 {
      ReachesRow(fx, fy, nx, ny, dx, dy, az, i - 1, j);
      NextStepAcross(fx, fy, nx, ny, dx, dy, az, i - 1, j);
    }
  }

  /** The potential fits Bx everywhere if and only if the divergence is zero everywhere. */
  lemma FitsBoth(fx: Grid, fy: Grid, nx: nat, ny: nat, dx: real, dy: real, az: Grid)
    requires Integrated(fx, fy, nx, ny, dx, dy, az)
    ensures StepsAcross(fx, nx, ny, dy, az) <==> DivergenceFree(fx, fy, nx, ny, dx, dy)
  {
    if DivergenceFree(fx, fy, nx, ny, dx, dy) {
      forall i, j | 0 <= i < nx && 0 <= j < ny - 1 ensures StepAcross(fx, nx, ny, dy, az, i, j) {
        ReachesRow(fx, fy, nx, ny, dx, dy, az, i, j);
      }
    }
    if StepsAcross(fx, nx, ny, dy, az) {
      forall i, j | 0 <= i < nx - 1 && 0 <= j < ny - 1 ensures Divergence(fx, fy, nx, ny, dx, dy, i, j) == 0.0 {
        NextStepAcross(fx, fy, nx, ny, dx, dy, az, i, j);
      }
    }
  }

  // ----- the top row

  predicate TopFits(fx: Grid, nx: nat, ny: nat, dy: real, az: Grid)
    requires IsGrid(fx, nx, ny) && IsGrid(az, nx + 1, ny + 1) && ny > 0
  {
    var top := ny - 1;
    forall i :: 0 <= i < nx ==> StepAcross(fx, nx, ny, dy, az, i, top)
  }

  lemma NextTop(fx: Grid, fy: Grid, nx: nat, ny: nat, dx: real, dy: real, az: Grid, i: nat)
    requires Integrated(fx, fy, nx, ny, dx, dy, az) && i + 1 < nx && StepAcross(fx, nx, ny, dy, az, i, ny - 1)
    ensures StepAcross(fx, nx, ny, dy, az, i + 1, ny - 1) <==> Times(fx[i + 1][ny - 1] - fx[i][ny - 1], dx + dy) == 0.0
  {
    var d := fx[i + 1][ny - 1] - fx[i][ny - 1];
    TimesSum(d, fy[i][ny - 1], dx);
    TimesSum(d, fx[i][ny - 1], dy);
    assert Times(d, dx + dy) == Times(d, dx) + Times(d, dy);
  }

  lemma {:induction false} TopReaches(fx: Grid, fy: Grid, nx: nat, ny: nat, dx: real, dy: real, az: Grid, i: nat)
    requires Integrated(fx, fy, nx, ny, dx, dy, az) && i < nx
    requires forall k :: 0 <= k < i ==> Times(fx[k + 1][ny - 1] - fx[k][ny - 1], dx + dy) == 0.0
    ensures StepAcross(fx, nx, ny, dy, az, i, ny - 1)
  {
    if i > 0 {
      TopReaches(fx, fy, nx, ny, dx, dy, az, i - 1);
      NextTop(fx, fy, nx, ny, dx, dy, az, i - 1);
    }
  }

  /** The extrapolated top row fits Bx if and only if Bx is constant along it (or dx = -dy):
      the code adds the difference of Bx as it is, where a field without divergence has
      the difference multiplied by -dy / dx. */
  lemma TopRowFits(fx: Grid, fy: Grid, nx: nat, ny: nat, dx: real, dy: real, az: Grid)
    requires Integrated(fx, fy, nx, ny, dx, dy, az)
    ensures TopFits(fx, nx, ny, dy, az) <==>
      dx + dy == 0.0 || forall i :: 0 <= i < nx - 1 ==> fx[i + 1][ny - 1] == fx[i][ny - 1]
  {
    if TopFits(fx, nx, ny, dy, az) {
      forall i | 0 <= i < nx - 1 && dx + dy != 0.0 ensures fx[i + 1][ny - 1] == fx[i][ny - 1] {
        assert StepAcross(fx, nx, ny, dy, az, i, ny - 1) && StepAcross(fx, nx, ny, dy, az, i + 1, ny - 1);
        NextTop(fx, fy, nx, ny, dx, dy, az, i);
        NoZeroFactor(fx[i + 1][ny - 1] - fx[i][ny - 1], dx + dy);
      }
    } else {
      var i :| 0 <= i < nx && !StepAcross(fx, nx, ny, dy, az, i, ny - 1);
      if dx + dy == 0.0 || forall k :: 0 <= k < nx - 1 ==> fx[k + 1][ny - 1] == fx[k][ny - 1] {
        TopReaches(fx, fy, nx, ny, dx, dy, az, i);
      }
    }
  }

  /** A field without divergence that the top row does not fit: Bx is zero except for one value
      in the top row, and By is zero. */
  lemma TopRowMisses()
    ensures var fx, fy := [[0.0, 0.0], [0.0, 1.0]], [[0.0, 0.0], [0.0, 0.0]];
      var az := [[0.0, 0.0, 0.0], [0.0, 0.0, 1.0], [0.0, 0.0, 0.0]];
      && Integrated(fx, fy, 2, 2, 1.0, 1.0, az)
      && DivergenceFree(fx, fy, 2, 2, 1.0, 1.0)
      && !TopFits(fx, 2, 2, 1.0, az)
  {
    var fx, fy := [[0.0, 0.0], [0.0, 1.0]], [[0.0, 0.0], [0.0, 0.0]];
    var az := [[0.0, 0.0, 0.0], [0.0, 0.0, 1.0], [0.0, 0.0, 0.0]];
    assert fx[1][1] != fx[0][1];
    assert Integrated(fx, fy, 2, 2, 1.0, 1.0, az);
    TopRowFits(fx, fy, 2, 2, 1.0, 1.0, az);
  }

  lemma NoZeroFactor(a: real, b: real)
    ensures Times(a, b) == 0.0 <==> a == 0.0 || b == 0.0
  {
  }

  // ----- path independence

  datatype Step = Right | Left | Up | Down

  /** The point after one step. */
  function MoveX(i: int, s: Step): int {
    match s case Right => i + 1 case Left => i - 1 case _ => i
  }

  function MoveY(j: int, s: Step): int {
    match s case Up => j + 1 case Down => j - 1 case _ => j
  }

  /** The field integrated along one step from (i, j). */
  function Along(fx: Grid, fy: Grid, nx: nat, ny: nat, dx: real, dy: real, i: int, j: int, s: Step): real
    requires IsGrid(fx, nx, ny) && IsGrid(fy, nx, ny)
    requires 0 <= i < nx && 0 <= j < ny && 0 <= MoveX(i, s) < nx && 0 <= MoveY(j, s) < ny
  {
    match s
    case Right => Times(fy[i][j], dx)
    case Left => -Times(fy[i - 1][j], dx)
    case Up => -Times(fx[i][j], dy)
    case Down => Times(fx[i][j - 1], dy)
  }

  predicate Stays(nx: nat, ny: nat, i: int, j: int, path: seq<Step>)
    decreases |path|
  {
    0 <= i < nx && 0 <= j < ny && (path == [] || Stays(nx, ny, MoveX(i, path[0]), MoveY(j, path[0]), path[1..]))
  }

  function EndX(i: int, path: seq<Step>): int
    decreases |path|
  {
    if path == [] then i else EndX(MoveX(i, path[0]), path[1..])
  }

  function EndY(j: int, path: seq<Step>): int
    decreases |path|
  {
    if path == [] then j else EndY(MoveY(j, path[0]), path[1..])
  }

  function PathSum(fx: Grid, fy: Grid, nx: nat, ny: nat, dx: real, dy: real, i: int, j: int, path: seq<Step>): real
    requires IsGrid(fx, nx, ny) && IsGrid(fy, nx, ny) && Stays(nx, ny, i, j, path)
    decreases |path|
  {
    if path == [] then 0.0 else
      assert Stays(nx, ny, MoveX(i, path[0]), MoveY(j, path[0]), path[1..]);
      Along(fx, fy, nx, ny, dx, dy, i, j, path[0])
      + PathSum(fx, fy, nx, ny, dx, dy, MoveX(i, path[0]), MoveY(j, path[0]), path[1..])
  }

  /** If the divergence is zero, the integral along any path on the grid is the difference of
      the potential between its ends. */
  lemma {:induction false} PathIndependent(fx: Grid, fy: Grid, nx: nat, ny: nat, dx: real, dy: real, az: Grid,
                                           i: int, j: int, path: seq<Step>)
    requires Integrated(fx, fy, nx, ny, dx, dy, az) && DivergenceFree(fx, fy, nx, ny, dx, dy)
    requires Stays(nx, ny, i, j, path)
    ensures 0 <= EndX(i, path) < nx && 0 <= EndY(j, path) < ny
    ensures PathSum(fx, fy, nx, ny, dx, dy, i, j, path) == az[EndX(i, path)][EndY(j, path)] - az[i][j]
    decreases |path|
  {
    if path != [] {
      var i', j' := MoveX(i, path[0]), MoveY(j, path[0]);
      PathIndependent(fx, fy, nx, ny, dx, dy, az, i', j', path[1..]);
      OneStep(fx, fy, nx, ny, dx, dy, az, i, j, path[0]);
    }
  }

  lemma OneStep(fx: Grid, fy: Grid, nx: nat, ny: nat, dx: real, dy: real, az: Grid, i: int, j: int, s: Step)
    requires Integrated(fx, fy, nx, ny, dx, dy, az) && DivergenceFree(fx, fy, nx, ny, dx, dy)
    requires 0 <= i < nx && 0 <= j < ny && 0 <= MoveX(i, s) < nx && 0 <= MoveY(j, s) < ny
    ensures Along(fx, fy, nx, ny, dx, dy, i, j, s) == az[MoveX(i, s)][MoveY(j, s)] - az[i][j]
  {
    match s
    case Right => assert az[i + 1][j] - az[i][j] == Times(fy[i][j], dx);
    case Left => assert az[(i - 1) + 1][j] - az[i - 1][j] == Times(fy[i - 1][j], dx);
    case Up => ReachesRow(fx, fy, nx, ny, dx, dy, az, i, j);
    case Down => ReachesRow(fx, fy, nx, ny, dx, dy, az, i, j - 1);
  }

  // ----- back to the grid of nx by ny points

  predicate Averaged(az: Grid, nx: nat, ny: nat, r: Grid)
    requires IsGrid(az, nx + 1, ny + 1)
  {
    && IsGrid(r, nx, ny)
    && forall i, j :: 0 <= i < nx && 0 <= j < ny ==>
      r[i][j] == MeanOfCell(az, nx, ny, i, j)
  }

  function MeanOfCell(az: Grid, nx: nat, ny: nat, i: int, j: int): real
    requires IsGrid(az, nx + 1, ny + 1) && 0 <= i < nx && 0 <= j < ny
  {
    (az[i + 1][j + 1] + az[i][j] + az[i + 1][j] + az[i][j + 1]) / 4.0
  }

  /** Away from the top row, a step of the result is the mean of four values of the field:
      always in the first direction, and in the second if there is no divergence. */
  lemma AveragedSteps(fx: Grid, fy: Grid, nx: nat, ny: nat, dx: real, dy: real, az: Grid, r: Grid, i: nat, j: nat)
    requires Integrated(fx, fy, nx, ny, dx, dy, az) && Averaged(az, nx, ny, r)
    requires i + 1 < nx && j + 1 < ny
    ensures r[i + 1][j] - r[i][j] == Times((fy[i][j] + fy[i + 1][j] + fy[i][j + 1] + fy[i + 1][j + 1]) / 4.0, dx)
    ensures DivergenceFree(fx, fy, nx, ny, dx, dy) && j + 2 < ny ==>
      r[i][j + 1] - r[i][j] == -Times((fx[i][j] + fx[i + 1][j] + fx[i][j + 1] + fx[i + 1][j + 1]) / 4.0, dy)
  {
    assert az[i + 2][j] - az[i][j] == Times(fy[i][j], dx) + Times(fy[i + 1][j], dx);
    assert az[i + 2][j + 1] - az[i][j + 1] == Times(fy[i][j + 1], dx) + Times(fy[i + 1][j + 1], dx);
    MeanOfFour(fy[i][j], fy[i + 1][j], fy[i][j + 1], fy[i + 1][j + 1], dx);
    if DivergenceFree(fx, fy, nx, ny, dx, dy) && j + 2 < ny {
      ReachesRow(fx, fy, nx, ny, dx, dy, az, i, j);
      ReachesRow(fx, fy, nx, ny, dx, dy, az, i, j + 1);
      ReachesRow(fx, fy, nx, ny, dx, dy, az, i + 1, j);
      ReachesRow(fx, fy, nx, ny, dx, dy, az, i + 1, j + 1);
      MeanOfFour(fx[i][j], fx[i + 1][j], fx[i][j + 1], fx[i + 1][j + 1], dy);
    }
  }

  lemma MeanOfFour(a: real, b: real, c: real, d: real, x: real)
    ensures Times((a + b + c + d) / 4.0, x) == (Times(a, x) + Times(b, x) + Times(c, x) + Times(d, x)) / 4.0
  {
  }

  // ----- the function itself

  /** The distance between the ends, divided by the number of steps. */
  function Spacing(x: seq<real>): real
    requires |x| >= 2
  {
    (x[|x| - 1] - x[0]) / (|x| - 1) as real
  }

  /** The mean of the differences between neighbours. */
  method MeanDifference(x: seq<real>) returns (d: real)
    requires |x| >= 2
    ensures d == Spacing(x)
    ensures d * (|x| - 1) as real == x[|x| - 1] - x[0]
    ensures forall h :: Even(x, h) ==> d == h
  {
    var sum := 0.0;
    for k := 0 to |x| - 1
      invariant sum == x[k] - x[0]
    {
      sum := sum + (x[k + 1] - x[k]);
    }
    d := sum / (|x| - 1) as real;
    forall h | Even(x, h) ensures d == h {
      EvenSpacing(x, h);
    }
  }

  /** All steps from one coordinate to the next are the same. */
  ghost predicate Even(x: seq<real>, h: real) {
    forall k :: 0 <= k < |x| - 1 ==> x[k + 1] - x[k] == h
  }

  lemma {:induction false} EvenPlaces(x: seq<real>, h: real, k: nat)
    requires Even(x, h) && k < |x|
    ensures x[k] == x[0] + k as real * h
  {
    if k > 0 {
      EvenPlaces(x, h, k - 1);
      assert x[(k - 1) + 1] - x[k - 1] == h;
    }
  }

  lemma EvenSpacing(x: seq<real>, h: real)
    requires |x| >= 2 && Even(x, h)
    ensures Spacing(x) == h
  {
    var n := (|x| - 1) as real;
    EvenPlaces(x, h, |x| - 1);
    assert n * h / n == h;
  }

  /** Az has one more row and column than Bx; By can be larger than Bx. */
  ghost predicate Fits(fx: array2<real>, fy: array2<real>, az: array2<real>) {
    && az != fx && az != fy && fx.Length0 > 0 && fx.Length1 > 0
    && fx.Length0 <= fy.Length0 && fx.Length1 <= fy.Length1
    && az.Length0 == fx.Length0 + 1 && az.Length1 == fx.Length1 + 1
  }

  method Integrate(fx: array2<real>, fy: array2<real>, dx: real, dy: real) returns (az: array2<real>)
    requires 0 < fx.Length0 <= fy.Length0 && 0 < fx.Length1 <= fy.Length1
    ensures Integrated(Rows(fx), Part(fy, fx.Length0, fx.Length1), fx.Length0, fx.Length1, dx, dy, Rows(az))
  {
    var nx, ny := fx.Length0, fx.Length1;
    az := new real[nx + 1, ny + 1]((_, _) => 0.0);
    FillFirstColumn(fx, fy, dy, az);
    FillColumns(fx, fy, dx, az);
    FillTop(fx, fy, dx, az);
  }

  /** The points (0, j): minus the running sum of Bx, times dy. */
  method FillFirstColumn(fx: array2<real>, fy: array2<real>, dy: real, az: array2<real>)
    requires Fits(fx, fy, az) && az[0, 0] == 0.0
    modifies az
    ensures az[0, 0] == 0.0
    ensures forall j :: 0 <= j < fx.Length1 ==> az[0, j + 1] == az[0, j] - Times(fx[0, j], dy)
  {
    var sum := 0.0;
    for j := 0 to fx.Length1
      invariant az[0, 0] == 0.0 && az[0, j] == Times(-sum, dy)
      invariant forall k :: 0 <= k < j ==> az[0, k + 1] == az[0, k] - Times(fx[0, k], dy)
    {
      TimesSum(-sum - fx[0, j], fx[0, j], dy);
      sum := sum + fx[0, j];
      az[0, j + 1] := -sum * dy;
    }
  }

  /** The points below the top row: from (0, j), add the running sum of By, times dx. */
  method FillColumns(fx: array2<real>, fy: array2<real>, dx: real, az: array2<real>)
    requires Fits(fx, fy, az)
    modifies az
    ensures forall i, j :: 0 <= i < fx.Length0 && 0 <= j < fx.Length1 ==> az[i + 1, j] - az[i, j] == Times(fy[i, j], dx)
    ensures forall j :: 0 <= j <= fx.Length1 ==> az[0, j] == old(az[0, j])
  {
    for j := 0 to fx.Length1
      invariant forall i, k :: 0 <= i < fx.Length0 && 0 <= k < j ==> az[i + 1, k] - az[i, k] == Times(fy[i, k], dx)
      invariant forall k :: 0 <= k <= fx.Length1 ==> az[0, k] == old(az[0, k])
    {
      FillColumn(fx, fy, dx, az, j);
    }
  }

  method FillColumn(fx: array2<real>, fy: array2<real>, dx: real, az: array2<real>, j: nat)
    requires Fits(fx, fy, az) && j < fx.Length1
    modifies az
    ensures forall i :: 0 <= i < fx.Length0 ==> az[i + 1, j] - az[i, j] == Times(fy[i, j], dx)
    ensures forall a, b :: 0 <= a < az.Length0 && 0 <= b < az.Length1 && (a == 0 || b != j) ==>
      az[a, b] == old(az[a, b])
  {
    var sum := 0.0;
    for i := 0 to fx.Length0
      invariant az[i, j] == az[0, j] + Times(sum, dx)
      invariant forall k :: 0 <= k < i ==> az[k + 1, j] - az[k, j] == Times(fy[k, j], dx)
      invariant forall a, b :: 0 <= a < az.Length0 && 0 <= b < az.Length1 && (a == 0 || b != j) ==>
        az[a, b] == old(az[a, b])
    {
      TimesSum(sum, fy[i, j], dx);
      sum := sum + fy[i, j];
      az[i + 1, j] := az[0, j] + sum * dx;
    }
  }

  /** The top row: from (0, ny), add the running sum of the values that stand for By there, times
      dx. The last point is set equal to the first, as in a field that is periodic in x. */
  method FillTop(fx: array2<real>, fy: array2<real>, dx: real, az: array2<real>)
    requires Fits(fx, fy, az)
    modifies az
    ensures var nx, ny := fx.Length0, fx.Length1;
      forall i :: 0 <= i < nx - 1 ==>
        az[i + 1, ny] - az[i, ny] == Times(Top(Rows(fx), Part(fy, nx, ny), nx, ny, i), dx)
    ensures az[fx.Length0, fx.Length1] == az[0, fx.Length1] == old(az[0, fx.Length1])
    ensures forall a, b :: 0 <= a < az.Length0 && 0 <= b < fx.Length1 ==> az[a, b] == old(az[a, b])
  {
    var nx, ny := fx.Length0, fx.Length1;
    var sum := 0.0;
    ghost var gx, gy := Rows(fx), Part(fy, nx, ny);
    for i := 0 to nx - 1
      invariant az[i, ny] == az[0, ny] + Times(sum, dx) && az[0, ny] == old(az[0, ny])
      invariant forall k :: 0 <= k < i ==> az[k + 1, ny] - az[k, ny] == Times(Top(gx, gy, nx, ny, k), dx)
      invariant forall a, b :: 0 <= a < az.Length0 && 0 <= b < ny ==> az[a, b] == old(az[a, b])
    {
      var top := fx[i + 1, ny - 1] - fx[i, ny - 1] + fy[i, ny - 1];
      TimesSum(sum, top, dx);
      sum := sum + top;
      az[i + 1, ny] := az[0, ny] + sum * dx;
    }
    az[nx, ny] := az[0, ny];
  }

  method Average(az: array2<real>) returns (r: array2<real>)
    requires az.Length0 > 0 && az.Length1 > 0
    ensures Averaged(Rows(az), az.Length0 - 1, az.Length1 - 1, Rows(r))
  {
    r := new real[az.Length0 - 1, az.Length1 - 1](
      (i: nat, j: nat) requires i + 1 < az.Length0 && j + 1 < az.Length1 reads az =>
        0.25 * (az[i + 1, j + 1] + az[i, j] + az[i + 1, j] + az[i, j + 1]));
  }

  /** IndexError: a dimension is empty. AllNaN: there is no distance between grid points. */
  datatype Outcome = IndexError | AllNaN | Computed

  /** calc_Az. The second array is the potential before it is averaged. Only the part of By that
      lies on the grid of Bx is used, and of x and y only the mean distance. */
  method CalcAz(x: seq<real>, y: seq<real>, fx: array2<real>, fy: array2<real>)
      returns (outcome: Outcome, r: array2<real>, az: array2<real>)
    requires fx.Length0 <= fy.Length0 && fx.Length1 <= fy.Length1
    ensures outcome == IndexError <==> fx.Length0 == 0 || fx.Length1 == 0
    ensures outcome == AllNaN <==> fx.Length0 > 0 && fx.Length1 > 0 && (|x| < 2 || |y| < 2)
    ensures outcome == Computed ==>
      var nx, ny := fx.Length0, fx.Length1;
      && Integrated(Rows(fx), Part(fy, nx, ny), nx, ny, Spacing(x), Spacing(y), Rows(az))
      && Averaged(Rows(az), nx, ny, Rows(r))
    ensures outcome == Computed ==>
      forall h, g :: Even(x, h) && Even(y, g) ==>
        Integrated(Rows(fx), Part(fy, fx.Length0, fx.Length1), fx.Length0, fx.Length1, h, g, Rows(az))
  {
    r, az := fx, fx;
    if fx.Length0 == 0 || fx.Length1 == 0 { return IndexError, r, az; }
    if |x| < 2 || |y| < 2 { return AllNaN, r, az; }
    var dx := MeanDifference(x);
    var dy := MeanDifference(y);
    az := Integrate(fx, fy, dx, dy);
    r := Average(az);
    outcome := Computed;
    forall h, g | Even(x, h) && Even(y, g) ensures dx == h && dy == g {
    }
  }

  /** The whole function at one field: Bx is 1 and By is 2 on two by two points, three apart in x
      and one apart in y. */
  method UniformField() returns (outcome: Outcome, r: array2<real>)
    ensures outcome == Computed && r.Length0 == 2 && r.Length1 == 2
    ensures r[0, 0] == 2.5 && r[0, 1] == 1.5 && r[1, 0] == 8.5 && r[1, 1] == 4.5
  {
    var fx := new real[2, 2]((_, _) => 1.0);
    var fy := new real[2, 2]((_, _) => 2.0);
    var az;
    outcome, r, az := CalcAz([0.0, 3.0], [0.0, 1.0], fx, fy);
    assert Even([0.0, 3.0], 3.0) && Even([0.0, 1.0], 1.0);
    UniformPotential(Rows(fx), Part(fy, 2, 2), Rows(az), Rows(r));
  }

  lemma UniformPotential(fx: Grid, fy: Grid, az: Grid, r: Grid)
    requires Integrated(fx, fy, 2, 2, 3.0, 1.0, az) && Averaged(az, 2, 2, r)
    requires forall i, j :: 0 <= i < 2 && 0 <= j < 2 ==> fx[i][j] == 1.0 && fy[i][j] == 2.0
    ensures r[0][0] == 2.5 && r[0][1] == 1.5 && r[1][0] == 8.5 && r[1][1] == 4.5
  {
    assert az[0][0] == 0.0;
    assert az[0][0 + 1] == -1.0;
    assert az[0][1 + 1] == -2.0;
    assert az[0 + 1][0] - az[0][0] == Times(fy[0][0], 3.0) == 6.0;
    assert az[1 + 1][0] - az[1][0] == Times(fy[1][0], 3.0) == 6.0;
    assert az[0 + 1][1] - az[0][1] == Times(fy[0][1], 3.0) == 6.0;
    assert az[1 + 1][1] - az[1][1] == Times(fy[1][1], 3.0) == 6.0;
    assert Top(fx, fy, 2, 2, 0) == 2.0;
    assert az[0 + 1][2] == 4.0 && az[2][2] == -2.0;
  }
}
