/** Poisson-disk sampling of spawn points (`PossionDiskSampling`): points
    in a width × height rectangle, accepted one at a time when no point
    already stored in the background grid around them lies closer than
    `minDist`.

    The grid has cells of side `cellSize = minDist / √2`; the cell size is
    an input here, tied to `minDist` by cellSize² · 2 = minDist².  The
    random choices (`rand()` for the next point to grow from, and
    `generateRandomPointAround`, which also calls sin and cos) are oracles
    indexed by how many draws were made before.

    As written, the grid has trunc(width / cellSize) columns, a point is
    filed one cell lower than the cell it lies in (which keeps the index
    inside that truncated grid), and the neighbourhood window is
    [g-2, g+2) clipped to exclude the last row and column; a point closer
    than `minDist` can sit outside that window.  Both the code as written
    (`corrected == false`) and a corrected sampler (`corrected == true`:
    one more column and row, a point filed in its own cell, the window
    [g-2, g+2] clipped to the grid) are modelled; only the corrected one
    keeps every pair of spawn points `minDist` apart. */
module Poisson {
  import opened Linear
  import opened CInt

  /** The sampler's parameters. */
  datatype Sampler = Sampler(width: int, height: int, minDist: real, count: int)

  /** The grid: `grid[x][y]` holds the point stored for cell (x, y). */
  type Grid = seq<seq<Vec2>>

  /** What an unused cell holds: `glm::vec2(-1)`. */
  const Unused: Vec2 := Vec2(-1.0, -1.0)

  /** The test `cell.x != -1 && cell.y != -1`. */
  predicate Occupied(c: Vec2)
  {
    c.x != -1.0 && c.y != -1.0
  }

  /** `isValid(p)`: inside the rectangle, lower edges included. */
  predicate IsValid(s: Sampler, p: Vec2)
  {
    0.0 <= p.x < s.width as real && 0.0 <= p.y < s.height as real
  }

  /** `glm::distance(a, b) < minDist` without the square root: a distance is
      never negative, so it is below `minDist` iff `minDist` is positive and
      the squared distance is below minDist². */
  predicate Closer(a: Vec2, b: Vec2, minDist: real)
  {
    minDist > 0.0 && LengthSq2(Sub2(a, b)) < minDist * minDist
  }

  /** The cell size the source derives from `minDist`: positive, with
      cellSize² · 2 = minDist². */
  predicate CellSizeOf(s: Sampler, cs: real)
  {
    cs > 0.0 && s.minDist > 0.0 && cs * cs * 2.0 == s.minDist * s.minDist
  }

  /** Grid columns: `width / cellSize` converted to a size, truncating
      (one more when corrected, so that every cell a valid point lies in
      exists). */
  function Columns(s: Sampler, cs: real, corrected: bool): int
    requires cs > 0.0
  {
    Trunc(s.width as real / cs) + (if corrected then 1 else 0)
  }

  function Rows(s: Sampler, cs: real, corrected: bool): int
    requires cs > 0.0
  {
    Trunc(s.height as real / cs) + (if corrected then 1 else 0)
  }

  /** What the source needs to run without reading outside the grid: a
      cell size as derived from `minDist`, sizes that convert, and at least
      one cell. */
  predicate Fits(s: Sampler, cs: real)
  {
    CellSizeOf(s, cs) && s.width >= 0 && s.height >= 0 && Columns(s, cs, false) >= 1 && Rows(s, cs, false) >= 1
  }

  /** Every column of the grid has `rows` cells. */
  predicate Shaped(g: Grid, cols: int, rows: int)
  {
    |g| == cols && forall i :: 0 <= i < |g| ==> |g[i]| == rows
  }

  /** The fresh grid: every cell unused. */
  function NewGrid(s: Sampler, cs: real, corrected: bool): (g: Grid)
    requires Fits(s, cs)
    ensures Shaped(g, Columns(s, cs, corrected), Rows(s, cs, corrected))
    ensures forall i, j :: 0 <= i < |g| && 0 <= j < |g[i]| ==> g[i][j] == Unused
  {
    seq(Columns(s, cs, corrected), _ => seq(Rows(s, cs, corrected), _ => Unused))
  }

  datatype Cell = Cell(x: int, y: int)

  /** `imageToGrid(p, cellSize)`: the cell the point lies in, less one on
      each axis and clamped at 0 (as written); the cell itself when
      corrected. */
  function ImageToGrid(p: Vec2, cs: real, corrected: bool): (c: Cell)
    requires cs > 0.0
    ensures c.x >= 0 && c.y >= 0
  {
    var gx := Trunc(p.x / cs);
    var gy := Trunc(p.y / cs);
    if corrected then Cell(Max(0, gx), Max(0, gy)) else Cell(Max(0, gx - 1), Max(0, gy - 1))
  }

  /** `grid[c.x][c.y] = p`.  Outside the grid nothing is stored (the source
      would write out of bounds; `ImageToGridInGrid` shows a valid point
      never gets there). */
  function Store(g: Grid, c: Cell, p: Vec2): (r: Grid)
    ensures |r| == |g| && forall i :: 0 <= i < |g| ==> |r[i]| == |g[i]|
    ensures forall i, j :: 0 <= i < |g| && 0 <= j < |g[i]| ==> r[i][j] == (if i == c.x && j == c.y then p else g[i][j])
  {
    if 0 <= c.x < |g| && 0 <= c.y < |g[c.x]| then g[c.x := g[c.x][c.y := p]] else g
  }

  /** The half-open window of cells `getNeighbours` scans. */
  datatype Window = Window(xs: int, xe: int, ys: int, ye: int)

  predicate InWindow(w: Window, i: int, j: int)
  {
    w.xs <= i < w.xe && w.ys <= j < w.ye
  }

  /** As written: [max(0, g-2), min(g+2, size-1)) on each axis, the size of
      the second axis read from the first column.  Corrected: the closed
      range [g-2, g+2] clipped to the grid. */
  function NeighbourWindow(g: Grid, c: Cell, corrected: bool): (w: Window)
    requires |g| > 0
    ensures 0 <= w.xs && 0 <= w.ys
    ensures w.xe <= |g| && w.ye <= |g[0]|
    ensures !corrected ==> w.xe <= |g| - 1 && w.ye <= |g[0]| - 1
    ensures w.xe - w.xs <= (if corrected then 5 else 4) && w.ye - w.ys <= (if corrected then 5 else 4)
  {
    if corrected then Window(Max(0, c.x - 2), Min(c.x + 3, |g|), Max(0, c.y - 2), Min(c.y + 3, |g[0]|))
    else Window(Max(0, c.x - 2), Min(c.x + 2, |g| - 1), Max(0, c.y - 2), Min(c.y + 2, |g[0]| - 1))
  }

  /** All columns as long as the first. */
  predicate Rectangular(g: Grid)
  {
    forall i :: 0 <= i < |g| ==> |g[i]| == |g[0]|
  }

  function Span(a: int, b: int): nat
  {
    if a < b then b - a else 0
  }

  /** `getNeighbours(grid, c)`: the cells of the window, column by column;
      exactly the window's cells, at most 16 of them as written (25 when
      corrected). */
  method GetNeighbours(g: Grid, c: Cell, corrected: bool) returns (r: seq<Vec2>)
    requires |g| > 0 && Rectangular(g)
    ensures var w := NeighbourWindow(g, c, corrected);
      |r| == Span(w.xs, w.xe) * Span(w.ys, w.ye)
    ensures |r| <= if corrected then 25 else 16
    ensures var w := NeighbourWindow(g, c, corrected);
      forall k :: 0 <= k < |r| ==> FromWindow(g, w, r[k])
    ensures var w := NeighbourWindow(g, c, corrected);
      forall i, j :: InWindow(w, i, j) ==> g[i][j] in r
  {
    var w := NeighbourWindow(g, c, corrected);
    var h := Span(w.ys, w.ye);
    r := [];
    var i := w.xs;
    while i < w.xe
      invariant w.xs <= i && (i == w.xs || i <= w.xe)
      invariant |r| == (i - w.xs) * h
      invariant forall k :: 0 <= k < |r| ==> FromWindow(g, w, r[k])
      invariant forall a, b :: w.xs <= a < i && w.ys <= b < w.ye ==> g[a][b] in r
    {
      var j := w.ys;
      while j < w.ye
        invariant w.ys <= j && (j == w.ys || j <= w.ye)
        invariant |r| == (i - w.xs) * h + (j - w.ys)
        invariant forall k :: 0 <= k < |r| ==> FromWindow(g, w, r[k])
        invariant forall a, b :: w.xs <= a < i && w.ys <= b < w.ye ==> g[a][b] in r
        invariant forall b :: w.ys <= b < j ==> g[i][b] in r
      {
        assert FromWindow(g, w, g[i][j]);
        r := r + [g[i][j]];
        j := j + 1;
      }
      assert (i - w.xs) * h + h == (i + 1 - w.xs) * h;
      i := i + 1;
    }
    SpanProduct(Span(w.xs, w.xe), h, if corrected then 5 else 4);
  }

  /** v is the content of a cell of the window. */
  ghost predicate FromWindow(g: Grid, w: Window, v: Vec2)
  {
    exists a, b :: InWindow(w, a, b) && 0 <= a < |g| && 0 <= b < |g[a]| && v == g[a][b]
  }

  lemma SpanProduct(a: nat, b: nat, n: nat)
    requires a <= n && b <= n
    ensures a * b <= n * n
  {
    assert a * b <= n * b;
    assert n * b <= n * n;
  }

  /** Whether some occupied cell of p's window holds a point closer than
      `minDist`. */
  ghost predicate Near(s: Sampler, g: Grid, p: Vec2, cs: real, corrected: bool)
    requires cs > 0.0 && |g| > 0 && Rectangular(g)
  {
    var w := NeighbourWindow(g, ImageToGrid(p, cs, corrected), corrected);
    exists i, j :: InWindow(w, i, j) && Occupied(g[i][j]) && Closer(g[i][j], p, s.minDist)
  }

  /** `inNeighbourhood(grid, p, cellSize)`: scans p's neighbours and stops
      at the first occupied one closer than `minDist`. */
  method InNeighbourhood(s: Sampler, g: Grid, p: Vec2, cs: real, corrected: bool) returns (b: bool)
    requires cs > 0.0 && |g| > 0 && Rectangular(g)
    ensures b <==> Near(s, g, p, cs, corrected)
  {
    var c := ImageToGrid(p, cs, corrected);
    var nb := GetNeighbours(g, c, corrected);
    var k := 0;
    while k < |nb|
      invariant 0 <= k <= |nb|
      invariant forall m :: 0 <= m < k ==> !(Occupied(nb[m]) && Closer(nb[m], p, s.minDist))
    {
      if Occupied(nb[k]) && Closer(nb[k], p, s.minDist) {
        return true;
      }
      k := k + 1;
    }
    return false;
  }

  /** The grid after storing the points of `pts` in order: a later point
      overwrites an earlier one of the same cell. */
  function GridOf(s: Sampler, cs: real, corrected: bool, pts: seq<Vec2>): (g: Grid)
    requires Fits(s, cs)
    ensures Shaped(g, Columns(s, cs, corrected), Rows(s, cs, corrected)) && |g| > 0 && Rectangular(g)
    decreases |pts|
  {
    if pts == [] then NewGrid(s, cs, corrected)
    else
      var q := pts[|pts| - 1];
      Store(GridOf(s, cs, corrected, pts[..|pts| - 1]), ImageToGrid(q, cs, corrected), q)
  }

  /** The acceptance rule, checked against the output: every spawn point
      after the first is valid and was not near any point stored before
      it. */
  ghost predicate Accepted(s: Sampler, cs: real, corrected: bool, spawn: seq<Vec2>)
    requires Fits(s, cs)
  {
    forall k :: 1 <= k < |spawn| ==> AcceptedAt(s, cs, corrected, spawn, k)
  }

  /** Spawn point k is valid and was not near the points before it. */
  ghost predicate AcceptedAt(s: Sampler, cs: real, corrected: bool, spawn: seq<Vec2>, k: nat)
    requires Fits(s, cs) && k < |spawn|
  {
    IsValid(s, spawn[k]) && !Near(s, GridOf(s, cs, corrected, spawn[..k]), spawn[k], cs, corrected)
  }

  /** No two spawn points closer than `minDist`. */
  predicate Apart(s: Sampler, spawn: seq<Vec2>)
  {
    forall a, b :: 0 <= a < b < |spawn| ==> !Closer(spawn[a], spawn[b], s.minDist)
  }

  /** The point the source starts from: the centre, by integer halves. */
  function FirstPoint(s: Sampler): (p: Vec2)
    ensures s.width >= 1 && s.height >= 1 ==> IsValid(s, p)
  {
    Vec2(TruncDiv(s.width, 2) as real, TruncDiv(s.height, 2) as real)
  }

  /** A valid point's cell lies in the grid. */
  lemma ImageToGridInGrid(s: Sampler, cs: real, p: Vec2, corrected: bool)
    requires Fits(s, cs) && IsValid(s, p)
    ensures ImageToGrid(p, cs, corrected).x < Columns(s, cs, corrected)
    ensures ImageToGrid(p, cs, corrected).y < Rows(s, cs, corrected)
  {
    DivMonotone(p.x, s.width as real, cs);
    DivMonotone(p.y, s.height as real, cs);
    TruncMonotone(p.x / cs, s.width as real / cs);
    TruncMonotone(p.y / cs, s.height as real / cs);
  }

  lemma DivMonotone(a: real, b: real, c: real)
    requires 0.0 <= a < b && c > 0.0
    ensures 0.0 <= a / c < b / c
  {
  }

  lemma TruncMonotone(a: real, b: real)
    requires 0.0 <= a <= b
    ensures 0 <= Trunc(a) <= Trunc(b)
  {
  }

  /** A valid point's corrected cell is the cell it lies in. */
  lemma CellOfValid(s: Sampler, cs: real, p: Vec2)
    requires cs > 0.0 && IsValid(s, p)
    ensures Trunc(p.x / cs) >= 0 && Trunc(p.y / cs) >= 0
    ensures ImageToGrid(p, cs, true) == Cell(Trunc(p.x / cs), Trunc(p.y / cs))
  {
    DivNonneg(p.x, cs);
    DivNonneg(p.y, cs);
  }

  lemma DivNonneg(a: real, c: real)
    requires a >= 0.0 && c > 0.0
    ensures a / c >= 0.0
  {
  }

  /** p is in the grid at its corrected cell. */
  predicate StoredAt(g: Grid, c: Cell, p: Vec2)
  {
    0 <= c.x < |g| && 0 <= c.y < |g[c.x]| && g[c.x][c.y] == p
  }

  /** What the generation loop keeps: the grid is the spawn points stored
      in order, every spawn point is valid and passed the acceptance rule,
      and, corrected, the points are pairwise apart and none was
      overwritten. */
  ghost predicate Invariant(s: Sampler, cs: real, corrected: bool, spawn: seq<Vec2>)
    requires Fits(s, cs)
  {
    && (forall k :: 0 <= k < |spawn| ==> IsValid(s, spawn[k]))
    && Accepted(s, cs, corrected, spawn)
    && (corrected ==> Apart(s, spawn))
    && (corrected ==> forall k :: 0 <= k < |spawn| ==>
          StoredAt(GridOf(s, cs, corrected, spawn), ImageToGrid(spawn[k], cs, true), spawn[k]))
  }

  /** The sampler as built: its parameters and `points`. */
  datatype PoissonState = PoissonState(config: Sampler, points: seq<Vec2>)

  /** How many candidates one pass generates: the `for` loop runs `count`
      times, and not at all for a negative count. */
  function Candidates(s: Sampler): (n: nat)
    ensures n == 0 <==> s.count <= 0
  {
    if s.count < 0 then 0 else s.count
  }

  /** Reference for one pass of the outer loop: the spawn list after the
      candidates `around(point, made0)` .. `around(point, made0 + n - 1)`
      have been judged in turn, each appended exactly when it is valid and
      not near the grid of the points before it. */
  ghost function Grown(s: Sampler, cs: real, corrected: bool, around: (Vec2, nat) -> Vec2, point: Vec2,
                       spawn0: seq<Vec2>, made0: nat, n: nat): (r: seq<Vec2>)
    requires Fits(s, cs)
    ensures |spawn0| <= |r| <= |spawn0| + n
  {
    if n == 0 then spawn0
    else
      var prev := Grown(s, cs, corrected, around, point, spawn0, made0, n - 1);
      var np := around(point, made0 + n - 1);
      if IsValid(s, np) && !Near(s, GridOf(s, cs, corrected, prev), np, cs, corrected) then prev + [np] else prev
  }

  /** The state of the outer loop: spawn list, process list, and how many
      `rand()` draws and candidates were made so far. */
  datatype Progress = Progress(spawn: seq<Vec2>, process: seq<Vec2>, draws: nat, made: nat)

  /** Reference for one pass: remove the drawn process point, grow from it,
      and append the accepted candidates to the process list. */
  ghost function Pass(s: Sampler, cs: real, corrected: bool, pick: nat -> nat, around: (Vec2, nat) -> Vec2,
                      p: Progress): (q: Progress)
    requires Fits(s, cs) && |p.process| > 0
    ensures |p.spawn| <= |q.spawn| && q.draws == p.draws + 1 && q.made == p.made + Candidates(s)
  {
    var ri := pick(p.draws) % |p.process|;
    var spawn := Grown(s, cs, corrected, around, p.process[ri], p.spawn, p.made, Candidates(s));
    Progress(spawn, p.process[..ri] + p.process[ri + 1..] + spawn[|p.spawn|..], p.draws + 1, p.made + Candidates(s))
  }

  /** Reference for the outer loop: passes until the process list is empty
      or the fuel is spent. */
  ghost function Passes(s: Sampler, cs: real, corrected: bool, pick: nat -> nat, around: (Vec2, nat) -> Vec2,
                        p: Progress, fuel: nat): (q: Progress)
    requires Fits(s, cs)
    decreases fuel
  {
    if fuel == 0 || |p.process| == 0 then p
    else Passes(s, cs, corrected, pick, around, Pass(s, cs, corrected, pick, around, p), fuel - 1)
  }

  /** A pass with fuel left and a point to process is one `Pass` more. */
  lemma PassesStep(s: Sampler, cs: real, corrected: bool, pick: nat -> nat, around: (Vec2, nat) -> Vec2,
                   p: Progress, fuel: nat)
    requires Fits(s, cs) && fuel > 0 && |p.process| > 0
    ensures Passes(s, cs, corrected, pick, around, p, fuel)
         == Passes(s, cs, corrected, pick, around, Pass(s, cs, corrected, pick, around, p), fuel - 1)
  {
  }

  /** A pass only appends to the spawn list. */
  lemma {:induction false} GrownExtends(s: Sampler, cs: real, corrected: bool, around: (Vec2, nat) -> Vec2, point: Vec2,
                                        spawn0: seq<Vec2>, made0: nat, n: nat)
    requires Fits(s, cs)
    ensures spawn0 <= Grown(s, cs, corrected, around, point, spawn0, made0, n)
  {
    if n > 0 {
      GrownExtends(s, cs, corrected, around, point, spawn0, made0, n - 1);
    }
  }

  /** The passes only append to the spawn list. */
  lemma {:induction false} PassesExtends(s: Sampler, cs: real, corrected: bool, pick: nat -> nat, around: (Vec2, nat) -> Vec2,
                                         p: Progress, fuel: nat)
    requires Fits(s, cs)
    ensures p.spawn <= Passes(s, cs, corrected, pick, around, p, fuel).spawn
    decreases fuel
  {
    if fuel > 0 && |p.process| > 0 {
      var ri := pick(p.draws) % |p.process|;
      GrownExtends(s, cs, corrected, around, p.process[ri], p.spawn, p.made, Candidates(s));
      PassesExtends(s, cs, corrected, pick, around, Pass(s, cs, corrected, pick, around, p), fuel - 1);
    }
  }

  /** With no fuel or nothing left to process, the passes stop. */
  lemma PassesDone(s: Sampler, cs: real, corrected: bool, pick: nat -> nat, around: (Vec2, nat) -> Vec2,
                   p: Progress, fuel: nat)
    requires Fits(s, cs) && (fuel == 0 || |p.process| == 0)
    ensures Passes(s, cs, corrected, pick, around, p, fuel) == p
  {
  }

  /** The loop's starting state: the first point spawned and queued. */
  function Start(s: Sampler): (p: Progress)
    ensures p.spawn == p.process == [FirstPoint(s)] && p.draws == p.made == 0
  {
    Progress([FirstPoint(s)], [FirstPoint(s)], 0, 0)
  }

  /** `generatePossionPoints()`, run for at most `fuel` passes of the outer
      loop.  `pick(n)` is the n-th `rand()` used to choose the point to grow
      from, `around(p, n)` the n-th candidate generated around p. */
  method GeneratePoints(s: Sampler, cs: real, corrected: bool, pick: nat -> nat, around: (Vec2, nat) -> Vec2, fuel: nat)
    returns (spawn: seq<Vec2>)
    requires Fits(s, cs)
    ensures spawn == Passes(s, cs, corrected, pick, around, Start(s), fuel).spawn
    ensures |spawn| >= 1 && spawn[0] == FirstPoint(s)
    ensures forall k :: 0 <= k < |spawn| ==> IsValid(s, spawn[k])
    ensures Accepted(s, cs, corrected, spawn)
    ensures corrected ==> Apart(s, spawn)
  {
    spawn := RunPasses(s, cs, corrected, pick, around, fuel);
    Generated(s, cs, corrected, pick, around, fuel);
  }

  /** The outer loop of `generatePossionPoints()`, which computes the
      reference `Passes` from the starting state. */
  method RunPasses(s: Sampler, cs: real, corrected: bool, pick: nat -> nat, around: (Vec2, nat) -> Vec2, fuel: nat)
    returns (spawn: seq<Vec2>)
    requires Fits(s, cs)
    ensures spawn == Passes(s, cs, corrected, pick, around, Start(s), fuel).spawn
  {
    var p := Start(s);
    var passes := 0;
    while |p.process| > 0 && passes < fuel
      decreases fuel - passes
      invariant passes <= fuel
      invariant Passes(s, cs, corrected, pick, around, p, fuel - passes)
             == Passes(s, cs, corrected, pick, around, Start(s), fuel)
    {
      PassesStep(s, cs, corrected, pick, around, p, fuel - passes);
      p := OnePass(s, cs, corrected, pick, around, p);
      passes := passes + 1;
    }
    PassesDone(s, cs, corrected, pick, around, p, fuel - passes);
    spawn := p.spawn;
  }

  /** One pass of the outer loop: draw the process point to grow from,
      remove it from the process list, grow from it, and queue what was
      added. */
  method OnePass(s: Sampler, cs: real, corrected: bool, pick: nat -> nat, around: (Vec2, nat) -> Vec2, p: Progress)
    returns (q: Progress)
    requires Fits(s, cs) && |p.process| > 0
    ensures q == Pass(s, cs, corrected, pick, around, p)
  {
    var ri := pick(p.draws) % |p.process|;
    var point := p.process[ri];
    var spawn, added, made := GrowFrom(s, cs, corrected, around, point, p.spawn, p.made);
    q := Progress(spawn, p.process[..ri] + p.process[ri + 1..] + added, p.draws + 1, made);
    PassOf(s, cs, corrected, pick, around, p, spawn, added);
  }

  /** What every run of the reference loop keeps: the first point first,
      and the invariant. */
  lemma Generated(s: Sampler, cs: real, corrected: bool, pick: nat -> nat, around: (Vec2, nat) -> Vec2, fuel: nat)
    requires Fits(s, cs)
    ensures var spawn := Passes(s, cs, corrected, pick, around, Start(s), fuel).spawn;
      && |spawn| >= 1 && spawn[0] == FirstPoint(s)
      && (forall k :: 0 <= k < |spawn| ==> IsValid(s, spawn[k]))
      && Accepted(s, cs, corrected, spawn)
      && (corrected ==> Apart(s, spawn))
  {
    WidthFromColumns(s, cs);
    FirstInvariant(s, cs, corrected);
    PassesInvariant(s, cs, corrected, pick, around, Start(s), fuel);
    PassesExtends(s, cs, corrected, pick, around, Start(s), fuel);
  }

  /** Passes from a state that keeps the invariant keep it. */
  lemma {:induction false} PassesInvariant(s: Sampler, cs: real, corrected: bool, pick: nat -> nat, around: (Vec2, nat) -> Vec2,
                                           p: Progress, fuel: nat)
    requires Fits(s, cs) && |p.spawn| >= 1
    requires Invariant(s, cs, corrected, p.spawn)
    ensures Invariant(s, cs, corrected, Passes(s, cs, corrected, pick, around, p, fuel).spawn)
    decreases fuel
  {
    if fuel > 0 && |p.process| > 0 {
      var ri := pick(p.draws) % |p.process|;
      var q := Pass(s, cs, corrected, pick, around, p);
      GrownInvariant(s, cs, corrected, around, p.process[ri], p.spawn, p.made, Candidates(s));
      assert q.spawn == Grown(s, cs, corrected, around, p.process[ri], p.spawn, p.made, Candidates(s));
      PassesInvariant(s, cs, corrected, pick, around, q, fuel - 1);
      PassesStep(s, cs, corrected, pick, around, p, fuel);
    }
  }

  /** One pass of the outer loop: `count` candidates around `point`, each
      appended to the spawn list (and returned, for the process list) when
      valid and not near a stored point. */
  method GrowFrom(s: Sampler, cs: real, corrected: bool, around: (Vec2, nat) -> Vec2, point: Vec2,
                  spawn0: seq<Vec2>, made0: nat)
    returns (spawn: seq<Vec2>, added: seq<Vec2>, made: nat)
    requires Fits(s, cs)
    ensures spawn == spawn0 + added
    ensures spawn == Grown(s, cs, corrected, around, point, spawn0, made0, Candidates(s))
    ensures made == made0 + Candidates(s)
    ensures |spawn0| >= 1 && Invariant(s, cs, corrected, spawn0) ==> Invariant(s, cs, corrected, spawn)
  {
    spawn, added, made := spawn0, [], made0;
    assert spawn0 + [] == spawn0;
    var i := 0;
    while i < s.count
      invariant 0 <= i <= Candidates(s)
      invariant Growing(s, cs, corrected, around, point, spawn0, made0, i, spawn, added, made)
    {
      spawn, added := Consider(s, cs, corrected, around, point, spawn0, made0, i, spawn, added, made);
      made := made + 1;
      i := i + 1;
    }
    assert i == Candidates(s);
    if |spawn0| >= 1 && Invariant(s, cs, corrected, spawn0) {
      GrownInvariant(s, cs, corrected, around, point, spawn0, made0, i);
    }
  }

  /** Every reference pass keeps the invariant: each point it appends is
      accepted. */
  lemma {:induction false} GrownInvariant(s: Sampler, cs: real, corrected: bool, around: (Vec2, nat) -> Vec2, point: Vec2,
                                          spawn0: seq<Vec2>, made0: nat, n: nat)
    requires Fits(s, cs) && |spawn0| >= 1
    requires Invariant(s, cs, corrected, spawn0)
    ensures Invariant(s, cs, corrected, Grown(s, cs, corrected, around, point, spawn0, made0, n))
  {
    if n > 0 {
      GrownInvariant(s, cs, corrected, around, point, spawn0, made0, n - 1);
      var prev := Grown(s, cs, corrected, around, point, spawn0, made0, n - 1);
      var np := around(point, made0 + n - 1);
      if IsValid(s, np) && !Near(s, GridOf(s, cs, corrected, prev), np, cs, corrected) {
        Accept(s, cs, corrected, prev, np);
        assert Grown(s, cs, corrected, around, point, spawn0, made0, n) == prev + [np];
      } else {
        assert Grown(s, cs, corrected, around, point, spawn0, made0, n) == prev;
      }
    }
  }

  /** One iteration of `GrowFrom`'s loop: candidate `around(point, made)`
      is appended exactly when it is valid and the lookup in the grid of
      the spawn list finds no point near it. */
  method Consider(s: Sampler, cs: real, corrected: bool, around: (Vec2, nat) -> Vec2, point: Vec2,
                  spawn0: seq<Vec2>, made0: nat, i: nat,
                  spawn: seq<Vec2>, added: seq<Vec2>, made: nat)
    returns (spawn': seq<Vec2>, added': seq<Vec2>)
    requires Fits(s, cs)
    requires Growing(s, cs, corrected, around, point, spawn0, made0, i, spawn, added, made)
    ensures Growing(s, cs, corrected, around, point, spawn0, made0, i + 1, spawn', added', made + 1)
  {
    var np := around(point, made);
    var grid := GridOf(s, cs, corrected, spawn);
    var near := false;
    if IsValid(s, np) {
      near := InNeighbourhood(s, grid, np, cs, corrected);
    }
    GrownNext(s, cs, corrected, around, point, spawn0, made0, i, spawn, grid, np, near);
    if IsValid(s, np) && !near {
      spawn', added' := spawn + [np], added + [np];
      assert spawn0 + added' == spawn';
    } else {
      spawn', added' := spawn, added;
    }
  }

  /** The state of `GrowFrom` after i candidates: the spawn list is the
      reference one, extended by `added`. */
  ghost predicate Growing(s: Sampler, cs: real, corrected: bool, around: (Vec2, nat) -> Vec2, point: Vec2,
                          spawn0: seq<Vec2>, made0: nat, i: nat,
                          spawn: seq<Vec2>, added: seq<Vec2>, made: nat)
    requires Fits(s, cs)
  {
    && spawn == spawn0 + added
    && spawn == Grown(s, cs, corrected, around, point, spawn0, made0, i)
    && made == made0 + i
  }

  /** One more candidate: appended exactly when accepted. */
  lemma GrownNext(s: Sampler, cs: real, corrected: bool, around: (Vec2, nat) -> Vec2, point: Vec2,
                  spawn0: seq<Vec2>, made0: nat, i: nat, prev: seq<Vec2>, grid: Grid, np: Vec2, near: bool)
    requires Fits(s, cs)
    requires prev == Grown(s, cs, corrected, around, point, spawn0, made0, i)
    requires grid == GridOf(s, cs, corrected, prev) && np == around(point, made0 + i)
    requires IsValid(s, np) ==> (near <==> Near(s, grid, np, cs, corrected))
    ensures Grown(s, cs, corrected, around, point, spawn0, made0, i + 1)
         == if IsValid(s, np) && !near then prev + [np] else prev
  {
  }

  /** A pass whose growth produced `spawn = p.spawn + added` is the
      reference pass. */
  lemma PassOf(s: Sampler, cs: real, corrected: bool, pick: nat -> nat, around: (Vec2, nat) -> Vec2,
               p: Progress, spawn: seq<Vec2>, added: seq<Vec2>)
    requires Fits(s, cs) && |p.process| > 0
    requires var ri := pick(p.draws) % |p.process|;
      spawn == Grown(s, cs, corrected, around, p.process[ri], p.spawn, p.made, Candidates(s))
    requires spawn == p.spawn + added
    ensures var ri := pick(p.draws) % |p.process|;
      Pass(s, cs, corrected, pick, around, p)
      == Progress(spawn, p.process[..ri] + p.process[ri + 1..] + added, p.draws + 1, p.made + Candidates(s))
  {
    assert spawn[|p.spawn|..] == added;
  }

  /** The first point alone satisfies the invariant. */
  lemma FirstInvariant(s: Sampler, cs: real, corrected: bool)
    requires Fits(s, cs) && s.width >= 1 && s.height >= 1
    ensures Invariant(s, cs, corrected, [FirstPoint(s)])
  {
    var first := FirstPoint(s);
    var g := GridOf(s, cs, corrected, [first]);
    assert [first][..0] == [];
    ImageToGridInGrid(s, cs, first, corrected);
    if corrected {
      assert StoredAt(g, ImageToGrid(first, cs, true), first);
    }
  }

  /** At least one column needs a positive width (and likewise rows). */
  lemma WidthFromColumns(s: Sampler, cs: real)
    requires Fits(s, cs)
    ensures s.width >= 1 && s.height >= 1
  {
  }

  /** Appending an accepted point keeps the invariant. */
  lemma Accept(s: Sampler, cs: real, corrected: bool, spawn: seq<Vec2>, np: Vec2)
    requires Fits(s, cs) && |spawn| >= 1
    requires Invariant(s, cs, corrected, spawn)
    requires IsValid(s, np) && !Near(s, GridOf(s, cs, corrected, spawn), np, cs, corrected)
    ensures Invariant(s, cs, corrected, spawn + [np])
  {
    var t := spawn + [np];
    assert t[..|spawn|] == spawn;
    forall k | 1 <= k < |t|
      ensures AcceptedAt(s, cs, corrected, t, k)
    {
      if k < |spawn| {
        assert t[..k] == spawn[..k] && t[k] == spawn[k];
        assert AcceptedAt(s, cs, corrected, spawn, k);
      }
    }
    if corrected {
      var g := GridOf(s, cs, true, spawn);
      var g' := GridOf(s, cs, true, t);
      forall k | 0 <= k < |spawn|
        ensures !Closer(spawn[k], np, s.minDist)
      {
        if Closer(spawn[k], np, s.minDist) {
          CloseIsNear(s, cs, g, spawn[k], np);
          assert false;
        }
      }
      forall a, b | 0 <= a < b < |t|
        ensures !Closer(t[a], t[b], s.minDist)
      {
        if b == |spawn| {
          assert t[b] == np;
        }
      }
      ImageToGridInGrid(s, cs, np, true);
      forall k | 0 <= k < |spawn|
        ensures StoredAt(g', ImageToGrid(spawn[k], cs, true), spawn[k])
      {
        if ImageToGrid(spawn[k], cs, true) == ImageToGrid(np, cs, true) {
          SameCellIsClose(s, cs, spawn[k], np);
          assert false;
        }
      }
      assert StoredAt(g', ImageToGrid(np, cs, true), np);
    }
  }

  /** Corrected lookup: a stored valid point closer than `minDist` to a
      valid point q lies within two cells of q on each axis, so q's window
      finds it. */
  lemma CloseIsNear(s: Sampler, cs: real, g: Grid, p: Vec2, q: Vec2)
    requires Fits(s, cs) && |g| > 0 && Rectangular(g)
    requires IsValid(s, p) && IsValid(s, q)
    requires StoredAt(g, ImageToGrid(p, cs, true), p)
    requires Closer(p, q, s.minDist)
    ensures Near(s, g, q, cs, true)
  {
    CellOfValid(s, cs, p);
    CellOfValid(s, cs, q);
    var cp := ImageToGrid(p, cs, true);
    var cq := ImageToGrid(q, cs, true);
    CloseCoordinates(p, q, cs, s.minDist);
    CellsWithinTwo(p.x, q.x, cs);
    CellsWithinTwo(q.x, p.x, cs);
    CellsWithinTwo(p.y, q.y, cs);
    CellsWithinTwo(q.y, p.y, cs);
    assert cq.x - 2 <= cp.x <= cq.x + 2 && cq.y - 2 <= cp.y <= cq.y + 2;
    var w := NeighbourWindow(g, cq, true);
    assert |g[cp.x]| == |g[0]|;
    assert InWindow(w, cp.x, cp.y);
    assert Occupied(g[cp.x][cp.y]);
  }
  /** Points closer than minDist differ by less than two cell sizes on
      each axis. */
  lemma CloseCoordinates(p: Vec2, q: Vec2, cs: real, m: real)
    requires cs > 0.0 && m > 0.0 && cs * cs * 2.0 == m * m
    requires Closer(p, q, m)
    ensures -2.0 * cs < p.x - q.x < 2.0 * cs && -2.0 * cs < p.y - q.y < 2.0 * cs
  {
    var dx, dy := p.x - q.x, p.y - q.y;
    assert LengthSq2(Sub2(p, q)) == dx * dx + dy * dy;
    CoordinateClose(dx, dy, cs, m);
  }

  /** Each coordinate difference of a pair closer than minDist is less than
      two cell sizes. */
  lemma CoordinateClose(dx: real, dy: real, cs: real, m: real)
    requires cs > 0.0 && m > 0.0 && cs * cs * 2.0 == m * m
    requires dx * dx + dy * dy < m * m
    ensures -2.0 * cs < dx < 2.0 * cs && -2.0 * cs < dy < 2.0 * cs
  {
    SquareBelow(dx, cs);
    SquareBelow(dy, cs);
  }

  lemma SquareBelow(d: real, cs: real)
    requires cs > 0.0 && d * d < 4.0 * cs * cs
    ensures -2.0 * cs < d < 2.0 * cs
  {
  }

  /** Two non-negative coordinates less than 2·cs apart fall in cells at
      most two apart. */
  lemma CellsWithinTwo(a: real, b: real, cs: real)
    requires cs > 0.0 && a >= 0.0 && b >= 0.0 && a - b < 2.0 * cs
    ensures Trunc(a / cs) - Trunc(b / cs) <= 2
  {
    assert a / cs - b / cs == (a - b) / cs;
    assert (a - b) / cs < 2.0;
  }

  /** Two valid points of the same corrected cell are closer than
      `minDist`: the cell's diagonal is exactly `minDist`. */
  lemma SameCellIsClose(s: Sampler, cs: real, p: Vec2, q: Vec2)
    requires Fits(s, cs) && IsValid(s, p) && IsValid(s, q)
    requires ImageToGrid(p, cs, true) == ImageToGrid(q, cs, true)
    ensures Closer(p, q, s.minDist)
  {
    CellOfValid(s, cs, p);
    CellOfValid(s, cs, q);
    WithinCell(p.x, q.x, cs);
    WithinCell(p.y, q.y, cs);
    CellmatesClose(p, q, cs, s.minDist);
  }

  /** Points less than a cell size apart on each axis are closer than the
      cell's diagonal. */
  lemma CellmatesClose(p: Vec2, q: Vec2, cs: real, m: real)
    requires cs > 0.0 && m > 0.0 && cs * cs * 2.0 == m * m
    requires -cs < p.x - q.x < cs && -cs < p.y - q.y < cs
    ensures Closer(p, q, m)
  {
    var dx, dy := p.x - q.x, p.y - q.y;
    SquareLess(dx, cs);
    SquareLess(dy, cs);
    assert LengthSq2(Sub2(p, q)) == dx * dx + dy * dy;
  }

  /** Coordinates in the same cell differ by less than a cell size. */
  lemma WithinCell(a: real, b: real, cs: real)
    requires cs > 0.0 && a >= 0.0 && b >= 0.0 && Trunc(a / cs) == Trunc(b / cs)
    ensures -cs < a - b < cs
  {
    var x := a / cs - b / cs;
    assert -1.0 < x < 1.0;
    assert a - b == x * cs;
    ScaleBelow(x, cs);
  }

  lemma ScaleBelow(x: real, cs: real)
    requires cs > 0.0 && -1.0 < x < 1.0
    ensures -cs < x * cs < cs
  {
  }

  lemma SquareLess(d: real, cs: real)
    requires cs > 0.0 && -cs < d < cs
    ensures d * d < cs * cs
  {
    if d >= 0.0 {
      SquareLessNonNeg(d, cs);
    } else {
      SquareLessNonNeg(-d, cs);
      assert (-d) * (-d) == d * d;
    }
  }

  lemma SquareLessNonNeg(e: real, cs: real)
    requires 0.0 <= e < cs
    ensures e * e < cs * cs
  {
    PosMul(cs - e, cs + e);
    assert (cs - e) * (cs + e) == cs * cs - e * e;
  }

  lemma PosMul(x: real, y: real)
    requires x > 0.0 && y > 0.0
    ensures x * y > 0.0
  {
  }

  /** Where `generateRandomPointAround(c)` can put a candidate: at distance
      minDist·(1 + r) from c for some r in [0, 1], compared through
      squares. */
  predicate InAnnulus(c: Vec2, p: Vec2, minDist: real)
  {
    minDist * minDist <= LengthSq2(Sub2(p, c)) <= 4.0 * minDist * minDist
  }

  /** As written, the sampler can accept two points closer than
      `minDist`: with cell size 1 on a 10 × 10 rectangle and minDist √2,
      both (6, 6.05) and (6.5, 4.9) can be generated around the first
      point (5, 5).  The first is filed in cell (5, 5); the window of the
      second, filed in cell (5, 3), covers rows 1 .. 4 only, so the two are
      both accepted although they lie √1.5725 ≈ 1.25 apart. */
  lemma AsWrittenAcceptsClosePair(minDist: real)
    requires minDist > 0.0 && minDist * minDist == 2.0
    ensures Fits(Sampler(10, 10, minDist, 30), 1.0)
    ensures FirstPoint(Sampler(10, 10, minDist, 30)) == Vec2(5.0, 5.0)
    ensures InAnnulus(Vec2(5.0, 5.0), Vec2(6.0, 6.05), minDist)
    ensures InAnnulus(Vec2(5.0, 5.0), Vec2(6.5, 4.9), minDist)
    ensures Accepted(Sampler(10, 10, minDist, 30), 1.0, false, [Vec2(5.0, 5.0), Vec2(6.0, 6.05), Vec2(6.5, 4.9)])
    ensures Closer(Vec2(6.0, 6.05), Vec2(6.5, 4.9), minDist)
  {
    var s := Sampler(10, 10, minDist, 30);
    var first, p, q := Vec2(5.0, 5.0), Vec2(6.0, 6.05), Vec2(6.5, 4.9);
    var spawn := [first, p, q];
    assert Trunc(10.0 / 1.0) == 10;
    assert Columns(s, 1.0, false) == 10 && Rows(s, 1.0, false) == 10;
    assert Fits(s, 1.0);
    assert LengthSq2(Sub2(p, first)) == 2.1025;
    assert LengthSq2(Sub2(q, first)) == 2.26;
    assert spawn[..1] == [first] && [first][..0] == [];
    assert spawn[..2] == [first, p] && [first, p][..1] == [first];
    var g0 := NewGrid(s, 1.0, false);
    var g1 := GridOf(s, 1.0, false, [first]);
    var g2 := GridOf(s, 1.0, false, [first, p]);
    assert Trunc(5.0 / 1.0) == 5 && Trunc(6.0 / 1.0) == 6 && Trunc(6.05 / 1.0) == 6;
    assert Trunc(6.5 / 1.0) == 6 && Trunc(4.9 / 1.0) == 4;
    assert ImageToGrid(first, 1.0, false) == Cell(4, 4);
    assert ImageToGrid(p, 1.0, false) == Cell(5, 5);
    assert ImageToGrid(q, 1.0, false) == Cell(5, 3);
    assert GridOf(s, 1.0, false, []) == g0;
    assert g1 == Store(GridOf(s, 1.0, false, []), Cell(4, 4), first);
    assert g2 == Store(g1, Cell(5, 5), p);
    var w1 := NeighbourWindow(g1, Cell(5, 5), false);
    assert w1 == Window(3, 7, 3, 7);
    forall i, j | InWindow(w1, i, j)
      ensures Occupied(g1[i][j]) ==> !Closer(g1[i][j], p, minDist)
    {
      if (i, j) != (4, 4) {
        assert g1[i][j] == g0[i][j] == Unused;
      }
    }
    assert !Near(s, g1, p, 1.0, false);
    var w2 := NeighbourWindow(g2, Cell(5, 3), false);
    assert w2 == Window(3, 7, 1, 5);
    forall i, j | InWindow(w2, i, j)
      ensures Occupied(g2[i][j]) ==> !Closer(g2[i][j], q, minDist)
    {
      if (i, j) != (4, 4) {
        assert g2[i][j] == g1[i][j] == g0[i][j] == Unused;
      }
    }
    assert !Near(s, g2, q, 1.0, false);
    assert LengthSq2(Sub2(p, q)) == 1.5725;
  }

  /** The sampler's constructor: stores its parameters and the spawn list
      it generated; `getPoints()` returns that list. */
  method NewPoissonSampler(s: Sampler, cs: real, corrected: bool, pick: nat -> nat, around: (Vec2, nat) -> Vec2, fuel: nat)
    returns (st: PoissonState)
    requires Fits(s, cs)
    ensures st.config == s
    ensures GetPoints(st) == st.points
    ensures st.points == Passes(s, cs, corrected, pick, around, Start(s), fuel).spawn
    ensures |st.points| >= 1 && st.points[0] == FirstPoint(s)
    ensures Accepted(s, cs, corrected, st.points)
    ensures corrected ==> Apart(s, st.points)
  {
    var spawn := GeneratePoints(s, cs, corrected, pick, around, fuel);
    st := PoissonState(s, spawn);
  }

  function GetPoints(st: PoissonState): seq<Vec2>
  {
    st.points
  }
}
