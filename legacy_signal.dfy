/** The signal pass of the legacy simulator (script.js, `update`, pass 1):
    an energized cell loses its charge, an active trigger charges its
    conductive neighbours, and a charged conductor charges the conductive
    neighbours that were not charged when the pass began. Every test reads
    the grid of the previous tick; every write goes to the next grid. */
module LegacySignal {
  import opened Common
  import opened Grids
  import opened Elements
  import opened Neighbourhood
  import opened LegacyCells

  /** `elements[symbol]?.conductive`: an unknown symbol does not conduct. */
  predicate Conductive(reg: Registry, s: string) {
    s in reg && reg[s].conductive
  }

  predicate ActiveTrigger(c: LCell) {
    c.symbol == "T" && c.active
  }

  /** Charge the in-bounds conductive neighbours of (x, y) among the first n
      offsets; with `cold`, only those not charged in `grid`. */
  function EnergizeUpTo(grid: LGrid, g: LGrid, reg: Registry, x: int, y: int, cold: bool, n: nat): (r: LGrid)
    requires Square(grid) && Square(g) && n <= |OFFSETS|
    ensures Square(r)
  {
    if n == 0 then g
    else
      var g1 := EnergizeUpTo(grid, g, reg, x, y, cold, n - 1);
      var nx, ny := x + OFFSETS[n - 1].0, y + OFFSETS[n - 1].1;
      if InSquare(nx, ny) && Conductive(reg, grid[ny][nx].symbol) && (!cold || !grid[ny][nx].energized) then
        PutShape(g1, ny, nx, g1[ny][nx].(energized := true), GRID_SIZE, GRID_SIZE);
        Put(g1, ny, nx, g1[ny][nx].(energized := true))
      else g1
  }

  /** The visit of (x, y). */
  function SignalStep(grid: LGrid, g: LGrid, reg: Registry, x: int, y: int): (r: LGrid)
    requires Square(grid) && Square(g) && InSquare(x, y)
    ensures Square(r)
  {
    var c := grid[y][x];
    var g1 := if c.energized then
      PutShape(g, y, x, g[y][x].(energized := false), GRID_SIZE, GRID_SIZE);
      Put(g, y, x, g[y][x].(energized := false))
    else g;
    var g2 := if ActiveTrigger(c) then EnergizeUpTo(grid, g1, reg, x, y, false, |OFFSETS|) else g1;
    if Conductive(reg, c.symbol) && c.energized then EnergizeUpTo(grid, g2, reg, x, y, true, |OFFSETS|) else g2
  }

  /** The visits of rows 0 to y - 1, then of (0, y) to (x - 1, y). */
  function SignalUpTo(grid: LGrid, g0: LGrid, reg: Registry, y: int, x: int): (g: LGrid)
    requires Square(grid) && Square(g0) && 0 <= y < GRID_SIZE && 0 <= x <= GRID_SIZE
    ensures Square(g)
    decreases y, x
  {
    if x == 0 then (if y == 0 then g0 else SignalUpTo(grid, g0, reg, y - 1, GRID_SIZE))
    else SignalStep(grid, SignalUpTo(grid, g0, reg, y, x - 1), reg, x - 1, y)
  }

  function SignalGrid(grid: LGrid, g0: LGrid, reg: Registry): (g: LGrid)
    requires Square(grid) && Square(g0)
    ensures Square(g)
  {
    SignalUpTo(grid, g0, reg, GRID_SIZE - 1, GRID_SIZE)
  }

  // ----- What the pass computes -----

  /** The position of (x, y) in the scan order. */
  function Pos(x: int, y: int): int {
    y * GRID_SIZE + x
  }

  /** The visit of the source (sx, sy) charges (qx, qy). */
  predicate Feeds(grid: LGrid, reg: Registry, sx: int, sy: int, qx: int, qy: int)
    requires Square(grid)
  {
    InSquare(sx, sy) && InSquare(qx, qy) && Adjacent(sx, sy, (qx, qy)) &&
    Conductive(reg, grid[qy][qx].symbol) &&
    (ActiveTrigger(grid[sy][sx]) ||
     (Conductive(reg, grid[sy][sx].symbol) && grid[sy][sx].energized && !grid[qy][qx].energized))
  }

  /** The charge of (qx, qy) once the first v cells have been visited: a
      cell charged in `grid` and already visited holds a charge only from a
      source visited after it; any other cell keeps its charge or takes one
      from any source visited so far. */
  ghost predicate ChargedAfter(grid: LGrid, g0: LGrid, reg: Registry, v: int, qx: int, qy: int)
    requires Square(grid) && Square(g0) && InSquare(qx, qy)
  {
    if grid[qy][qx].energized && Pos(qx, qy) < v then
      exists sx, sy :: Pos(qx, qy) < Pos(sx, sy) < v && Feeds(grid, reg, sx, sy, qx, qy)
    else
      g0[qy][qx].energized || exists sx, sy :: Pos(sx, sy) < v && Feeds(grid, reg, sx, sy, qx, qy)
  }

  ghost predicate Charged(grid: LGrid, g0: LGrid, reg: Registry, v: int, g: LGrid)
    requires Square(grid) && Square(g0) && Square(g)
  {
    forall qy, qx :: InSquare(qx, qy) ==>
      g[qy][qx] == g0[qy][qx].(energized := ChargedAfter(grid, g0, reg, v, qx, qy))
  }

  /** The cell at the k-th offset from (x, y). */
  function Reach(x: int, y: int, k: int): (int, int)
    requires 0 <= k < |OFFSETS|
  {
    (x + OFFSETS[k].0, y + OFFSETS[k].1)
  }

  /** The charging of the neighbours changes only the charge of the
      in-bounds conductive neighbours (and, with `cold`, the uncharged ones). */
  lemma {:induction false} EnergizeEffect(grid: LGrid, g: LGrid, reg: Registry, x: int, y: int, cold: bool, n: nat,
                                          qx: int, qy: int)
    requires Square(grid) && Square(g) && n <= |OFFSETS| && InSquare(qx, qy)
    ensures EnergizeUpTo(grid, g, reg, x, y, cold, n)[qy][qx] ==
      if (exists k :: 0 <= k < n && Reach(x, y, k) == (qx, qy)) &&
         Conductive(reg, grid[qy][qx].symbol) && (!cold || !grid[qy][qx].energized)
      then g[qy][qx].(energized := true) else g[qy][qx]
  {
    if n > 0 {
      EnergizeEffect(grid, g, reg, x, y, cold, n - 1, qx, qy);
      if Reach(x, y, n - 1) == (qx, qy) {
        assert exists k :: 0 <= k < n && Reach(x, y, k) == (qx, qy);
      } else {
        assert (exists k :: 0 <= k < n && Reach(x, y, k) == (qx, qy)) ==
          (exists k :: 0 <= k < n - 1 && Reach(x, y, k) == (qx, qy));
      }
    }
  }

  /** The eight offsets reach exactly the adjacent cells. */
  lemma OffsetsAdjacent(x: int, y: int, qx: int, qy: int)
    ensures (exists k :: 0 <= k < |OFFSETS| && Reach(x, y, k) == (qx, qy)) <==>
      Adjacent(x, y, (qx, qy))
  {
    if Adjacent(x, y, (qx, qy)) {
      var dx, dy := qx - x, qy - y;
      var k := if dy == -1 then dx + 1 else if dy == 0 then (if dx < 0 then 3 else 4) else dx + 6;
      assert Reach(x, y, k) == (qx, qy);
    }
  }

  /** The visit of (x, y) changes the charge of its adjacent cells it feeds
      and, when (x, y) was charged, clears its own. */
  lemma SignalStepEffect(grid: LGrid, g: LGrid, reg: Registry, x: int, y: int)
    requires Square(grid) && Square(g) && InSquare(x, y)
    ensures SignalStep(grid, g, reg, x, y)[y][x] ==
      if grid[y][x].energized then g[y][x].(energized := false) else g[y][x]
    ensures forall qy, qx :: InSquare(qx, qy) && (qx, qy) != (x, y) ==>
      SignalStep(grid, g, reg, x, y)[qy][qx] ==
        if Feeds(grid, reg, x, y, qx, qy) then g[qy][qx].(energized := true) else g[qy][qx]
  {
    var c := grid[y][x];
    var g1 := if c.energized then Put(g, y, x, g[y][x].(energized := false)) else g;
    var g2 := if ActiveTrigger(c) then EnergizeUpTo(grid, g1, reg, x, y, false, |OFFSETS|) else g1;
    PutShape(g, y, x, g[y][x].(energized := false), GRID_SIZE, GRID_SIZE);
    EnergizeEffect(grid, g1, reg, x, y, false, |OFFSETS|, x, y);
    EnergizeEffect(grid, g2, reg, x, y, true, |OFFSETS|, x, y);
    OffsetsAdjacent(x, y, x, y);
    forall qy, qx | InSquare(qx, qy) && (qx, qy) != (x, y)
      ensures SignalStep(grid, g, reg, x, y)[qy][qx] ==
        if Feeds(grid, reg, x, y, qx, qy) then g[qy][qx].(energized := true) else g[qy][qx]
    {
      EnergizeEffect(grid, g1, reg, x, y, false, |OFFSETS|, qx, qy);
      EnergizeEffect(grid, g2, reg, x, y, true, |OFFSETS|, qx, qy);
      OffsetsAdjacent(x, y, qx, qy);
    }
  }

  lemma PosOrder(x: int, y: int)
    requires InSquare(x, y)
    ensures forall sx, sy :: InSquare(sx, sy) ==>
      (Pos(sx, sy) == Pos(x, y) <==> sx == x && sy == y)
  {
  }

  /** One visit extends the characterisation by one position. */
  lemma SignalStepCharged(grid: LGrid, g0: LGrid, g: LGrid, reg: Registry, x: int, y: int)
    requires Square(grid) && Square(g0) && Square(g) && InSquare(x, y)
    requires Charged(grid, g0, reg, Pos(x, y), g)
    ensures Charged(grid, g0, reg, Pos(x, y) + 1, SignalStep(grid, g, reg, x, y))
  {
    var v := Pos(x, y);
    var r := SignalStep(grid, g, reg, x, y);
    SignalStepEffect(grid, g, reg, x, y);
    PosOrder(x, y);
    forall qy, qx | InSquare(qx, qy)
      ensures r[qy][qx] == g0[qy][qx].(energized := ChargedAfter(grid, g0, reg, v + 1, qx, qy))
    {
      if (qx, qy) == (x, y) {
        assert !Feeds(grid, reg, x, y, x, y);
        if grid[y][x].energized {
          assert !ChargedAfter(grid, g0, reg, v + 1, x, y);
        } else {
          assert ChargedAfter(grid, g0, reg, v + 1, x, y) == ChargedAfter(grid, g0, reg, v, x, y);
        }
      } else if Feeds(grid, reg, x, y, qx, qy) {
        assert ChargedAfter(grid, g0, reg, v + 1, qx, qy);
      } else {
        assert ChargedAfter(grid, g0, reg, v + 1, qx, qy) == ChargedAfter(grid, g0, reg, v, qx, qy);
      }
    }
  }

  lemma {:induction false} SignalUpToCharged(grid: LGrid, g0: LGrid, reg: Registry, y: int, x: int)
    requires Square(grid) && Square(g0) && 0 <= y < GRID_SIZE && 0 <= x <= GRID_SIZE
    ensures Charged(grid, g0, reg, Pos(x, y), SignalUpTo(grid, g0, reg, y, x))
    decreases y, x
  {
    if x == 0 {
      if y > 0 {
        SignalUpToCharged(grid, g0, reg, y - 1, GRID_SIZE);
      } else {
        forall qy, qx | InSquare(qx, qy)
          ensures !exists sx, sy :: Pos(sx, sy) < 0 && Feeds(grid, reg, sx, sy, qx, qy)
        {
        }
      }
    } else {
      SignalUpToCharged(grid, g0, reg, y, x - 1);
      SignalStepCharged(grid, g0, SignalUpTo(grid, g0, reg, y, x - 1), reg, x - 1, y);
    }
  }

  /** The whole pass on the next grid cloned from the current one: every
      field but the charge is kept; an uncharged cell becomes charged exactly
      when some adjacent source feeds it; a charged cell stays charged exactly
      when an adjacent active trigger later in the scan order feeds it. */
  lemma SignalPass(grid: LGrid, reg: Registry)
    requires Square(grid)
    ensures Square(SignalGrid(grid, grid, reg))
    ensures forall qy, qx :: InSquare(qx, qy) ==>
      SignalGrid(grid, grid, reg)[qy][qx] == grid[qy][qx].(energized := SignalGrid(grid, grid, reg)[qy][qx].energized)
    ensures forall qy, qx :: InSquare(qx, qy) && !grid[qy][qx].energized ==>
      (SignalGrid(grid, grid, reg)[qy][qx].energized <==>
        exists sx, sy :: Feeds(grid, reg, sx, sy, qx, qy))
    ensures forall qy, qx :: InSquare(qx, qy) && grid[qy][qx].energized ==>
      (SignalGrid(grid, grid, reg)[qy][qx].energized <==>
        exists sx, sy :: Pos(qx, qy) < Pos(sx, sy) && Feeds(grid, reg, sx, sy, qx, qy) &&
          ActiveTrigger(grid[sy][sx]))
  {
    SignalUpToCharged(grid, grid, reg, GRID_SIZE - 1, GRID_SIZE);
    assert Pos(GRID_SIZE, GRID_SIZE - 1) == GRID_SIZE * GRID_SIZE;
    forall qy, qx | InSquare(qx, qy)
      ensures forall sx, sy :: Feeds(grid, reg, sx, sy, qx, qy) ==> Pos(sx, sy) < GRID_SIZE * GRID_SIZE
    {
    }
  }

  /** The pass keeps every symbol, so the cells stay known. */
  lemma SignalKnown(grid: LGrid, g0: LGrid, reg: Registry)
    requires Square(grid) && Square(g0) && Known(reg, g0)
    ensures forall qy, qx :: InSquare(qx, qy) ==>
      SignalGrid(grid, g0, reg)[qy][qx].symbol == g0[qy][qx].symbol
    ensures Known(reg, SignalGrid(grid, g0, reg))
  {
    SignalUpToCharged(grid, g0, reg, GRID_SIZE - 1, GRID_SIZE);
  }

  // ----- The pass, in place -----

  method EnergizeAt(grid: LGrid, next: array2<LCell>, reg: Registry, x: int, y: int, cold: bool)
    requires Square(grid) && next.Length0 == GRID_SIZE && next.Length1 == GRID_SIZE
    modifies next
    ensures Snap(next) == EnergizeUpTo(grid, old(Snap(next)), reg, x, y, cold, |OFFSETS|)
  {
    ghost var g := Snap(next);
    for i := 0 to |OFFSETS|
      invariant Snap(next) == EnergizeUpTo(grid, g, reg, x, y, cold, i)
    {
      var nx, ny := x + OFFSETS[i].0, y + OFFSETS[i].1;
      if InSquare(nx, ny) && Conductive(reg, grid[ny][nx].symbol) && (!cold || !grid[ny][nx].energized) {
        Write(next, ny, nx, next[ny, nx].(energized := true));
      }
    }
  }

  method SignalAt(grid: LGrid, next: array2<LCell>, reg: Registry, x: int, y: int)
    requires Square(grid) && next.Length0 == GRID_SIZE && next.Length1 == GRID_SIZE && InSquare(x, y)
    modifies next
    ensures Snap(next) == SignalStep(grid, old(Snap(next)), reg, x, y)
  {
    var cell := grid[y][x];
    if cell.energized {
      Write(next, y, x, next[y, x].(energized := false));
    }
    if ActiveTrigger(cell) {
      EnergizeAt(grid, next, reg, x, y, false);
    }
    if Conductive(reg, cell.symbol) && cell.energized {
      EnergizeAt(grid, next, reg, x, y, true);
    }
  }

  /** Pass 1 of `update`, writing into `next`. */
  method ApplySignal(grid: LGrid, next: array2<LCell>, reg: Registry)
    requires Square(grid) && next.Length0 == GRID_SIZE && next.Length1 == GRID_SIZE
    modifies next
    ensures Snap(next) == SignalGrid(grid, old(Snap(next)), reg)
  {
    ghost var g0 := Snap(next);
    for y := 0 to GRID_SIZE
      invariant Snap(next) == if y == 0 then g0 else SignalUpTo(grid, g0, reg, y - 1, GRID_SIZE)
    {
      for x := 0 to GRID_SIZE
        invariant Snap(next) == SignalUpTo(grid, g0, reg, y, x)
      {
        SignalAt(grid, next, reg, x, y);
      }
    }
  }
}
