/** The legacy dense simulator (script.js) as one object: the 100x100 grid,
    the element table, the run flag, the selected element and the brush
    size, with the operations `initializeGrid`, `loadElements`, `update`,
    the start/pause toggle and `paint`. */
module Legacy {
  import opened Common
  import opened Grids
  import opened Elements
  import opened LegacyCells
  import opened LegacySignal
  import opened LegacyChemistry
  import opened LegacyPhysics
  import opened Brush

  /** One tick of `update` on grid g: the signal and chemistry passes read
      g and write into a copy of it; the three movement passes then work in
      place on that copy. */
  function Tick(g: LGrid, reg: Registry, chemRng: Oracle, fallRng: Oracle, sideRng: Oracle): LGrid
    requires Square(g)
  {
    var next := ChemGrid(g, SignalGrid(g, g, reg), reg, chemRng);
    LateralGrid(RiseGrid(FallGrid(next, reg, fallRng), reg), reg, sideRng)
  }

  /** A tick writes only known symbols when it starts from known ones, and
      the movement passes only rearrange what the chemistry left. */
  lemma TickKeeps(g: LGrid, reg: Registry, chemRng: Oracle, fallRng: Oracle, sideRng: Oracle)
    requires Square(g) && Known(reg, g) && Specials(reg)
    ensures Square(Tick(g, reg, chemRng, fallRng, sideRng))
    ensures Known(reg, Tick(g, reg, chemRng, fallRng, sideRng))
    ensures Bag(Tick(g, reg, chemRng, fallRng, sideRng)) == Bag(ChemGrid(g, SignalGrid(g, g, reg), reg, chemRng))
  {
    SignalKnown(g, g, reg);
    var charged := SignalGrid(g, g, reg);
    ChemKnown(g, charged, reg, chemRng, GRID_SIZE - 1, GRID_SIZE);
    MovementKeeps(ChemGrid(g, charged, reg, chemRng), reg, fallRng, sideRng);
  }

  // ----- The brush -----

  /** The grid after a stamp of s with radius r around (x, y). */
  function Stamped(g: LGrid, x: int, y: int, r: int, s: string): (p: LGrid)
    requires Square(g)
    ensures Square(p)
  {
    seq(GRID_SIZE, ny requires 0 <= ny < GRID_SIZE =>
      seq(GRID_SIZE, nx requires 0 <= nx < GRID_SIZE =>
        if InBrush(nx - x, ny - y, r) then Plain(s) else g[ny][nx]))
  }

  /** `paint` at cell (x, y): a click off the grid does nothing, a click on a
      trigger toggles it, and any other click stamps the selected element. */
  function Painted(g: LGrid, x: int, y: int, brushSize: int, s: string): (p: LGrid)
    requires Square(g)
    ensures Square(p)
  {
    if !InSquare(x, y) then g
    else if g[y][x].symbol == "T" then
      PutShape(g, y, x, g[y][x].(active := !g[y][x].active), GRID_SIZE, GRID_SIZE);
      Put(g, y, x, g[y][x].(active := !g[y][x].active))
    else Stamped(g, x, y, Radius(brushSize), s)
  }

  /** A stamp covers the clicked cell, reaches no cell further than the
      radius in either direction, and paints only the clicked cell with a
      brush of size 0 or 1. */
  lemma PaintReach(g: LGrid, x: int, y: int, brushSize: int, s: string)
    requires Square(g) && InSquare(x, y) && g[y][x].symbol != "T" && brushSize >= 0
    ensures Painted(g, x, y, brushSize, s)[y][x] == Plain(s)
    ensures forall ny, nx :: InSquare(nx, ny) && Painted(g, x, y, brushSize, s)[ny][nx] != g[ny][nx] ==>
      -Radius(brushSize) <= nx - x <= Radius(brushSize) && -Radius(brushSize) <= ny - y <= Radius(brushSize)
    ensures brushSize <= 1 ==> forall ny, nx :: InSquare(nx, ny) && (nx, ny) != (x, y) ==>
      Painted(g, x, y, brushSize, s)[ny][nx] == g[ny][nx]
  {
    var r := Radius(brushSize);
    assert Painted(g, x, y, brushSize, s) == Stamped(g, x, y, r, s);
    assert 0 * 0 + 0 * 0 <= r * r;
    assert InBrush(0, 0, r);
    forall ny, nx | InSquare(nx, ny) && Painted(g, x, y, brushSize, s)[ny][nx] != g[ny][nx]
      ensures -r <= nx - x <= r && -r <= ny - y <= r
    {
      assert Stamped(g, x, y, r, s)[ny][nx] != g[ny][nx];
      assert InBrush(nx - x, ny - y, r);
    }
  }

  /** Painting a known symbol keeps the cells known. */
  lemma PaintKnown(g: LGrid, reg: Registry, x: int, y: int, brushSize: int, s: string)
    requires Square(g) && Known(reg, g) && s in reg
    ensures Known(reg, Painted(g, x, y, brushSize, s))
  {
    if InSquare(x, y) && g[y][x].symbol == "T" {
      KnownPut(reg, g, y, x, g[y][x].(active := !g[y][x].active));
    } else if InSquare(x, y) {
      var p: LGrid := Stamped(g, x, y, Radius(brushSize), s);
      forall i: int, j: int | 0 <= i < |p| && 0 <= j < |p[i]| ensures p[i][j].symbol in reg {
        assert p[i][j] == Plain(s) || p[i][j] == g[i][j];
      }
    }
  }

  // ----- The simulator -----

  class LegacySim {
    var grid: array2<LCell>
    var elements: Registry
    var isRunning: bool
    var currentElement: string
    var brushSize: int

    ghost predicate Valid()
      reads this
    {
      grid.Length0 == GRID_SIZE && grid.Length1 == GRID_SIZE
    }

    /** `init`: the element table is loaded (None when the fetch or the
        parse fails, which leaves it empty), then the grid is cleared. */
    constructor (loaded: Option<Registry>)
      ensures Valid() && fresh(grid) && Snap(grid) == Blank()
      ensures elements == if loaded.Some? then WithSpecials(loaded.value) else map[]
      ensures !isRunning && currentElement == "C" && brushSize == 1
    {
      elements := map[];
      isRunning := false;
      currentElement := "C";
      brushSize := 1;
      if loaded.Some? {
        elements := WithSpecials(loaded.value);
      }
      grid := new LCell[GRID_SIZE, GRID_SIZE]((i, j) => Plain("VACUUM"));
      new;
      SnapEq(Snap(grid), Blank(), GRID_SIZE, GRID_SIZE);
    }

    /** `initializeGrid`, also the clear button: a fresh grid of vacuum. */
    method InitializeGrid()
      modifies this
      ensures Valid() && fresh(grid) && Snap(grid) == Blank()
      ensures elements == old(elements) && isRunning == old(isRunning)
      ensures currentElement == old(currentElement) && brushSize == old(brushSize)
    {
      grid := new LCell[GRID_SIZE, GRID_SIZE]((i, j) => Plain("VACUUM"));
      SnapEq(Snap(grid), Blank(), GRID_SIZE, GRID_SIZE);
    }

    /** `loadElements`: on success the table is the loaded one with the
        special entries written over it; on failure it is left as it was. */
    method LoadElements(loaded: Option<Registry>)
      modifies this
      ensures elements == if loaded.Some? then WithSpecials(loaded.value) else old(elements)
      ensures loaded.Some? ==> Specials(elements)
      ensures grid == old(grid) && isRunning == old(isRunning)
      ensures currentElement == old(currentElement) && brushSize == old(brushSize)
    {
      if loaded.Some? {
        elements := WithSpecials(loaded.value);
        SpecialsLoaded(loaded.value);
      }
    }

    /** `update`: nothing while paused; otherwise one tick, the grid being
        replaced by the next grid the passes built. A grid whose symbols
        are all in a table holding the special entries stays so. */
    method Update(chemRng: Oracle, fallRng: Oracle, sideRng: Oracle)
      requires Valid()
      modifies this
      ensures Valid()
      ensures !old(isRunning) ==> grid == old(grid) && Snap(grid) == old(Snap(grid))
      ensures old(isRunning) ==> fresh(grid) && Snap(grid) == Tick(old(Snap(grid)), elements, chemRng, fallRng, sideRng)
      ensures old(Known(elements, Snap(grid))) && Specials(elements) ==> Known(elements, Snap(grid))
      ensures elements == old(elements) && isRunning == old(isRunning)
      ensures currentElement == old(currentElement) && brushSize == old(brushSize)
    {
      if !isRunning {
        return;
      }
      var cur := Snap(grid);
      if Known(elements, cur) && Specials(elements) {
        TickKeeps(cur, elements, chemRng, fallRng, sideRng);
      }
      var next := FromGrid(cur, GRID_SIZE, GRID_SIZE);
      ApplySignal(cur, next, elements);
      ApplyChemistry(cur, next, elements, chemRng);
      grid := next;
      ApplyFall(grid, elements, fallRng);
      ApplyRise(grid, elements);
      ApplyLateral(grid, elements, sideRng);
    }

    /** The start/pause button: flips the run flag and, when it starts the
        run, performs the first tick. */
    method StartPause(chemRng: Oracle, fallRng: Oracle, sideRng: Oracle)
      requires Valid()
      modifies this
      ensures Valid() && isRunning == !old(isRunning)
      ensures isRunning ==> Snap(grid) == Tick(old(Snap(grid)), elements, chemRng, fallRng, sideRng)
      ensures !isRunning ==> grid == old(grid) && Snap(grid) == old(Snap(grid))
      ensures old(Known(elements, Snap(grid))) && Specials(elements) ==> Known(elements, Snap(grid))
      ensures elements == old(elements)
      ensures currentElement == old(currentElement) && brushSize == old(brushSize)
    {
      isRunning := !isRunning;
      if isRunning {
        Update(chemRng, fallRng, sideRng);
      }
    }

    /** `paint` at the grid cell (x, y) under the mouse. */
    method Paint(x: int, y: int)
      requires Valid()
      modifies grid
      ensures Snap(grid) == Painted(old(Snap(grid)), x, y, brushSize, currentElement)
    {
      if x < 0 || x >= GRID_SIZE || y < 0 || y >= GRID_SIZE {
        return;
      }
      if grid[y, x].symbol == "T" {
        Write(grid, y, x, grid[y, x].(active := !grid[y, x].active));
        return;
      }
      ghost var g := Snap(grid);
      var radius := brushSize / 2;
      var i := -radius;
      while i <= radius
        invariant i == -radius || -radius <= i <= radius + 1
        invariant forall ny, nx :: 0 <= ny < GRID_SIZE && 0 <= nx < GRID_SIZE ==>
          grid[ny, nx] == if InBrush(nx - x, ny - y, radius) && ny - y < i then Plain(currentElement) else g[ny][nx]
        decreases radius + 1 - i
      {
        var j := -radius;
        while j <= radius
          invariant -radius <= j <= radius + 1
          invariant forall ny, nx :: 0 <= ny < GRID_SIZE && 0 <= nx < GRID_SIZE ==>
            grid[ny, nx] ==
              if InBrush(nx - x, ny - y, radius) && (ny - y < i || (ny - y == i && nx - x < j))
              then Plain(currentElement) else g[ny][nx]
          decreases radius + 1 - j
        {
          if i * i + j * j <= radius * radius {
            var newX, newY := x + j, y + i;
            if newX >= 0 && newX < GRID_SIZE && newY >= 0 && newY < GRID_SIZE {
              grid[newY, newX] := Plain(currentElement);
            }
          }
          j := j + 1;
        }
        i := i + 1;
      }
      SnapEq(Snap(grid), Stamped(g, x, y, radius, currentElement), GRID_SIZE, GRID_SIZE);
    }
  }
}
