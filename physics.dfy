/** `applyPhysics` (js/engine.js): rows from the bottom up, each cell of the
    successor that holds a known non-vacuum element tries to move by its
    phase: solids fall into non-solids of lower density, liquids fall into
    anything lighter or else flow sideways into a gas or plasma, gases rise
    into anything denser or else drift sideways into a lighter gas. The
    cells compared against are fetched from the world with `getCell`; the
    only thing that does to the world is create missing chunks, which
    changes no cell that can be read (`Grown`), so the pass is specified
    against the world m it starts from. The move itself swaps inside the
    successor when its target passes the same-chunk test and is vacuum
    there, and otherwise hands the cell to a cross-chunk mover, leaving
    vacuum at -273 behind.

    As written, the coordinates handed to the move are chunk-local while
    the same-chunk test compares their floor division with the chunk's own
    coordinates; this is modelled exactly (see `OffOriginMovesLeave`). */
module Physics {
  import opened Common
  import opened Grids
  import opened World
  import opened Elements
  import opened Neighbourhood

  /** One entry of `crossChunkMovers`. */
  datatype Mover = Mover(fromX: int, fromY: int, toX: int, toY: int, cell: Cell)

  /** What the pass changes: the successor and the movers collected so far. */
  datatype PhysState = PhysState(grid: Grid, movers: seq<Mover>)

  predicate Good(s: PhysState) {
    ChunkGrid(s.grid)
  }

  /** What a cell that leaves its chunk leaves behind. */
  const DEPARTED: Cell := VacuumCell(-273.0)

  /** `move(fromX, fromY, toX, toY)`, `cell` being the visited cell. */
  function MoveTo(s: PhysState, cx: int, cy: int, fromX: int, fromY: int, toX: int, toY: int, cell: Cell): (r: PhysState)
    requires Good(s) && InChunk(fromX, fromY)
    ensures Good(r)
  {
    if ChunkCoord(toX) == cx && ChunkCoord(toY) == cy then
      var lx, ly := toX - cx * CHUNK_SIZE, toY - cy * CHUNK_SIZE;
      if s.grid[ly][lx].symbol == "VACUUM" then
        SwapShape(s.grid, fromY, fromX, ly, lx, CHUNK_SIZE, CHUNK_SIZE);
        s.(grid := Swap(s.grid, fromY, fromX, ly, lx))
      else s
    else
      PutShape(s.grid, fromY, fromX, DEPARTED, CHUNK_SIZE, CHUNK_SIZE);
      PhysState(Put(s.grid, fromY, fromX, DEPARTED), s.movers + [Mover(fromX, fromY, toX, toY, cell)])
  }

  /** The movement tests, on the target cell fetched from the world. */
  predicate SolidSinksInto(reg: Registry, c: Cell, density: real) {
    c.symbol in reg && reg[c.symbol].phase != "Solid" && density > OrReal(reg[c.symbol].density, 0.0)
  }

  predicate LiquidSinksInto(reg: Registry, c: Cell, density: real) {
    c.symbol in reg && density > OrReal(reg[c.symbol].density, 0.0)
  }

  predicate LiquidFlowsInto(reg: Registry, c: Cell) {
    c.symbol in reg && reg[c.symbol].phase != "Solid" && reg[c.symbol].phase != "Liquid"
  }

  predicate GasRisesInto(reg: Registry, c: Cell, density: real) {
    c.symbol in reg && density < OrReal(reg[c.symbol].density, 0.0)
  }

  predicate GasDriftsInto(reg: Registry, c: Cell, density: real) {
    c.symbol in reg && reg[c.symbol].phase == "Gas" && density > OrReal(reg[c.symbol].density, 0.0)
  }

  /** `Math.random() < 0.5 ? 1 : -1`. */
  function Dir(d: Draw): int {
    if d < 0.5 then 1 else -1
  }

  /** The guards on the vertical probes, as written: `toY < CHUNK_SIZE *
      (chunkY + 1)` and `toY >= chunkY * CHUNK_SIZE` on the local row. */
  predicate CanFall(cy: int, y: int) {
    y + 1 < CHUNK_SIZE * (cy + 1)
  }

  predicate CanRise(cy: int, y: int) {
    y - 1 >= cy * CHUNK_SIZE
  }

  /** The cell `getCell` returns for the probe at local (x, y) of chunk
      (cx, cy). */
  function Probe(m: map<string, Chunk>, cx: int, cy: int, x: int, y: int, ambient: real): Cell
    requires AllShaped(m)
  {
    Read(m, cx * CHUNK_SIZE + x, cy * CHUNK_SIZE + y, ambient)
  }

  /** Where a solid at local (x, y) moves: down, when the guard lets it
      and the cell below is a lighter non-solid. */
  function SolidTarget(m: map<string, Chunk>, cx: int, cy: int, x: int, y: int,
                       reg: Registry, ambient: real, density: real): Option<(int, int)>
    requires AllShaped(m)
  {
    if CanFall(cy, y) && SolidSinksInto(reg, Probe(m, cx, cy, x, y + 1, ambient), density)
    then Some((x, y + 1))
    else None
  }

  /** The sideways attempt of a liquid, after it did not fall. */
  function LiquidSideTarget(m: map<string, Chunk>, cx: int, cy: int, x: int, y: int,
                            reg: Registry, ambient: real, d: Draw): Option<(int, int)>
    requires AllShaped(m)
  {
    if LiquidFlowsInto(reg, Probe(m, cx, cy, x + Dir(d), y, ambient))
    then Some((x + Dir(d), y))
    else None
  }

  function LiquidTarget(m: map<string, Chunk>, cx: int, cy: int, x: int, y: int,
                        reg: Registry, ambient: real, density: real, d: Draw): Option<(int, int)>
    requires AllShaped(m)
  {
    if CanFall(cy, y) && LiquidSinksInto(reg, Probe(m, cx, cy, x, y + 1, ambient), density)
    then Some((x, y + 1))
    else LiquidSideTarget(m, cx, cy, x, y, reg, ambient, d)
  }

  /** The sideways attempt of a gas, after it did not rise. */
  function GasSideTarget(m: map<string, Chunk>, cx: int, cy: int, x: int, y: int,
                         reg: Registry, ambient: real, density: real, d: Draw): Option<(int, int)>
    requires AllShaped(m)
  {
    if GasDriftsInto(reg, Probe(m, cx, cy, x + Dir(d), y, ambient), density)
    then Some((x + Dir(d), y))
    else None
  }

  function GasTarget(m: map<string, Chunk>, cx: int, cy: int, x: int, y: int,
                     reg: Registry, ambient: real, density: real, d: Draw): Option<(int, int)>
    requires AllShaped(m)
  {
    if CanRise(cy, y) && GasRisesInto(reg, Probe(m, cx, cy, x, y - 1, ambient), density)
    then Some((x, y - 1))
    else GasSideTarget(m, cx, cy, x, y, reg, ambient, density, d)
  }

  /** Cells the pass leaves alone: unknown symbols and vacuum. */
  predicate Inert(reg: Registry, c: Cell) {
    c.symbol !in reg || reg[c.symbol].symbol == "VACUUM"
  }

  /** The local target `move` is called with for cell c at (x, y), if any. */
  function PhysTarget(m: map<string, Chunk>, cx: int, cy: int, x: int, y: int,
                      reg: Registry, ambient: real, c: Cell, rng: Oracle): Option<(int, int)>
    requires AllShaped(m)
  {
    if Inert(reg, c) then None
    else
      var e := reg[c.symbol];
      var density := OrReal(e.density, 1.0);
      if e.phase == "Solid" then SolidTarget(m, cx, cy, x, y, reg, ambient, density)
      else if e.phase == "Liquid" then LiquidTarget(m, cx, cy, x, y, reg, ambient, density, rng(x, y, 0))
      else if e.phase == "Gas" then GasTarget(m, cx, cy, x, y, reg, ambient, density, rng(x, y, 0))
      else None
  }

  /** The visit of cell (x, y) of chunk (cx, cy). */
  function PhysStep(s: PhysState, m: map<string, Chunk>, cx: int, cy: int, x: int, y: int,
                    reg: Registry, ambient: real, rng: Oracle): (r: PhysState)
    requires Good(s) && AllShaped(m) && InChunk(x, y)
    ensures Good(r)
  {
    var cur := s.grid[y][x];
    var t := PhysTarget(m, cx, cy, x, y, reg, ambient, cur, rng);
    if t.Some? then MoveTo(s, cx, cy, x, y, t.value.0, t.value.1, cur) else s
  }

  /** The state after the rows below row `CHUNK_SIZE - 1 - r` and the first
      x cells of that row. */
  function PhysUpTo(s0: PhysState, m: map<string, Chunk>, cx: int, cy: int, reg: Registry, ambient: real, rng: Oracle,
                    r: int, x: int): (s: PhysState)
    requires Good(s0) && AllShaped(m) && 0 <= r < CHUNK_SIZE && 0 <= x <= CHUNK_SIZE
    ensures Good(s)
    decreases r, x
  {
    if x == 0 then (if r == 0 then s0 else PhysUpTo(s0, m, cx, cy, reg, ambient, rng, r - 1, CHUNK_SIZE))
    else PhysStep(PhysUpTo(s0, m, cx, cy, reg, ambient, rng, r, x - 1), m, cx, cy, x - 1, CHUNK_SIZE - 1 - r, reg, ambient, rng)
  }

  function PhysGrid(s0: PhysState, m: map<string, Chunk>, cx: int, cy: int, reg: Registry, ambient: real, rng: Oracle): PhysState
    requires Good(s0) && AllShaped(m)
  {
    PhysUpTo(s0, m, cx, cy, reg, ambient, rng, CHUNK_SIZE - 1, CHUNK_SIZE)
  }

  /** Solids only fall, liquids fall or flow sideways, gases rise or drift
      sideways, each by one cell; other phases and inert cells stay. */
  lemma TargetDirections(m: map<string, Chunk>, cx: int, cy: int, x: int, y: int,
                         reg: Registry, ambient: real, c: Cell, rng: Oracle)
    requires AllShaped(m)
    ensures var t := PhysTarget(m, cx, cy, x, y, reg, ambient, c, rng);
      (Inert(reg, c) ==> t.None?) &&
      (t.Some? ==> !Inert(reg, c) && reg[c.symbol].phase in {"Solid", "Liquid", "Gas"}) &&
      (t.Some? && reg[c.symbol].phase == "Solid" ==> t.value == (x, y + 1) && CanFall(cy, y)) &&
      (t.Some? && reg[c.symbol].phase == "Liquid" ==>
        (t.value == (x, y + 1) && CanFall(cy, y)) || t.value == (x + 1, y) || t.value == (x - 1, y)) &&
      (t.Some? && reg[c.symbol].phase == "Gas" ==>
        (t.value == (x, y - 1) && CanRise(cy, y)) || t.value == (x + 1, y) || t.value == (x - 1, y))
  {
  }

  /** A liquid that cannot sink tries the side the draw picks, and a gas
      that cannot rise likewise: the sideways probe happens exactly when the
      vertical move does not. */
  lemma SideOnlyWhenBlocked(m: map<string, Chunk>, cx: int, cy: int, x: int, y: int,
                            reg: Registry, ambient: real, density: real, d: Draw)
    requires AllShaped(m)
    ensures LiquidTarget(m, cx, cy, x, y, reg, ambient, density, d) ==
      if CanFall(cy, y) && LiquidSinksInto(reg, Probe(m, cx, cy, x, y + 1, ambient), density) then Some((x, y + 1))
      else LiquidSideTarget(m, cx, cy, x, y, reg, ambient, d)
    ensures GasTarget(m, cx, cy, x, y, reg, ambient, density, d) ==
      if CanRise(cy, y) && GasRisesInto(reg, Probe(m, cx, cy, x, y - 1, ambient), density) then Some((x, y - 1))
      else GasSideTarget(m, cx, cy, x, y, reg, ambient, density, d)
  {
  }

  // ----- Conservation -----

  /** The cells the movers carry. */
  ghost function Carried(ms: seq<Mover>): multiset<Cell>
    decreases |ms|
  {
    if |ms| == 0 then multiset{} else Carried(ms[..|ms| - 1]) + multiset{ms[|ms| - 1].cell}
  }

  /** n departed-vacuum cells. */
  ghost function Departed(n: nat): multiset<Cell> {
    multiset{}[DEPARTED := n]
  }

  lemma DepartedAdd(a: nat, b: nat)
    ensures Departed(a) + Departed(b) == Departed(a + b)
  {
    forall c ensures (Departed(a) + Departed(b))[c] == Departed(a + b)[c] { }
  }

  /** The balance of the pass: movers are only added, and the successor's
      cells together with the cells handed to movers are the cells it
      started with, plus one departed vacuum for each new mover. */
  ghost predicate Balanced(r: PhysState, s: PhysState) {
    |s.movers| <= |r.movers| &&
    Bag(r.grid) + Carried(r.movers) == Bag(s.grid) + Carried(s.movers) + Departed(|r.movers| - |s.movers|)
  }

  /** A visit that moves nothing keeps the balance trivially. */
  lemma StillBalance(s: PhysState)
    ensures Balanced(s, s)
  {
    assert Departed(0) == multiset{};
  }

  lemma SwapBalance(s: PhysState, y1: int, x1: int, y2: int, x2: int)
    requires Good(s) && InChunk(x1, y1) && InChunk(x2, y2)
    ensures Balanced(s.(grid := Swap(s.grid, y1, x1, y2, x2)), s)
  {
    BagSwap(s.grid, y1, x1, y2, x2);
    assert Departed(0) == multiset{};
  }

  lemma HandOver(m: multiset<Cell>, carried: multiset<Cell>, cell: Cell, left: Cell)
    requires cell in m
    ensures m - multiset{cell} + multiset{left} + (carried + multiset{cell}) == m + carried + multiset{left}
  {
  }

  lemma LeaveBalance(s: PhysState, fromX: int, fromY: int, mv: Mover)
    requires Good(s) && InChunk(fromX, fromY) && mv.cell == s.grid[fromY][fromX]
    ensures Balanced(PhysState(Put(s.grid, fromY, fromX, DEPARTED), s.movers + [mv]), s)
  {
    BagPut(s.grid, fromY, fromX, DEPARTED);
    BagHas(s.grid, fromY, fromX);
    var ms := s.movers + [mv];
    assert ms[..|ms| - 1] == s.movers;
    assert Carried(ms) == Carried(s.movers) + multiset{mv.cell};
    assert Departed(1) == multiset{DEPARTED};
    HandOver(Bag(s.grid), Carried(s.movers), mv.cell, DEPARTED);
  }

  /** A move of the visited cell keeps the balance. */
  lemma MoveBalance(s: PhysState, cx: int, cy: int, fromX: int, fromY: int, toX: int, toY: int, cell: Cell)
    requires Good(s) && InChunk(fromX, fromY) && cell == s.grid[fromY][fromX]
    ensures Balanced(MoveTo(s, cx, cy, fromX, fromY, toX, toY, cell), s)
  {
    if ChunkCoord(toX) == cx && ChunkCoord(toY) == cy {
      var lx, ly := toX - cx * CHUNK_SIZE, toY - cy * CHUNK_SIZE;
      if s.grid[ly][lx].symbol == "VACUUM" {
        SwapBalance(s, fromY, fromX, ly, lx);
      } else {
        StillBalance(s);
      }
    } else {
      LeaveBalance(s, fromX, fromY, Mover(fromX, fromY, toX, toY, cell));
    }
  }

  /** One visit keeps the balance. */
  lemma StepBalance(s: PhysState, m: map<string, Chunk>, cx: int, cy: int, x: int, y: int,
                    reg: Registry, ambient: real, rng: Oracle)
    requires Good(s) && AllShaped(m) && InChunk(x, y)
    ensures Balanced(PhysStep(s, m, cx, cy, x, y, reg, ambient, rng), s)
  {
    var t := PhysTarget(m, cx, cy, x, y, reg, ambient, s.grid[y][x], rng);
    if t.Some? {
      MoveBalance(s, cx, cy, x, y, t.value.0, t.value.1, s.grid[y][x]);
    } else {
      StillBalance(s);
    }
  }

  lemma BalanceTrans(a: PhysState, b: PhysState, c: PhysState)
    requires Balanced(b, a) && Balanced(c, b)
    ensures Balanced(c, a)
  {
    DepartedAdd(|b.movers| - |a.movers|, |c.movers| - |b.movers|);
  }

  /** The whole pass keeps the balance: no cell is created or lost. */
  lemma {:induction false} PassBalance(s0: PhysState, m: map<string, Chunk>, cx: int, cy: int,
                                       reg: Registry, ambient: real, rng: Oracle, r: int, x: int)
    requires Good(s0) && AllShaped(m) && 0 <= r < CHUNK_SIZE && 0 <= x <= CHUNK_SIZE
    ensures Balanced(PhysUpTo(s0, m, cx, cy, reg, ambient, rng, r, x), s0)
    decreases r, x
  {
    if x == 0 {
      if r == 0 {
        StillBalance(s0);
      } else {
        PassBalance(s0, m, cx, cy, reg, ambient, rng, r - 1, CHUNK_SIZE);
      }
    } else {
      var s1 := PhysUpTo(s0, m, cx, cy, reg, ambient, rng, r, x - 1);
      PassBalance(s0, m, cx, cy, reg, ambient, rng, r, x - 1);
      StepBalance(s1, m, cx, cy, x - 1, CHUNK_SIZE - 1 - r, reg, ambient, rng);
      BalanceTrans(s0, s1, PhysUpTo(s0, m, cx, cy, reg, ambient, rng, r, x));
    }
  }

  // ----- The move -----

  /** A move either swaps the visited cell with a vacuum target in the
      successor, changes nothing when that target is occupied, or appends
      one mover carrying the cell to a target that fails the same-chunk
      test and leaves departed vacuum at the source. */
  lemma MoveCases(s: PhysState, cx: int, cy: int, fromX: int, fromY: int, toX: int, toY: int, cell: Cell)
    requires Good(s) && InChunk(fromX, fromY)
    ensures var r := MoveTo(s, cx, cy, fromX, fromY, toX, toY, cell);
      if ChunkCoord(toX) == cx && ChunkCoord(toY) == cy then
        var lx, ly := LocalCoord(toX), LocalCoord(toY);
        r.movers == s.movers &&
        r.grid == (if s.grid[ly][lx].symbol == "VACUUM" then Swap(s.grid, fromY, fromX, ly, lx) else s.grid)
      else
        r.movers == s.movers + [Mover(fromX, fromY, toX, toY, cell)] &&
        r.grid == Put(s.grid, fromY, fromX, DEPARTED)
  {
  }

  /** With the local coordinates the pass hands to the move (within one
      cell of the chunk), every move made in a chunk column more than one
      column away from the origin fails the same-chunk test: it always
      becomes a mover, whose target is again a local coordinate. */
  lemma OffOriginMovesLeave(s: PhysState, cx: int, cy: int, fromX: int, fromY: int, toX: int, toY: int, cell: Cell)
    requires Good(s) && InChunk(fromX, fromY)
    requires -1 <= toX <= CHUNK_SIZE && (cx < -1 || cx > 1)
    ensures MoveTo(s, cx, cy, fromX, fromY, toX, toY, cell).movers == s.movers + [Mover(fromX, fromY, toX, toY, cell)]
  {
  }

  /** Next to the origin the local coordinates wrap around: in chunk
      (1, 0) a move off the right edge passes the same-chunk test and swaps
      with the cell at the left edge of the same row, in chunk (-1, 0) a
      move off the left edge swaps with the right edge, in chunk (0, 1) a
      fall off the bottom row swaps with the top row, and in chunk (0, -1)
      a rise off the top row swaps with the bottom row. */
  lemma NeighbourChunksWrap(s: PhysState, x: int, y: int, cell: Cell)
    requires Good(s) && InChunk(x, y)
    ensures s.grid[y][0].symbol == "VACUUM" ==>
      MoveTo(s, 1, 0, CHUNK_SIZE - 1, y, CHUNK_SIZE, y, cell) == s.(grid := Swap(s.grid, y, CHUNK_SIZE - 1, y, 0))
    ensures s.grid[y][CHUNK_SIZE - 1].symbol == "VACUUM" ==>
      MoveTo(s, -1, 0, 0, y, -1, y, cell) == s.(grid := Swap(s.grid, y, 0, y, CHUNK_SIZE - 1))
    ensures s.grid[0][x].symbol == "VACUUM" ==>
      MoveTo(s, 0, 1, x, CHUNK_SIZE - 1, x, CHUNK_SIZE, cell) == s.(grid := Swap(s.grid, CHUNK_SIZE - 1, x, 0, x))
    ensures s.grid[CHUNK_SIZE - 1][x].symbol == "VACUUM" ==>
      MoveTo(s, 0, -1, x, 0, x, -1, cell) == s.(grid := Swap(s.grid, 0, x, CHUNK_SIZE - 1, x))
  {
    assert ChunkCoord(CHUNK_SIZE) == 1 && ChunkCoord(-1) == -1 && ChunkCoord(y) == 0 && ChunkCoord(x) == 0;
  }

  /** In the origin chunk the local coordinates are world coordinates: a
      move to an in-chunk vacuum cell is a swap. */
  lemma OriginMovesSwap(s: PhysState, fromX: int, fromY: int, toX: int, toY: int, cell: Cell)
    requires Good(s) && InChunk(fromX, fromY) && InChunk(toX, toY)
    requires s.grid[toY][toX].symbol == "VACUUM"
    ensures MoveTo(s, 0, 0, fromX, fromY, toX, toY, cell) == s.(grid := Swap(s.grid, fromY, fromX, toY, toX))
  {
  }

  /** Visiting a cell the pass ignores changes nothing, nor does a visit
      to a solid the fall guard stops. On the local row the guards depend
      only on the chunk row: in chunk rows above 0 (cy < 0) nothing may
      fall and everything may rise, in chunk rows below 0 (cy > 0)
      everything may fall and nothing may rise, and in chunk row 0 a cell
      may fall unless it is in the bottom row and rise unless it is in the
      top row. */
  lemma StillCells(s: PhysState, m: map<string, Chunk>, cx: int, cy: int, x: int, y: int,
                   reg: Registry, ambient: real, rng: Oracle)
    requires Good(s) && AllShaped(m) && InChunk(x, y)
    ensures Inert(reg, s.grid[y][x]) ==> PhysStep(s, m, cx, cy, x, y, reg, ambient, rng) == s
    ensures !Inert(reg, s.grid[y][x]) && reg[s.grid[y][x].symbol].phase == "Solid" && !CanFall(cy, y) ==>
      PhysStep(s, m, cx, cy, x, y, reg, ambient, rng) == s
    ensures cy < 0 ==> !CanFall(cy, y) && CanRise(cy, y)
    ensures cy == 0 ==> (CanFall(cy, y) <==> y < CHUNK_SIZE - 1) && (CanRise(cy, y) <==> y > 0)
    ensures cy > 0 ==> CanFall(cy, y) && !CanRise(cy, y)
  {
  }

  // ----- The pass, in place -----

  /** `getCell` during the pass: the world only grows, and the cell read is
      the one of the world the pass started from. */
  method ProbeCell(w: World, ghost m: map<string, Chunk>, cx: int, cy: int, x: int, y: int, ambient: real) returns (c: Cell)
    requires w.Valid() && Grown(m, w.chunks, ambient)
    modifies w
    ensures w.Valid() && Grown(m, w.chunks, ambient) && w.bodies == old(w.bodies)
    ensures c == Probe(m, cx, cy, x, y, ambient)
  {
    var worldX, worldY := cx * CHUNK_SIZE + x, cy * CHUNK_SIZE + y;
    GrownRead(m, w.chunks, ambient, worldX, worldY);
    GrownMaterialize(m, w.chunks, ChunkCoord(worldX), ChunkCoord(worldY), ambient);
    c := w.GetCell(worldX, worldY, ambient);
  }

  /** `move`, on the successor buffer and the movers list. */
  method MoveCell(next: array2<Cell>, cx: int, cy: int, movers: seq<Mover>,
                  fromX: int, fromY: int, toX: int, toY: int, cell: Cell) returns (out: seq<Mover>)
    requires next.Length0 == CHUNK_SIZE && next.Length1 == CHUNK_SIZE && InChunk(fromX, fromY)
    modifies next
    ensures PhysState(Snap(next), out) == MoveTo(PhysState(old(Snap(next)), movers), cx, cy, fromX, fromY, toX, toY, cell)
  {
    out := movers;
    var toChunkX, toChunkY := ChunkCoord(toX), ChunkCoord(toY);
    if toChunkX == cx && toChunkY == cy {
      if next[toY - cy * CHUNK_SIZE, toX - cx * CHUNK_SIZE].symbol == "VACUUM" {
        Exchange(next, fromY, fromX, toY - cy * CHUNK_SIZE, toX - cx * CHUNK_SIZE);
      }
    } else {
      out := out + [Mover(fromX, fromY, toX, toY, cell)];
      Write(next, fromY, fromX, DEPARTED);
    }
  }

  /** The solid branch: the probe below, and where to move. */
  method SolidAt(w: World, ghost m: map<string, Chunk>, cx: int, cy: int, x: int, y: int,
                 reg: Registry, ambient: real, density: real) returns (t: Option<(int, int)>)
    requires w.Valid() && Grown(m, w.chunks, ambient)
    modifies w
    ensures w.Valid() && Grown(m, w.chunks, ambient) && w.bodies == old(w.bodies)
    ensures t == SolidTarget(m, cx, cy, x, y, reg, ambient, density)
  {
    t := None;
    if CanFall(cy, y) {
      var belowCell := ProbeCell(w, m, cx, cy, x, y + 1, ambient);
      if SolidSinksInto(reg, belowCell, density) {
        t := Some((x, y + 1));
      }
    }
  }

  method LiquidSideAt(w: World, ghost m: map<string, Chunk>, cx: int, cy: int, x: int, y: int,
                      reg: Registry, ambient: real, d: Draw) returns (t: Option<(int, int)>)
    requires w.Valid() && Grown(m, w.chunks, ambient)
    modifies w
    ensures w.Valid() && Grown(m, w.chunks, ambient) && w.bodies == old(w.bodies)
    ensures t == LiquidSideTarget(m, cx, cy, x, y, reg, ambient, d)
  {
    t := None;
    var dir := Dir(d);
    var sideCell := ProbeCell(w, m, cx, cy, x + dir, y, ambient);
    if LiquidFlowsInto(reg, sideCell) {
      t := Some((x + dir, y));
    }
  }

  /** The liquid branch: the probe below, else the sideways attempt. */
  method LiquidAt(w: World, ghost m: map<string, Chunk>, cx: int, cy: int, x: int, y: int,
                  reg: Registry, ambient: real, density: real, d: Draw) returns (t: Option<(int, int)>)
    requires w.Valid() && Grown(m, w.chunks, ambient)
    modifies w
    ensures w.Valid() && Grown(m, w.chunks, ambient) && w.bodies == old(w.bodies)
    ensures t == LiquidTarget(m, cx, cy, x, y, reg, ambient, density, d)
  {
    if CanFall(cy, y) {
      var belowCell := ProbeCell(w, m, cx, cy, x, y + 1, ambient);
      if LiquidSinksInto(reg, belowCell, density) {
        return Some((x, y + 1));
      }
    }
    t := LiquidSideAt(w, m, cx, cy, x, y, reg, ambient, d);
  }

  method GasSideAt(w: World, ghost m: map<string, Chunk>, cx: int, cy: int, x: int, y: int,
                   reg: Registry, ambient: real, density: real, d: Draw) returns (t: Option<(int, int)>)
    requires w.Valid() && Grown(m, w.chunks, ambient)
    modifies w
    ensures w.Valid() && Grown(m, w.chunks, ambient) && w.bodies == old(w.bodies)
    ensures t == GasSideTarget(m, cx, cy, x, y, reg, ambient, density, d)
  {
    t := None;
    var dir := Dir(d);
    var sideCell := ProbeCell(w, m, cx, cy, x + dir, y, ambient);
    if GasDriftsInto(reg, sideCell, density) {
      t := Some((x + dir, y));
    }
  }

  /** The gas branch: the probe above, else the sideways attempt. */
  method GasAt(w: World, ghost m: map<string, Chunk>, cx: int, cy: int, x: int, y: int,
               reg: Registry, ambient: real, density: real, d: Draw) returns (t: Option<(int, int)>)
    requires w.Valid() && Grown(m, w.chunks, ambient)
    modifies w
    ensures w.Valid() && Grown(m, w.chunks, ambient) && w.bodies == old(w.bodies)
    ensures t == GasTarget(m, cx, cy, x, y, reg, ambient, density, d)
  {
    if CanRise(cy, y) {
      var aboveCell := ProbeCell(w, m, cx, cy, x, y - 1, ambient);
      if GasRisesInto(reg, aboveCell, density) {
        return Some((x, y - 1));
      }
    }
    t := GasSideAt(w, m, cx, cy, x, y, reg, ambient, density, d);
  }

  /** One visit: the branch on the phase, then the move it picked. */
  method PhysAt(w: World, ghost m: map<string, Chunk>, next: array2<Cell>, cx: int, cy: int, movers: seq<Mover>,
                x: int, y: int, reg: Registry, ambient: real, rng: Oracle) returns (out: seq<Mover>)
    requires w.Valid() && Grown(m, w.chunks, ambient)
    requires next.Length0 == CHUNK_SIZE && next.Length1 == CHUNK_SIZE && InChunk(x, y)
    modifies w, next
    ensures w.Valid() && Grown(m, w.chunks, ambient) && w.bodies == old(w.bodies)
    ensures PhysState(Snap(next), out) == PhysStep(PhysState(old(Snap(next)), movers), m, cx, cy, x, y, reg, ambient, rng)
  {
    out := movers;
    var currentCell := next[y, x];
    if Inert(reg, currentCell) {
      return;
    }
    var currentElement := reg[currentCell.symbol];
    var density := OrReal(currentElement.density, 1.0);
    var phase := currentElement.phase;
    var t: Option<(int, int)> := None;
    if phase == "Solid" {
      t := SolidAt(w, m, cx, cy, x, y, reg, ambient, density);
    } else if phase == "Liquid" {
      t := LiquidAt(w, m, cx, cy, x, y, reg, ambient, density, rng(x, y, 0));
    } else if phase == "Gas" {
      t := GasAt(w, m, cx, cy, x, y, reg, ambient, density, rng(x, y, 0));
    }
    if t.Some? {
      out := MoveCell(next, cx, cy, out, x, y, t.value.0, t.value.1, currentCell);
    }
  }

  /** The physics loop of chunk (cx, cy) against the world m it started
      from; `movers` is the list so far and `out` the list after the pass. */
  method ApplyPhysics(w: World, ghost m: map<string, Chunk>, next: array2<Cell>, cx: int, cy: int, movers: seq<Mover>,
                      reg: Registry, ambient: real, rng: Oracle) returns (out: seq<Mover>)
    requires w.Valid() && Grown(m, w.chunks, ambient)
    requires next.Length0 == CHUNK_SIZE && next.Length1 == CHUNK_SIZE
    modifies w, next
    ensures w.Valid() && Grown(m, w.chunks, ambient) && w.bodies == old(w.bodies)
    ensures PhysState(Snap(next), out) == PhysGrid(PhysState(old(Snap(next)), movers), m, cx, cy, reg, ambient, rng)
  {
    ghost var s0 := PhysState(Snap(next), movers);
    out := movers;
    for r := 0 to CHUNK_SIZE
      invariant w.Valid() && Grown(m, w.chunks, ambient) && w.bodies == old(w.bodies)
      invariant PhysState(Snap(next), out) == if r == 0 then s0 else PhysUpTo(s0, m, cx, cy, reg, ambient, rng, r - 1, CHUNK_SIZE)
    {
      var y := CHUNK_SIZE - 1 - r;
      for x := 0 to CHUNK_SIZE
        invariant w.Valid() && Grown(m, w.chunks, ambient) && w.bodies == old(w.bodies)
        invariant PhysState(Snap(next), out) == PhysUpTo(s0, m, cx, cy, reg, ambient, rng, r, x)
      {
        out := PhysAt(w, m, next, cx, cy, out, x, y, reg, ambient, rng);
      }
    }
  }
}
