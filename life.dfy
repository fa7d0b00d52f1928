/** `applyLifeAndDecay` (js/engine.js): every cell whose pre-tick element is
    alive may, on a draw below 0.1, seed `LIFE` into a randomly chosen
    neighbour that is vacuum in the successor, and then ages by one tick,
    dying when its lifespan runs out. A missing lifespan on both the cell
    and its element gives `NaN` in the source, which neither dies nor
    counts down; it is modelled as `None`. */
module LifeAndDecay {
  import opened Common
  import opened Grids
  import opened World
  import opened Elements
  import opened Neighbourhood

  /** `Math.floor(Math.random() * 3) - 1`. */
  function Offset(d: Draw): (o: int)
    ensures -1 <= o <= 1
  {
    Floor(d * 3.0) - 1
  }

  /** The spawn: LIFE with the parent element's lifespan, only into an
      in-chunk neighbour that is vacuum now. */
  function SpawnInto(g: Grid, x: int, y: int, dx: int, dy: int, lifespan: Option<int>): (r: Grid)
    requires ChunkGrid(g)
    ensures ChunkGrid(r)
  {
    var nx, ny := x + dx, y + dy;
    if (dx != 0 || dy != 0) && InChunk(nx, ny) && g[ny][nx].symbol == "VACUUM" then
      PutShape(g, ny, nx, g[ny][nx].(symbol := "LIFE", lifespan := lifespan), CHUNK_SIZE, CHUNK_SIZE);
      Put(g, ny, nx, g[ny][nx].(symbol := "LIFE", lifespan := lifespan))
    else g
  }

  /** `(cell.lifespan || element.lifespan) - 1`, `None` standing for NaN. */
  function Aged(c: Cell, e: Element): Option<int> {
    var l := OrInt(c.lifespan, e.lifespan);
    if l.Some? then Some(l.value - 1) else None
  }

  predicate Dies(aged: Option<int>) {
    aged.Some? && aged.value <= 0
  }

  predicate Alive(reg: Registry, s: string) {
    s in reg && reg[s].isLife
  }

  /** The visit of cell (x, y). */
  function LifeStep(chunk: Grid, g: Grid, x: int, y: int, reg: Registry, rng: Oracle): (r: Grid)
    requires ChunkGrid(chunk) && ChunkGrid(g) && InChunk(x, y)
    ensures ChunkGrid(r)
  {
    var c := chunk[y][x];
    if Alive(reg, c.symbol) then
      var e := reg[c.symbol];
      var g1 := if rng(x, y, 0) < 0.1 then SpawnInto(g, x, y, Offset(rng(x, y, 1)), Offset(rng(x, y, 2)), e.lifespan) else g;
      var aged := Aged(c, e);
      var v := if Dies(aged) then g1[y][x].(symbol := "DEAD") else g1[y][x].(lifespan := aged);
      PutShape(g1, y, x, v, CHUNK_SIZE, CHUNK_SIZE);
      Put(g1, y, x, v)
    else g
  }

  function LifeUpTo(chunk: Grid, g0: Grid, reg: Registry, rng: Oracle, y: int, x: int): (r: Grid)
    requires ChunkGrid(chunk) && ChunkGrid(g0)
    requires 0 <= y < CHUNK_SIZE && 0 <= x <= CHUNK_SIZE
    ensures ChunkGrid(r)
    decreases y, x
  {
    if x == 0 then (if y == 0 then g0 else LifeUpTo(chunk, g0, reg, rng, y - 1, CHUNK_SIZE))
    else LifeStep(chunk, LifeUpTo(chunk, g0, reg, rng, y, x - 1), x - 1, y, reg, rng)
  }

  function LifeGrid(chunk: Grid, g0: Grid, reg: Registry, rng: Oracle): Grid
    requires ChunkGrid(chunk) && ChunkGrid(g0)
  {
    LifeUpTo(chunk, g0, reg, rng, CHUNK_SIZE - 1, CHUNK_SIZE)
  }

  /** A visit of a cell that is not alive in the pre-tick chunk changes
      nothing. For a living one: the cell itself dies (becomes DEAD) when
      its aged lifespan is at most 0 and otherwise takes the aged lifespan;
      at most one other cell changes: on a first draw below 0.1, the cell
      the two offset draws pick, when it is an in-chunk neighbour (never
      the cell itself) that was VACUUM, and it becomes LIFE with the
      element's lifespan. */
  lemma LifeStepEffect(chunk: Grid, g: Grid, x: int, y: int, reg: Registry, rng: Oracle)
    requires ChunkGrid(chunk) && ChunkGrid(g) && InChunk(x, y)
    ensures var c := chunk[y][x]; var r := LifeStep(chunk, g, x, y, reg, rng);
      if !Alive(reg, c.symbol) then r == g
      else
        var e := reg[c.symbol];
        var aged := Aged(c, e);
        r[y][x] == (if Dies(aged) then g[y][x].(symbol := "DEAD") else g[y][x].(lifespan := aged)) &&
        forall i, j :: InChunk(j, i) && (i != y || j != x) && r[i][j] != g[i][j] ==>
          rng(x, y, 0) < 0.1 && (j, i) == (x + Offset(rng(x, y, 1)), y + Offset(rng(x, y, 2))) &&
          Adjacent(x, y, (j, i)) && g[i][j].symbol == "VACUUM" &&
          r[i][j] == g[i][j].(symbol := "LIFE", lifespan := e.lifespan)
  {
    var c := chunk[y][x];
    if Alive(reg, c.symbol) {
      var e := reg[c.symbol];
      var dx, dy := Offset(rng(x, y, 1)), Offset(rng(x, y, 2));
      var s := SpawnInto(g, x, y, dx, dy, e.lifespan);
      if (dx != 0 || dy != 0) && InChunk(x + dx, y + dy) && g[y + dy][x + dx].symbol == "VACUUM" {
        PutShape(g, y + dy, x + dx, g[y + dy][x + dx].(symbol := "LIFE", lifespan := e.lifespan), CHUNK_SIZE, CHUNK_SIZE);
      }
      var g1 := if rng(x, y, 0) < 0.1 then s else g;
      assert g1[y][x] == g[y][x];
      var aged := Aged(c, e);
      var v := if Dies(aged) then g1[y][x].(symbol := "DEAD") else g1[y][x].(lifespan := aged);
      PutShape(g1, y, x, v, CHUNK_SIZE, CHUNK_SIZE);
    }
  }

  /** Ageing counts down exactly by one from the carried lifespan, or from
      the element's when the cell carries none (or 0); 0 is where it dies. */
  lemma AgingCountsDown(c: Cell, e: Element)
    requires e.lifespan.Some? && e.lifespan.value > 0
    ensures Aged(c, e).Some?
    ensures c.lifespan.Some? && c.lifespan.value != 0 ==> Aged(c, e) == Some(c.lifespan.value - 1)
    ensures c.lifespan.None? || c.lifespan.value == 0 ==> Aged(c, e) == Some(e.lifespan.value - 1)
    ensures Dies(Aged(c, e)) <==> OrInt(c.lifespan, e.lifespan).value <= 1
  {
  }

  /** The spawn, in place. */
  method SpawnAt(next: array2<Cell>, x: int, y: int, dx: int, dy: int, lifespan: Option<int>)
    requires next.Length0 == CHUNK_SIZE && next.Length1 == CHUNK_SIZE
    modifies next
    ensures Snap(next) == SpawnInto(old(Snap(next)), x, y, dx, dy, lifespan)
  {
    if dx != 0 || dy != 0 {
      var nx, ny := x + dx, y + dy;
      if InChunk(nx, ny) && next[ny, nx].symbol == "VACUUM" {
        Write(next, ny, nx, next[ny, nx].(symbol := "LIFE", lifespan := lifespan));
      }
    }
  }

  /** One visit, in place. */
  method LifeAt(chunk: Grid, next: array2<Cell>, x: int, y: int, reg: Registry, rng: Oracle)
    requires ChunkGrid(chunk) && next.Length0 == CHUNK_SIZE && next.Length1 == CHUNK_SIZE && InChunk(x, y)
    modifies next
    ensures Snap(next) == LifeStep(chunk, old(Snap(next)), x, y, reg, rng)
  {
    var cell := chunk[y][x];
    if !Alive(reg, cell.symbol) {
      return;
    }
    var element := reg[cell.symbol];
    if rng(x, y, 0) < 0.1 {
      var dx := Offset(rng(x, y, 1));
      var dy := Offset(rng(x, y, 2));
      SpawnAt(next, x, y, dx, dy, element.lifespan);
    }
    var newLifespan := Aged(cell, element);
    if Dies(newLifespan) {
      Write(next, y, x, next[y, x].(symbol := "DEAD"));
    } else {
      Write(next, y, x, next[y, x].(lifespan := newLifespan));
    }
  }

  /** The life-and-decay loop. */
  method ApplyLifeAndDecay(chunk: Grid, next: array2<Cell>, reg: Registry, rng: Oracle)
    requires ChunkGrid(chunk) && next.Length0 == CHUNK_SIZE && next.Length1 == CHUNK_SIZE
    modifies next
    ensures Snap(next) == LifeGrid(chunk, old(Snap(next)), reg, rng)
  {
    ghost var g0 := Snap(next);
    for y := 0 to CHUNK_SIZE
      invariant Snap(next) == if y == 0 then g0 else LifeUpTo(chunk, g0, reg, rng, y - 1, CHUNK_SIZE)
    {
      for x := 0 to CHUNK_SIZE
        invariant Snap(next) == LifeUpTo(chunk, g0, reg, rng, y, x)
      {
        LifeAt(chunk, next, x, y, reg, rng);
      }
    }
  }
}
