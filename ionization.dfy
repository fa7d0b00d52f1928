/** `applyIonization` (js/engine.js): a hot hydrogen cell of the pre-tick
    chunk, on a successful draw, turns into `Hplus` in the successor and
    releases an `eminus` into one of its vacuum neighbours there. The
    vacancy test reads the successor as the scan leaves it, so the pass is
    specified as a fold over the cells in scan order. */
module Ionization {
  import opened Common
  import opened Grids
  import opened World
  import opened Neighbourhood

  /** The in-chunk neighbours among the first n offsets that are VACUUM in g. */
  function VacantUpTo(g: Grid, x: int, y: int, n: nat): (ps: seq<(int, int)>)
    requires ChunkGrid(g) && n <= |OFFSETS|
    ensures forall i :: 0 <= i < |ps| ==>
      InChunk(ps[i].0, ps[i].1) && Adjacent(x, y, ps[i]) && g[ps[i].1][ps[i].0].symbol == "VACUUM"
  {
    if n == 0 then []
    else
      var ps := VacantUpTo(g, x, y, n - 1);
      var nx, ny := x + OFFSETS[n - 1].0, y + OFFSETS[n - 1].1;
      if InChunk(nx, ny) && g[ny][nx].symbol == "VACUUM" then ps + [(nx, ny)] else ps
  }

  function Vacant(g: Grid, x: int, y: int): seq<(int, int)>
    requires ChunkGrid(g)
  {
    VacantUpTo(g, x, y, |OFFSETS|)
  }

  /** `Math.floor(Math.random() * n)`: an index below n. */
  function Pick(d: Draw, n: nat): (i: nat)
    requires n > 0
    ensures i < n
  {
    assert d * (n as real) < n as real by {
      assert (1.0 - d) * (n as real) > 0.0;
    }
    Floor(d * (n as real))
  }

  predicate Ionizes(c: Cell, d: Draw) {
    c.symbol == "H" && c.temperature > 15000.0 && d < 0.5
  }

  /** The visit of cell (x, y). */
  function IonizeStep(chunk: Grid, g: Grid, x: int, y: int, rng: Oracle): (r: Grid)
    requires ChunkGrid(chunk) && ChunkGrid(g) && InChunk(x, y)
    ensures ChunkGrid(r)
  {
    var c := chunk[y][x];
    var vs := Vacant(g, x, y);
    if Ionizes(c, rng(x, y, 0)) && |vs| > 0 then
      var p := vs[Pick(rng(x, y, 1), |vs|)];
      var g1 := Put(g, y, x, g[y][x].(symbol := "Hplus"));
      PutShape(g, y, x, g[y][x].(symbol := "Hplus"), CHUNK_SIZE, CHUNK_SIZE);
      PutShape(g1, p.1, p.0, g1[p.1][p.0].(symbol := "eminus", temperature := c.temperature), CHUNK_SIZE, CHUNK_SIZE);
      Put(g1, p.1, p.0, g1[p.1][p.0].(symbol := "eminus", temperature := c.temperature))
    else g
  }

  /** The successor after the cells before (x, y) in scan order (rows of y'
      below y, then x' below x in row y) have been visited. */
  function IonizeUpTo(chunk: Grid, g0: Grid, rng: Oracle, y: int, x: int): (r: Grid)
    requires ChunkGrid(chunk) && ChunkGrid(g0)
    requires 0 <= y < CHUNK_SIZE && 0 <= x <= CHUNK_SIZE
    ensures ChunkGrid(r)
    decreases y, x
  {
    if x == 0 then (if y == 0 then g0 else IonizeUpTo(chunk, g0, rng, y - 1, CHUNK_SIZE))
    else IonizeStep(chunk, IonizeUpTo(chunk, g0, rng, y, x - 1), x - 1, y, rng)
  }

  /** The successor after the whole pass. */
  function IonizeGrid(chunk: Grid, g0: Grid, rng: Oracle): Grid
    requires ChunkGrid(chunk) && ChunkGrid(g0)
  {
    IonizeUpTo(chunk, g0, rng, CHUNK_SIZE - 1, CHUNK_SIZE)
  }

  /** A visit changes nothing unless the pre-tick cell is hydrogen above
      15000 degrees, the draw is below 0.5 and some neighbour is vacuum in
      the successor; then the centre becomes `Hplus`, exactly one vacuum
      neighbour becomes `eminus` at the hydrogen's temperature, and no
      other cell changes. */
  lemma IonizeStepEffect(chunk: Grid, g: Grid, x: int, y: int, rng: Oracle)
    requires ChunkGrid(chunk) && ChunkGrid(g) && InChunk(x, y)
    ensures var c := chunk[y][x]; var r := IonizeStep(chunk, g, x, y, rng); var vs := Vacant(g, x, y);
      if Ionizes(c, rng(x, y, 0)) && |vs| > 0 then
        var p := vs[Pick(rng(x, y, 1), |vs|)];
        InChunk(p.0, p.1) && Adjacent(x, y, p) && g[p.1][p.0].symbol == "VACUUM" &&
        r[y][x] == g[y][x].(symbol := "Hplus") &&
        r[p.1][p.0] == g[p.1][p.0].(symbol := "eminus", temperature := c.temperature) &&
        forall i, j :: InChunk(j, i) && (j, i) != (x, y) && (j, i) != p ==> r[i][j] == g[i][j]
      else r == g
  {
    var c := chunk[y][x];
    var vs := Vacant(g, x, y);
    if Ionizes(c, rng(x, y, 0)) && |vs| > 0 {
      var p: (int, int) := vs[Pick(rng(x, y, 1), |vs|)];
      var g1: Grid := Put(g, y, x, g[y][x].(symbol := "Hplus"));
      PutShape(g, y, x, g[y][x].(symbol := "Hplus"), CHUNK_SIZE, CHUNK_SIZE);
      PutShape(g1, p.1, p.0, g1[p.1][p.0].(symbol := "eminus", temperature := c.temperature), CHUNK_SIZE, CHUNK_SIZE);
    }
  }

  /** The collection of the vacuum neighbours in the successor buffer. */
  method VacantNeighbors(next: array2<Cell>, x: int, y: int) returns (neighbors: seq<(int, int)>)
    requires next.Length0 == CHUNK_SIZE && next.Length1 == CHUNK_SIZE
    ensures neighbors == Vacant(Snap(next), x, y)
  {
    ghost var g := Snap(next);
    neighbors := [];
    for i := 0 to |OFFSETS|
      invariant neighbors == VacantUpTo(g, x, y, i)
    {
      var nx, ny := x + OFFSETS[i].0, y + OFFSETS[i].1;
      if InChunk(nx, ny) && next[ny, nx].symbol == "VACUUM" {
        neighbors := neighbors + [(nx, ny)];
      }
    }
  }

  /** One visit, done in place on the successor buffer. */
  method IonizeAt(chunk: Grid, next: array2<Cell>, x: int, y: int, rng: Oracle)
    requires ChunkGrid(chunk) && next.Length0 == CHUNK_SIZE && next.Length1 == CHUNK_SIZE && InChunk(x, y)
    modifies next
    ensures Snap(next) == IonizeStep(chunk, old(Snap(next)), x, y, rng)
  {
    var cell := chunk[y][x];
    if !Ionizes(cell, rng(x, y, 0)) {
      return;
    }
    var neighbors := VacantNeighbors(next, x, y);
    if |neighbors| > 0 {
      var electronCell := neighbors[Pick(rng(x, y, 1), |neighbors|)];
      Write(next, y, x, next[y, x].(symbol := "Hplus"));
      Write(next, electronCell.1, electronCell.0,
            next[electronCell.1, electronCell.0].(symbol := "eminus", temperature := cell.temperature));
    }
  }

  /** The ionization loop. */
  method ApplyIonization(chunk: Grid, next: array2<Cell>, rng: Oracle)
    requires ChunkGrid(chunk) && next.Length0 == CHUNK_SIZE && next.Length1 == CHUNK_SIZE
    modifies next
    ensures Snap(next) == IonizeGrid(chunk, old(Snap(next)), rng)
  {
    ghost var g0 := Snap(next);
    for y := 0 to CHUNK_SIZE
      invariant Snap(next) == if y == 0 then g0 else IonizeUpTo(chunk, g0, rng, y - 1, CHUNK_SIZE)
    {
      for x := 0 to CHUNK_SIZE
        invariant Snap(next) == IonizeUpTo(chunk, g0, rng, y, x)
      {
        IonizeAt(chunk, next, x, y, rng);
      }
    }
  }
}
