/** `applyTemperatureDiffusion` (js/engine.js): each known cell relaxes
    towards the mean temperature of itself and its in-chunk neighbours in the
    pre-tick chunk; heat and cold sources and suns are pinned to their
    nominal temperature. Every write depends only on the pre-tick chunk, so
    the pass is specified cell by cell. */
module Diffusion {
  import opened Common
  import opened Grids
  import opened World
  import opened Elements
  import opened Neighbourhood

  function SumTemps(g: Grid, ps: seq<(int, int)>): real
    requires ChunkGrid(g)
    requires forall i :: 0 <= i < |ps| ==> InChunk(ps[i].0, ps[i].1)
    decreases |ps|
  {
    if |ps| == 0 then 0.0
    else
      var p := ps[|ps| - 1];
      assert InChunk(p.0, p.1);
      SumTemps(g, ps[..|ps| - 1]) + g[p.1][p.0].temperature
  }

  /** `diffusionFactor`. */
  function Factor(e: Element): real {
    if e.conductive then 0.9 else 0.5
  }

  /** `cell.temperature + (tempSum / count - cell.temperature) * diffusionFactor`. */
  function Diffused(chunk: Grid, x: int, y: int, e: Element): real
    requires ChunkGrid(chunk) && InChunk(x, y)
  {
    var t := chunk[y][x].temperature;
    var ns := Neighbours(x, y);
    Relax(t, (t + SumTemps(chunk, ns)) / ((1 + |ns|) as real), Factor(e))
  }

  /** `t + (mean - t) * f`. */
  function Relax(t: real, mean: real, f: real): real {
    t + (mean - t) * f
  }

  predicate Pinned(e: Element) {
    e.symbol == "HEAT" || e.symbol == "COLD" || e.isSun
  }

  /** The successor cell c at (x, y) after the pass. */
  function DiffuseCell(chunk: Grid, c: Cell, x: int, y: int, reg: Registry): Cell
    requires ChunkGrid(chunk) && InChunk(x, y) && HasTemperatures(reg)
  {
    var s := chunk[y][x].symbol;
    if s !in reg then c
    else if Pinned(reg[s]) then c.(temperature := Nominal(reg[s]))
    else c.(temperature := Diffused(chunk, x, y, reg[s]))
  }

  function DiffuseGrid(chunk: Grid, g: Grid, reg: Registry): Grid
    requires ChunkGrid(chunk) && ChunkGrid(g) && HasTemperatures(reg)
  {
    seq(CHUNK_SIZE, y requires 0 <= y < CHUNK_SIZE =>
      seq(CHUNK_SIZE, x requires 0 <= x < CHUNK_SIZE => DiffuseCell(chunk, g[y][x], x, y, reg)))
  }

  lemma DiffuseGridAt(chunk: Grid, g: Grid, reg: Registry)
    requires ChunkGrid(chunk) && ChunkGrid(g) && HasTemperatures(reg)
    ensures ChunkGrid(DiffuseGrid(chunk, g, reg))
    ensures forall y, x :: InChunk(x, y) ==> DiffuseGrid(chunk, g, reg)[y][x] == DiffuseCell(chunk, g[y][x], x, y, reg)
  {
  }

  /** The pass writes only temperatures: symbols and lifespans stay. */
  lemma DiffusionKeepsSymbols(chunk: Grid, g: Grid, reg: Registry)
    requires ChunkGrid(chunk) && ChunkGrid(g) && HasTemperatures(reg)
    ensures forall y, x :: InChunk(x, y) ==>
      DiffuseGrid(chunk, g, reg)[y][x].symbol == g[y][x].symbol &&
      DiffuseGrid(chunk, g, reg)[y][x].lifespan == g[y][x].lifespan
  {
  }

  lemma {:induction false} SumBounds(g: Grid, ps: seq<(int, int)>, lo: real, hi: real)
    requires ChunkGrid(g)
    requires forall i :: 0 <= i < |ps| ==>
      InChunk(ps[i].0, ps[i].1) && lo <= g[ps[i].1][ps[i].0].temperature <= hi
    ensures (|ps| as real) * lo <= SumTemps(g, ps) <= (|ps| as real) * hi
    decreases |ps|
  {
    if |ps| > 0 {
      SumBounds(g, ps[..|ps| - 1], lo, hi);
    }
  }

  /** The mean of a value in [lo, hi] and k more whose sum lies in
      [k lo, k hi] lies in [lo, hi]. */
  lemma MeanBetween(t: real, sum: real, k: nat, lo: real, hi: real)
    requires lo <= t <= hi
    requires (k as real) * lo <= sum <= (k as real) * hi
    ensures lo <= (t + sum) / ((1 + k) as real) <= hi
  {
    var n := (1 + k) as real;
    assert n * lo <= t + sum <= n * hi;
  }

  /** The new temperature lies between any bounds on the temperatures it
      averages: in particular between their minimum and maximum. */
  lemma DiffusedBetween(chunk: Grid, x: int, y: int, e: Element, lo: real, hi: real)
    requires ChunkGrid(chunk) && InChunk(x, y)
    requires lo <= chunk[y][x].temperature <= hi
    requires forall p :: p in Neighbours(x, y) ==> lo <= chunk[p.1][p.0].temperature <= hi
    ensures lo <= Diffused(chunk, x, y, e) <= hi
  {
    var t := chunk[y][x].temperature;
    var ns := Neighbours(x, y);
    assert forall i :: 0 <= i < |ns| ==> ns[i] in ns;
    SumBounds(chunk, ns, lo, hi);
    MeanBetween(t, SumTemps(chunk, ns), |ns|, lo, hi);
    RelaxBetween(t, (t + SumTemps(chunk, ns)) / ((1 + |ns|) as real), Factor(e), lo, hi);
  }

  lemma RelaxBetween(t: real, mean: real, f: real, lo: real, hi: real)
    requires lo <= t <= hi && lo <= mean <= hi && (f == 0.5 || f == 0.9)
    ensures lo <= Relax(t, mean, f) <= hi
  {
  }

  /** Sources and suns take exactly their nominal temperature; every other
      known cell takes the diffused one; unknown symbols are skipped. */
  lemma DiffusionCases(chunk: Grid, g: Grid, reg: Registry, x: int, y: int)
    requires ChunkGrid(chunk) && ChunkGrid(g) && HasTemperatures(reg) && InChunk(x, y)
    ensures var s := chunk[y][x].symbol; var r := DiffuseGrid(chunk, g, reg)[y][x];
      (s !in reg ==> r == g[y][x]) &&
      (s in reg && Pinned(reg[s]) ==> r.temperature == Nominal(reg[s])) &&
      (s in reg && !Pinned(reg[s]) ==> r.temperature == Diffused(chunk, x, y, reg[s]))
  {
  }

  /** The neighbour sum of one cell, accumulated as the scan does. */
  method DiffusedAt(chunk: Grid, x: int, y: int, e: Element) returns (t: real)
    requires ChunkGrid(chunk) && InChunk(x, y)
    ensures t == Diffused(chunk, x, y, e)
  {
    var cell := chunk[y][x];
    var tempSum := cell.temperature;
    var count := 1;
    for i := 0 to |OFFSETS|
      invariant tempSum == cell.temperature + SumTemps(chunk, NeighboursUpTo(x, y, i))
      invariant count == 1 + |NeighboursUpTo(x, y, i)|
    {
      var nx, ny := x + OFFSETS[i].0, y + OFFSETS[i].1;
      if InChunk(nx, ny) {
        ghost var ps := NeighboursUpTo(x, y, i) + [(nx, ny)];
        assert ps[..|ps| - 1] == NeighboursUpTo(x, y, i);
        tempSum := tempSum + chunk[ny][nx].temperature;
        count := count + 1;
      }
    }
    assert NeighboursUpTo(x, y, |OFFSETS|) == Neighbours(x, y);
    t := Relax(cell.temperature, tempSum / (count as real), Factor(e));
  }

  /** The diffusion loop, writing temperatures into the successor buffer. */
  method ApplyTemperatureDiffusion(chunk: Grid, next: array2<Cell>, reg: Registry)
    requires ChunkGrid(chunk) && next.Length0 == CHUNK_SIZE && next.Length1 == CHUNK_SIZE
    requires HasTemperatures(reg)
    modifies next
    ensures Snap(next) == DiffuseGrid(chunk, old(Snap(next)), reg)
  {
    ghost var g0 := Snap(next);
    for y := 0 to CHUNK_SIZE
      invariant forall i, j :: 0 <= i < y && 0 <= j < CHUNK_SIZE ==> next[i, j] == DiffuseCell(chunk, g0[i][j], j, i, reg)
      invariant forall i, j :: y <= i < CHUNK_SIZE && 0 <= j < CHUNK_SIZE ==> next[i, j] == g0[i][j]
    {
      for x := 0 to CHUNK_SIZE
        invariant forall i, j :: 0 <= i < y && 0 <= j < CHUNK_SIZE ==> next[i, j] == DiffuseCell(chunk, g0[i][j], j, i, reg)
        invariant forall j :: 0 <= j < x ==> next[y, j] == DiffuseCell(chunk, g0[y][j], j, y, reg)
        invariant forall i, j :: 0 <= i < CHUNK_SIZE && 0 <= j < CHUNK_SIZE && (i > y || (i == y && j >= x)) ==> next[i, j] == g0[i][j]
      {
        var cell := chunk[y][x];
        if cell.symbol !in reg {
          continue;
        }
        var element := reg[cell.symbol];
        if Pinned(element) {
          next[y, x] := next[y, x].(temperature := Nominal(element));
          continue;
        }
        var t := DiffusedAt(chunk, x, y, element);
        next[y, x] := next[y, x].(temperature := t);
      }
    }
    DiffuseGridAt(chunk, g0, reg);
    SnapEq(Snap(next), DiffuseGrid(chunk, g0, reg), CHUNK_SIZE, CHUNK_SIZE);
  }
}
