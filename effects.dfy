/** `applyTemperatureEffects` (js/engine.js): sources are re-pinned, cells
    whose pre-tick symbol is a source are nudged towards it, and water, ice
    and steam change phase at 0 and 100 degrees. Each write reads only the
    cell itself in both buffers, so the pass is specified cell by cell. */
module TemperatureEffects {
  import opened Common
  import opened Grids
  import opened World
  import opened Elements
  import opened Neighbourhood
  import opened Diffusion

  predicate IsSource(s: string) {
    s == "HEAT" || s == "COLD"
  }

  /** The if-else chain of phase transitions, on the element's symbol. */
  function Transition(s: string, c: Cell): Cell {
    if s == "H2O" && c.temperature < 0.0 then c.(symbol := "ICE")
    else if s == "ICE" && c.temperature > 0.0 then c.(symbol := "H2O")
    else if s == "H2O" && c.temperature > 100.0 then c.(symbol := "STEAM")
    else if s == "STEAM" && c.temperature < 100.0 then c.(symbol := "H2O")
    else c
  }

  /** The successor cell c after the pass, orig being the pre-tick cell at
      the same place. */
  function EffectCell(orig: Cell, c: Cell, reg: Registry): Cell
    requires HasTemperatures(reg)
  {
    if c.symbol !in reg then c
    else
      var e := reg[c.symbol];
      if IsSource(c.symbol) then c.(temperature := Nominal(e))
      else
        var c1 := if IsSource(orig.symbol) && orig.symbol in reg
          then c.(temperature := c.temperature + (Nominal(reg[orig.symbol]) - c.temperature) * 0.5)
          else c;
        Transition(e.symbol, c1)
  }

  function EffectsGrid(chunk: Grid, g: Grid, reg: Registry): Grid
    requires ChunkGrid(chunk) && ChunkGrid(g) && HasTemperatures(reg)
  {
    seq(CHUNK_SIZE, y requires 0 <= y < CHUNK_SIZE =>
      seq(CHUNK_SIZE, x requires 0 <= x < CHUNK_SIZE => EffectCell(chunk[y][x], g[y][x], reg)))
  }

  lemma EffectsGridAt(chunk: Grid, g: Grid, reg: Registry)
    requires ChunkGrid(chunk) && ChunkGrid(g) && HasTemperatures(reg)
    ensures ChunkGrid(EffectsGrid(chunk, g, reg))
    ensures forall y, x :: InChunk(x, y) ==> EffectsGrid(chunk, g, reg)[y][x] == EffectCell(chunk[y][x], g[y][x], reg)
  {
  }

  /** When the successor cell still has its pre-tick symbol the nudge cannot
      happen: a source symbol is caught by the re-pinning branch first. The
      only temperature the pass writes is a source's nominal one. */
  lemma NudgeUnreachable(orig: Cell, c: Cell, reg: Registry)
    requires HasTemperatures(reg)
    requires c.symbol == orig.symbol
    ensures EffectCell(orig, c, reg).temperature ==
      if c.symbol in reg && IsSource(c.symbol) then Nominal(reg[c.symbol]) else c.temperature
    ensures EffectCell(orig, c, reg).lifespan == c.lifespan
  {
  }

  /** Run in the engine's order, after diffusion on a copy of the chunk (so
      every successor symbol still equals the pre-tick one), the pass never
      nudges. */
  lemma NoNudgeAfterDiffusion(chunk: Grid, reg: Registry, y: int, x: int)
    requires ChunkGrid(chunk) && HasTemperatures(reg) && InChunk(x, y)
    ensures ChunkGrid(DiffuseGrid(chunk, chunk, reg))
    ensures var d := DiffuseGrid(chunk, chunk, reg)[y][x];
      EffectsGrid(chunk, DiffuseGrid(chunk, chunk, reg), reg)[y][x].temperature ==
        if d.symbol in reg && IsSource(d.symbol) then Nominal(reg[d.symbol]) else d.temperature
  {
    DiffuseGridAt(chunk, chunk, reg);
    DiffusionKeepsSymbols(chunk, chunk, reg);
    var d := DiffuseGrid(chunk, chunk, reg);
    EffectsGridAt(chunk, d, reg);
    NudgeUnreachable(chunk[y][x], d[y][x], reg);
  }

  /** The transitions, for a known non-source symbol whose registry entry
      carries that symbol: each fires under its strict inequality, at most
      one fires, and at exactly 0 or 100 degrees, or for any other symbol,
      the cell is unchanged. */
  lemma PhaseTransitions(orig: Cell, c: Cell, reg: Registry)
    requires HasTemperatures(reg)
    requires c.symbol == orig.symbol && c.symbol in reg && reg[c.symbol].symbol == c.symbol
    requires !IsSource(c.symbol)
    ensures var r := EffectCell(orig, c, reg); var s := c.symbol; var t := c.temperature;
      r.temperature == t && r.lifespan == c.lifespan &&
      (s == "H2O" && t < 0.0 ==> r.symbol == "ICE") &&
      (s == "ICE" && t > 0.0 ==> r.symbol == "H2O") &&
      (s == "H2O" && t > 100.0 ==> r.symbol == "STEAM") &&
      (s == "STEAM" && t < 100.0 ==> r.symbol == "H2O") &&
      ((!(s == "H2O" && (t < 0.0 || t > 100.0)) && !(s == "ICE" && t > 0.0) && !(s == "STEAM" && t < 100.0))
        ==> r == c)
  {
  }

  /** Sources are pinned to their nominal temperature and keep their symbol. */
  lemma SourcesPinned(orig: Cell, c: Cell, reg: Registry)
    requires HasTemperatures(reg)
    requires c.symbol in reg && IsSource(c.symbol)
    ensures EffectCell(orig, c, reg) == c.(temperature := Nominal(reg[c.symbol]))
  {
  }

  /** The effects loop over the successor buffer. */
  method ApplyTemperatureEffects(chunk: Grid, next: array2<Cell>, reg: Registry)
    requires ChunkGrid(chunk) && next.Length0 == CHUNK_SIZE && next.Length1 == CHUNK_SIZE
    requires HasTemperatures(reg)
    modifies next
    ensures Snap(next) == EffectsGrid(chunk, old(Snap(next)), reg)
  {
    ghost var g0 := Snap(next);
    for y := 0 to CHUNK_SIZE
      invariant forall i, j :: 0 <= i < y && 0 <= j < CHUNK_SIZE ==> next[i, j] == EffectCell(chunk[i][j], g0[i][j], reg)
      invariant forall i, j :: y <= i < CHUNK_SIZE && 0 <= j < CHUNK_SIZE ==> next[i, j] == g0[i][j]
    {
      for x := 0 to CHUNK_SIZE
        invariant forall i, j :: 0 <= i < y && 0 <= j < CHUNK_SIZE ==> next[i, j] == EffectCell(chunk[i][j], g0[i][j], reg)
        invariant forall j :: 0 <= j < x ==> next[y, j] == EffectCell(chunk[y][j], g0[y][j], reg)
        invariant forall i, j :: 0 <= i < CHUNK_SIZE && 0 <= j < CHUNK_SIZE && (i > y || (i == y && j >= x)) ==> next[i, j] == g0[i][j]
      {
        var cell := next[y, x];
        if cell.symbol !in reg {
          continue;
        }
        var element := reg[cell.symbol];
        if IsSource(cell.symbol) {
          next[y, x] := cell.(temperature := Nominal(element));
          continue;
        }
        var orig := chunk[y][x];
        if IsSource(orig.symbol) && orig.symbol in reg {
          var sourceElement := reg[orig.symbol];
          cell := cell.(temperature := cell.temperature + (Nominal(sourceElement) - cell.temperature) * 0.5);
        }
        if element.symbol == "H2O" && cell.temperature < 0.0 {
          cell := cell.(symbol := "ICE");
        } else if element.symbol == "ICE" && cell.temperature > 0.0 {
          cell := cell.(symbol := "H2O");
        } else if element.symbol == "H2O" && cell.temperature > 100.0 {
          cell := cell.(symbol := "STEAM");
        } else if element.symbol == "STEAM" && cell.temperature < 100.0 {
          cell := cell.(symbol := "H2O");
        }
        next[y, x] := cell;
      }
    }
    EffectsGridAt(chunk, g0, reg);
    SnapEq(Snap(next), EffectsGrid(chunk, g0, reg), CHUNK_SIZE, CHUNK_SIZE);
  }
}
