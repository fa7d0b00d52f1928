/** The cells, the registry and the neighbourhood of the legacy dense
    simulator (script.js): one fixed 100x100 grid of cells that carry a
    symbol and the optional fields `is_energized`, `is_active` and `age`. */
module LegacyCells {
  import opened Common
  import opened Grids
  import opened Elements
  import opened Neighbourhood

  const GRID_SIZE: int := 100

  /** One cell. An absent `is_energized` or `is_active` reads as false in
      every test the simulator makes, so both are booleans; `age` is absent
      until a fire sets it. */
  datatype LCell = LCell(symbol: string, energized: bool, active: bool, age: Option<int>)

  type LGrid = seq<seq<LCell>>

  predicate Square<T>(g: seq<seq<T>>) {
    IsRect(g, GRID_SIZE, GRID_SIZE)
  }

  predicate InSquare(x: int, y: int) {
    0 <= x < GRID_SIZE && 0 <= y < GRID_SIZE
  }

  /** `{ symbol: s }`, with or without `is_energized: false`. */
  function Plain(s: string): LCell {
    LCell(s, false, false, None)
  }

  /** `initializeGrid`: 100x100 unenergized vacuum. */
  function Blank(): (g: LGrid)
    ensures Square(g)
    ensures forall i, j :: 0 <= i < GRID_SIZE && 0 <= j < GRID_SIZE ==> g[i][j] == Plain("VACUUM")
  {
    seq(GRID_SIZE, i => seq(GRID_SIZE, j => Plain("VACUUM")))
  }

  /** Every cell names a symbol of the registry, so each property lookup of
      the simulator finds an element. */
  predicate Known(reg: Registry, g: LGrid) {
    forall i, j :: 0 <= i < |g| && 0 <= j < |g[i]| ==> g[i][j].symbol in reg
  }

  lemma KnownPut(reg: Registry, g: LGrid, y: int, x: int, v: LCell)
    requires Square(g) && InSquare(x, y) && Known(reg, g) && v.symbol in reg
    ensures Known(reg, Put(g, y, x, v))
  {
    PutShape(g, y, x, v, GRID_SIZE, GRID_SIZE);
  }

  lemma KnownSwap(reg: Registry, g: LGrid, y1: int, x1: int, y2: int, x2: int)
    requires Square(g) && InSquare(x1, y1) && InSquare(x2, y2) && Known(reg, g)
    ensures Known(reg, Swap(g, y1, x1, y2, x2))
  {
    SwapShape(g, y1, x1, y2, x2, GRID_SIZE, GRID_SIZE);
  }

  // ----- The registry -----

  /** An entry of the hard-coded table: no temperature, density or mass;
      `flammable` stands for the legacy `flammability` flag. */
  function Special(symbol: string, name: string, color: string, phase: string,
                   flammable: bool, lifespan: Option<int>): Element
  {
    Element(symbol, name, color, phase, None, None, flammable, false, false, false, lifespan,
            None, None, None, None)
  }

  /** `loadElements`: the loaded table with the six special elements
      written over it. */
  function WithSpecials(loaded: Registry): Registry {
    loaded["VACUUM" := Special("VACUUM", "", "#000000", "Gas", false, None)]
          ["FIRE" := Special("FIRE", "", "#FF4500", "Gas", false, Some(15))]
          ["H2O" := Special("H2O", "Water", "#3498DB", "Liquid", false, None)]
          ["NACL" := Special("NACL", "Salt", "#FDFEFE", "Solid", false, None)]
          ["T" := Special("T", "Trigger", "#E74C3C", "Solid", false, None)]
          ["CH4" := Special("CH4", "Methane", "#B2FF66", "Gas", true, None)]
  }

  /** What the simulator relies on from the special entries: the products of
      its chemistry are known, and FIRE lives 15 ticks. */
  predicate Specials(reg: Registry) {
    "VACUUM" in reg && "H2O" in reg && "NACL" in reg && "CH4" in reg && "T" in reg &&
    "FIRE" in reg && reg["FIRE"].lifespan == Some(15) &&
    reg["VACUUM"].phase == "Gas" && reg["FIRE"].phase == "Gas" && reg["CH4"].phase == "Gas" &&
    reg["H2O"].phase == "Liquid" && reg["NACL"].phase == "Solid" && reg["T"].phase == "Solid"
  }

  /** The special entries are present whatever was loaded, the other loaded
      entries are kept, and nothing else is added. */
  lemma SpecialsLoaded(loaded: Registry)
    ensures Specials(WithSpecials(loaded))
    ensures WithSpecials(loaded)["CH4"].flammable && !WithSpecials(loaded)["FIRE"].flammable
    ensures forall s :: s in WithSpecials(loaded) <==>
      s in loaded || s in {"VACUUM", "FIRE", "H2O", "NACL", "T", "CH4"}
    ensures forall s :: s in loaded && s !in {"VACUUM", "FIRE", "H2O", "NACL", "T", "CH4"} ==>
      WithSpecials(loaded)[s] == loaded[s]
  {
  }

  // ----- The neighbourhood -----

  /** The in-bounds neighbours among the first n offsets whose symbol is s,
      in scan order (`neighbors.filter(n => n.symbol === s)`). */
  function MatchingUpTo(g: LGrid, x: int, y: int, s: string, n: nat): (ps: seq<(int, int)>)
    requires Square(g) && n <= |OFFSETS|
    ensures forall i :: 0 <= i < |ps| ==>
      InSquare(ps[i].0, ps[i].1) && Adjacent(x, y, ps[i]) && g[ps[i].1][ps[i].0].symbol == s
  {
    if n == 0 then []
    else
      var ps := MatchingUpTo(g, x, y, s, n - 1);
      var nx, ny := x + OFFSETS[n - 1].0, y + OFFSETS[n - 1].1;
      if InSquare(nx, ny) && g[ny][nx].symbol == s then ps + [(nx, ny)] else ps
  }

  function Matching(g: LGrid, x: int, y: int, s: string): seq<(int, int)>
    requires Square(g)
  {
    MatchingUpTo(g, x, y, s, |OFFSETS|)
  }

  lemma {:induction false} MatchingRanked(g: LGrid, x: int, y: int, s: string, n: nat)
    requires Square(g) && 0 < n <= |OFFSETS|
    ensures forall i :: 0 <= i < |MatchingUpTo(g, x, y, s, n)| ==>
      Rank(x, y, MatchingUpTo(g, x, y, s, n)[i]) <= 3 * OFFSETS[n - 1].1 + OFFSETS[n - 1].0
    ensures forall i, j :: 0 <= i < j < |MatchingUpTo(g, x, y, s, n)| ==>
      Rank(x, y, MatchingUpTo(g, x, y, s, n)[i]) < Rank(x, y, MatchingUpTo(g, x, y, s, n)[j])
  {
    if n > 1 {
      MatchingRanked(g, x, y, s, n - 1);
    }
  }

  lemma {:induction false} MatchingGrow(g: LGrid, x: int, y: int, s: string, m: nat, n: nat)
    requires Square(g) && m <= n <= |OFFSETS|
    ensures forall q :: q in MatchingUpTo(g, x, y, s, m) ==> q in MatchingUpTo(g, x, y, s, n)
    decreases n
  {
    if m < n {
      MatchingGrow(g, x, y, s, m, n - 1);
    }
  }

  /** The list holds exactly the in-bounds neighbours with symbol s, each
      once, in the scan order of the offsets. */
  lemma MatchingExact(g: LGrid, x: int, y: int, s: string)
    requires Square(g)
    ensures forall i, j :: 0 <= i < j < |Matching(g, x, y, s)| ==>
      Rank(x, y, Matching(g, x, y, s)[i]) < Rank(x, y, Matching(g, x, y, s)[j])
    ensures forall p: (int, int) :: InSquare(p.0, p.1) && Adjacent(x, y, p) && g[p.1][p.0].symbol == s ==>
      p in Matching(g, x, y, s)
  {
    MatchingRanked(g, x, y, s, |OFFSETS|);
    forall p: (int, int) | InSquare(p.0, p.1) && Adjacent(x, y, p) && g[p.1][p.0].symbol == s
      ensures p in Matching(g, x, y, s)
    {
      var dx, dy := p.0 - x, p.1 - y;
      var k := if dy == -1 then dx + 1 else if dy == 0 then (if dx < 0 then 3 else 4) else dx + 6;
      assert OFFSETS[k] == (dx, dy);
      assert p in MatchingUpTo(g, x, y, s, k + 1);
      MatchingGrow(g, x, y, s, k + 1, |OFFSETS|);
    }
  }

  /** The collection of the matching neighbours of (x, y). */
  method MatchingAt(g: LGrid, x: int, y: int, s: string) returns (ps: seq<(int, int)>)
    requires Square(g)
    ensures ps == Matching(g, x, y, s)
  {
    ps := [];
    for i := 0 to |OFFSETS|
      invariant ps == MatchingUpTo(g, x, y, s, i)
    {
      var nx, ny := x + OFFSETS[i].0, y + OFFSETS[i].1;
      if InSquare(nx, ny) && g[ny][nx].symbol == s {
        ps := ps + [(nx, ny)];
      }
    }
  }
}
