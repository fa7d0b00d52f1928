/** The three movement passes of the legacy simulator (script.js), all in
    place on the grid and all made of swaps:
    - the fall pass, rows 98 down to 0 (bottom to top): a known non-gas
      cell swaps with a gas below it, straight down or diagonally (a salt
      cell touching salt stays);
    - the rise pass, rows 1 up to 99 (top to bottom): a non-vacuum gas
      swaps with vacuum directly above it;
    - the lateral pass, with a `processed` mask: a liquid or non-vacuum gas
      swaps with a gas beside it, and both cells are then left alone for
      the rest of the pass. */
module LegacyPhysics {
  import opened Common
  import opened Grids
  import opened Elements
  import opened Neighbourhood
  import opened LegacyCells

  /** `elements[c.symbol].phase_at_stp === 'Gas'`. The source throws on an
      unknown symbol here; under `Known` that never happens. */
  predicate IsGas(reg: Registry, c: LCell) {
    c.symbol in reg && reg[c.symbol].phase == "Gas"
  }

  /** `Math.random() < 0.5 ? 1 : -1`. */
  function Dir(d: Draw): int {
    if d < 0.5 then 1 else -1
  }

  predicate NaclAt(g: LGrid, x: int, y: int)
    requires Square(g)
  {
    InSquare(x, y) && g[y][x].symbol == "NACL"
  }

  /** Some in-bounds neighbour of (x, y) is salt. */
  predicate HasNaclNeighbour(g: LGrid, x: int, y: int)
    requires Square(g)
  {
    exists i :: 0 <= i < |OFFSETS| && NaclAt(g, x + OFFSETS[i].0, y + OFFSETS[i].1)
  }

  // ----- The fall pass -----

  /** The visit of (x, y), reading the grid as the pass leaves it. */
  function FallStep(g: LGrid, reg: Registry, rng: Oracle, x: int, y: int): (r: LGrid)
    requires Square(g) && 0 <= x < GRID_SIZE && 0 <= y < GRID_SIZE - 1
    ensures Square(r)
  {
    var c := g[y][x];
    if c.symbol !in reg || reg[c.symbol].phase == "Gas" then g
    else if c.symbol == "NACL" && HasNaclNeighbour(g, x, y) then g
    else if IsGas(reg, g[y + 1][x]) then
      SwapShape(g, y, x, y + 1, x, GRID_SIZE, GRID_SIZE);
      Swap(g, y, x, y + 1, x)
    else
      var dir := Dir(rng(x, y, 0));
      if 0 <= x + dir < GRID_SIZE && IsGas(reg, g[y + 1][x + dir]) then
        SwapShape(g, y, x, y + 1, x + dir, GRID_SIZE, GRID_SIZE);
        Swap(g, y, x, y + 1, x + dir)
      else if 0 <= x - dir < GRID_SIZE && IsGas(reg, g[y + 1][x - dir]) then
        SwapShape(g, y, x, y + 1, x - dir, GRID_SIZE, GRID_SIZE);
        Swap(g, y, x, y + 1, x - dir)
      else g
  }

  /** After r whole rows (98 down to 99-r) and x cells of row 98-r. */
  function FallUpTo(g0: LGrid, reg: Registry, rng: Oracle, r: int, x: int): (g: LGrid)
    requires Square(g0) && 0 <= r < GRID_SIZE - 1 && 0 <= x <= GRID_SIZE
    ensures Square(g)
    decreases r, x
  {
    if x == 0 then (if r == 0 then g0 else FallUpTo(g0, reg, rng, r - 1, GRID_SIZE))
    else FallStep(FallUpTo(g0, reg, rng, r, x - 1), reg, rng, x - 1, GRID_SIZE - 2 - r)
  }

  function FallGrid(g0: LGrid, reg: Registry, rng: Oracle): LGrid
    requires Square(g0)
  {
    FallUpTo(g0, reg, rng, GRID_SIZE - 2, GRID_SIZE)
  }

  /** The swap of (x, y) with (t, y + 1). */
  function FallSwap(g: LGrid, x: int, y: int, t: int): LGrid
    requires Square(g) && 0 <= x < GRID_SIZE && 0 <= y < GRID_SIZE - 1 && 0 <= t < GRID_SIZE
  {
    Swap(g, y, x, y + 1, t)
  }

  /** A visit changes nothing, or swaps a known non-gas cell with a gas cell
      in the row below, at most one column aside; a salt cell with a salt
      neighbour never moves. */
  lemma FallStepEffect(g: LGrid, reg: Registry, rng: Oracle, x: int, y: int)
    requires Square(g) && 0 <= x < GRID_SIZE && 0 <= y < GRID_SIZE - 1
    ensures var r := FallStep(g, reg, rng, x, y);
      (g[y][x].symbol == "NACL" && HasNaclNeighbour(g, x, y) ==> r == g) &&
      (r == g ||
       exists t :: x - 1 <= t <= x + 1 && 0 <= t < GRID_SIZE && r == FallSwap(g, x, y, t) &&
         g[y][x].symbol in reg && !IsGas(reg, g[y][x]) && IsGas(reg, g[y + 1][t]))
  {
    var c := g[y][x];
    if c.symbol in reg && reg[c.symbol].phase != "Gas" && !(c.symbol == "NACL" && HasNaclNeighbour(g, x, y)) {
      var dir := Dir(rng(x, y, 0));
      if IsGas(reg, g[y + 1][x]) {
        assert FallStep(g, reg, rng, x, y) == FallSwap(g, x, y, x);
      } else if 0 <= x + dir < GRID_SIZE && IsGas(reg, g[y + 1][x + dir]) {
        assert FallStep(g, reg, rng, x, y) == FallSwap(g, x, y, x + dir);
      } else if 0 <= x - dir < GRID_SIZE && IsGas(reg, g[y + 1][x - dir]) {
        assert FallStep(g, reg, rng, x, y) == FallSwap(g, x, y, x - dir);
      }
    }
  }

  lemma FallStepBag(g: LGrid, reg: Registry, rng: Oracle, x: int, y: int)
    requires Square(g) && 0 <= x < GRID_SIZE && 0 <= y < GRID_SIZE - 1
    ensures Bag(FallStep(g, reg, rng, x, y)) == Bag(g)
  {
    var c := g[y][x];
    if c.symbol in reg && reg[c.symbol].phase != "Gas" && !(c.symbol == "NACL" && HasNaclNeighbour(g, x, y)) {
      var dir := Dir(rng(x, y, 0));
      if IsGas(reg, g[y + 1][x]) {
        BagSwap(g, y, x, y + 1, x);
      } else if 0 <= x + dir < GRID_SIZE && IsGas(reg, g[y + 1][x + dir]) {
        BagSwap(g, y, x, y + 1, x + dir);
      } else if 0 <= x - dir < GRID_SIZE && IsGas(reg, g[y + 1][x - dir]) {
        BagSwap(g, y, x, y + 1, x - dir);
      }
    }
  }

  /** The fall pass keeps the multiset of cells. */
  lemma {:induction false} FallBag(g0: LGrid, reg: Registry, rng: Oracle, r: int, x: int)
    requires Square(g0) && 0 <= r < GRID_SIZE - 1 && 0 <= x <= GRID_SIZE
    ensures Bag(FallUpTo(g0, reg, rng, r, x)) == Bag(g0)
    decreases r, x
  {
    if x == 0 {
      if r > 0 {
        FallBag(g0, reg, rng, r - 1, GRID_SIZE);
      }
    } else {
      FallBag(g0, reg, rng, r, x - 1);
      FallStepBag(FallUpTo(g0, reg, rng, r, x - 1), reg, rng, x - 1, GRID_SIZE - 2 - r);
    }
  }

  lemma {:induction false} FallKnown(g0: LGrid, reg: Registry, rng: Oracle, r: int, x: int)
    requires Square(g0) && Known(reg, g0) && 0 <= r < GRID_SIZE - 1 && 0 <= x <= GRID_SIZE
    ensures Known(reg, FallUpTo(g0, reg, rng, r, x))
    decreases r, x
  {
    if x == 0 {
      if r > 0 {
        FallKnown(g0, reg, rng, r - 1, GRID_SIZE);
      }
    } else {
      var g := FallUpTo(g0, reg, rng, r, x - 1);
      var y := GRID_SIZE - 2 - r;
      FallKnown(g0, reg, rng, r, x - 1);
      FallStepEffect(g, reg, rng, x - 1, y);
      if FallStep(g, reg, rng, x - 1, y) != g {
        var t :| x - 2 <= t <= x && 0 <= t < GRID_SIZE && FallStep(g, reg, rng, x - 1, y) == FallSwap(g, x - 1, y, t);
        KnownSwap(reg, g, y, x - 1, y + 1, t);
      }
    }
  }

  // ----- The rise pass -----

  function RiseStep(g: LGrid, reg: Registry, x: int, y: int): (r: LGrid)
    requires Square(g) && 0 <= x < GRID_SIZE && 0 < y < GRID_SIZE
    ensures Square(r)
  {
    if IsGas(reg, g[y][x]) && g[y][x].symbol != "VACUUM" && g[y - 1][x].symbol == "VACUUM" then
      SwapShape(g, y, x, y - 1, x, GRID_SIZE, GRID_SIZE);
      Swap(g, y, x, y - 1, x)
    else g
  }

  /** After r whole rows (1 to r) and x cells of row r+1. */
  function RiseUpTo(g0: LGrid, reg: Registry, r: int, x: int): (g: LGrid)
    requires Square(g0) && 0 <= r < GRID_SIZE - 1 && 0 <= x <= GRID_SIZE
    ensures Square(g)
    decreases r, x
  {
    if x == 0 then (if r == 0 then g0 else RiseUpTo(g0, reg, r - 1, GRID_SIZE))
    else RiseStep(RiseUpTo(g0, reg, r, x - 1), reg, x - 1, r + 1)
  }

  function RiseGrid(g0: LGrid, reg: Registry): LGrid
    requires Square(g0)
  {
    RiseUpTo(g0, reg, GRID_SIZE - 2, GRID_SIZE)
  }

  lemma {:induction false} RiseBag(g0: LGrid, reg: Registry, r: int, x: int)
    requires Square(g0) && 0 <= r < GRID_SIZE - 1 && 0 <= x <= GRID_SIZE
    ensures Bag(RiseUpTo(g0, reg, r, x)) == Bag(g0)
    ensures Known(reg, g0) ==> Known(reg, RiseUpTo(g0, reg, r, x))
    decreases r, x
  {
    if x == 0 {
      if r > 0 {
        RiseBag(g0, reg, r - 1, GRID_SIZE);
      }
    } else {
      var g := RiseUpTo(g0, reg, r, x - 1);
      RiseBag(g0, reg, r, x - 1);
      if RiseStep(g, reg, x - 1, r + 1) != g {
        BagSwap(g, r + 1, x - 1, r, x - 1);
        if Known(reg, g0) {
          KnownSwap(reg, g, r + 1, x - 1, r, x - 1);
        }
      }
    }
  }

  // ----- The lateral pass -----

  /** The grid together with the `processed` mask. */
  datatype Lateral = Lateral(grid: LGrid, processed: seq<seq<bool>>)

  predicate LateralShaped(s: Lateral) {
    Square(s.grid) && Square(s.processed)
  }

  function Unprocessed(): (p: seq<seq<bool>>)
    ensures Square(p) && forall i, j :: 0 <= i < GRID_SIZE && 0 <= j < GRID_SIZE ==> !p[i][j]
  {
    seq(GRID_SIZE, i => seq(GRID_SIZE, j => false))
  }

  /** `shouldSwap`: a liquid or a gas moves into a gas. */
  predicate ShouldSwap(phase: string, reg: Registry, neighbour: LCell) {
    (phase == "Liquid" || phase == "Gas") && IsGas(reg, neighbour)
  }

  function LateralStep(s: Lateral, reg: Registry, rng: Oracle, x: int, y: int): (r: Lateral)
    requires LateralShaped(s) && InSquare(x, y)
    ensures LateralShaped(r)
  {
    var g, p := s.grid, s.processed;
    var c := g[y][x];
    if p[y][x] then s
    else if c.symbol !in reg || (reg[c.symbol].phase != "Liquid" && reg[c.symbol].phase != "Gas") || c.symbol == "VACUUM" then s
    else
      var checkX := x + Dir(rng(x, y, 0));
      if 0 <= checkX < GRID_SIZE && !p[y][checkX] && ShouldSwap(reg[c.symbol].phase, reg, g[y][checkX]) then
        SwapShape(g, y, x, y, checkX, GRID_SIZE, GRID_SIZE);
        PutShape(p, y, x, true, GRID_SIZE, GRID_SIZE);
        PutShape(Put(p, y, x, true), y, checkX, true, GRID_SIZE, GRID_SIZE);
        Lateral(Swap(g, y, x, y, checkX), Put(Put(p, y, x, true), y, checkX, true))
      else s
  }

  /** After the rows above y and the first x cells of row y. */
  function LateralUpTo(s0: Lateral, reg: Registry, rng: Oracle, y: int, x: int): (s: Lateral)
    requires LateralShaped(s0) && 0 <= y < GRID_SIZE && 0 <= x <= GRID_SIZE
    ensures LateralShaped(s)
    decreases y, x
  {
    if x == 0 then (if y == 0 then s0 else LateralUpTo(s0, reg, rng, y - 1, GRID_SIZE))
    else LateralStep(LateralUpTo(s0, reg, rng, y, x - 1), reg, rng, x - 1, y)
  }

  function LateralGrid(g0: LGrid, reg: Registry, rng: Oracle): LGrid
    requires Square(g0)
  {
    LateralUpTo(Lateral(g0, Unprocessed()), reg, rng, GRID_SIZE - 1, GRID_SIZE).grid
  }

  /** A visit either changes nothing or swaps the visited cell with its left
      or right neighbour, both unprocessed before and both processed after,
      the visited cell a liquid or non-vacuum gas and the neighbour a gas;
      the mask only grows, and a processed cell keeps its content. */
  lemma LateralStepEffect(s: Lateral, reg: Registry, rng: Oracle, x: int, y: int)
    requires LateralShaped(s) && InSquare(x, y)
    ensures var r := LateralStep(s, reg, rng, x, y);
      (r == s ||
       exists t :: (t == x - 1 || t == x + 1) && 0 <= t < GRID_SIZE &&
         !s.processed[y][x] && !s.processed[y][t] && r.processed[y][x] && r.processed[y][t] &&
         r.grid == Swap(s.grid, y, x, y, t) &&
         s.grid[y][x].symbol in reg && s.grid[y][x].symbol != "VACUUM" &&
         reg[s.grid[y][x].symbol].phase in {"Liquid", "Gas"} && IsGas(reg, s.grid[y][t])) &&
      (forall i, j :: InSquare(j, i) && s.processed[i][j] ==> r.processed[i][j] && r.grid[i][j] == s.grid[i][j])
  {
  }

  /** Scan position (y1, x1) comes no later than (y2, x2). */
  predicate NoLater(y1: int, x1: int, y2: int, x2: int) {
    y1 < y2 || (y1 == y2 && x1 <= x2)
  }

  /** Once the pass has marked a cell processed, the cell keeps its content
      and its mark to the end of the pass: each cell takes part in at most
      one lateral swap. */
  lemma {:induction false} LateralFrozen(s0: Lateral, reg: Registry, rng: Oracle, y1: int, x1: int, y2: int, x2: int)
    requires LateralShaped(s0) && 0 <= y1 < GRID_SIZE && 0 <= x1 <= GRID_SIZE
    requires 0 <= y2 < GRID_SIZE && 0 <= x2 <= GRID_SIZE && NoLater(y1, x1, y2, x2)
    ensures var a, b := LateralUpTo(s0, reg, rng, y1, x1), LateralUpTo(s0, reg, rng, y2, x2);
      forall i, j :: InSquare(j, i) && a.processed[i][j] ==> b.processed[i][j] && b.grid[i][j] == a.grid[i][j]
    decreases y2, x2
  {
    if y1 == y2 && x1 == x2 {
    } else if x2 == 0 {
      LateralFrozen(s0, reg, rng, y1, x1, y2 - 1, GRID_SIZE);
    } else {
      LateralFrozen(s0, reg, rng, y1, x1, y2, x2 - 1);
      LateralStepEffect(LateralUpTo(s0, reg, rng, y2, x2 - 1), reg, rng, x2 - 1, y2);
    }
  }

  lemma LateralStepBag(s: Lateral, reg: Registry, rng: Oracle, x: int, y: int)
    requires LateralShaped(s) && InSquare(x, y)
    ensures Bag(LateralStep(s, reg, rng, x, y).grid) == Bag(s.grid)
  {
    LateralStepEffect(s, reg, rng, x, y);
    var r := LateralStep(s, reg, rng, x, y);
    if r != s {
      var t :| (t == x - 1 || t == x + 1) && 0 <= t < GRID_SIZE && r.grid == Swap(s.grid, y, x, y, t);
      BagSwap(s.grid, y, x, y, t);
    }
  }

  lemma LateralStepKnown(s: Lateral, reg: Registry, rng: Oracle, x: int, y: int)
    requires LateralShaped(s) && InSquare(x, y) && Known(reg, s.grid)
    ensures Known(reg, LateralStep(s, reg, rng, x, y).grid)
  {
    LateralStepEffect(s, reg, rng, x, y);
    var r := LateralStep(s, reg, rng, x, y);
    if r != s {
      var t :| (t == x - 1 || t == x + 1) && 0 <= t < GRID_SIZE && r.grid == Swap(s.grid, y, x, y, t);
      KnownSwap(reg, s.grid, y, x, y, t);
    }
  }

  lemma {:induction false} LateralBag(s0: Lateral, reg: Registry, rng: Oracle, y: int, x: int)
    requires LateralShaped(s0) && 0 <= y < GRID_SIZE && 0 <= x <= GRID_SIZE
    ensures Bag(LateralUpTo(s0, reg, rng, y, x).grid) == Bag(s0.grid)
    decreases y, x
  {
    if x == 0 {
      if y > 0 {
        LateralBag(s0, reg, rng, y - 1, GRID_SIZE);
      }
    } else {
      var s := LateralUpTo(s0, reg, rng, y, x - 1);
      LateralBag(s0, reg, rng, y, x - 1);
      LateralStepBag(s, reg, rng, x - 1, y);
    }
  }

  lemma {:induction false} LateralKnown(s0: Lateral, reg: Registry, rng: Oracle, y: int, x: int)
    requires LateralShaped(s0) && 0 <= y < GRID_SIZE && 0 <= x <= GRID_SIZE && Known(reg, s0.grid)
    ensures Known(reg, LateralUpTo(s0, reg, rng, y, x).grid)
    decreases y, x
  {
    if x == 0 {
      if y > 0 {
        LateralKnown(s0, reg, rng, y - 1, GRID_SIZE);
      }
    } else {
      LateralKnown(s0, reg, rng, y, x - 1);
      LateralStepKnown(LateralUpTo(s0, reg, rng, y, x - 1), reg, rng, x - 1, y);
    }
  }

  /** The three passes together keep the multiset of cells and keep every
      symbol known. */
  lemma MovementKeeps(g: LGrid, reg: Registry, fallRng: Oracle, sideRng: Oracle)
    requires Square(g)
    ensures var m := LateralGrid(RiseGrid(FallGrid(g, reg, fallRng), reg), reg, sideRng);
      Bag(m) == Bag(g) && (Known(reg, g) ==> Known(reg, m))
  {
    var g1 := FallGrid(g, reg, fallRng);
    FallBag(g, reg, fallRng, GRID_SIZE - 2, GRID_SIZE);
    if Known(reg, g) {
      FallKnown(g, reg, fallRng, GRID_SIZE - 2, GRID_SIZE);
    }
    var g2 := RiseGrid(g1, reg);
    RiseBag(g1, reg, GRID_SIZE - 2, GRID_SIZE);
    LateralBag(Lateral(g2, Unprocessed()), reg, sideRng, GRID_SIZE - 1, GRID_SIZE);
    if Known(reg, g) {
      LateralKnown(Lateral(g2, Unprocessed()), reg, sideRng, GRID_SIZE - 1, GRID_SIZE);
    }
  }

  // ----- The passes, in place -----

  method NaclNeighbourAt(a: array2<LCell>, x: int, y: int) returns (found: bool)
    requires a.Length0 == GRID_SIZE && a.Length1 == GRID_SIZE
    ensures found == HasNaclNeighbour(Snap(a), x, y)
  {
    ghost var g := Snap(a);
    found := false;
    var i := 0;
    while i < |OFFSETS| && !found
      invariant 0 <= i <= |OFFSETS|
      invariant found <==> exists j :: 0 <= j < i && NaclAt(g, x + OFFSETS[j].0, y + OFFSETS[j].1)
    {
      var nx, ny := x + OFFSETS[i].0, y + OFFSETS[i].1;
      if InSquare(nx, ny) && a[ny, nx].symbol == "NACL" {
        found := true;
      }
      i := i + 1;
    }
  }

  method FallAt(a: array2<LCell>, reg: Registry, rng: Oracle, x: int, y: int)
    requires a.Length0 == GRID_SIZE && a.Length1 == GRID_SIZE
    requires 0 <= x < GRID_SIZE && 0 <= y < GRID_SIZE - 1
    modifies a
    ensures Snap(a) == FallStep(old(Snap(a)), reg, rng, x, y)
  {
    var cell := a[y, x];
    if cell.symbol !in reg || reg[cell.symbol].phase == "Gas" {
      return;
    }
    if cell.symbol == "NACL" {
      var hasNaClNeighbor := NaclNeighbourAt(a, x, y);
      if hasNaClNeighbor {
        return;
      }
    }
    if IsGas(reg, a[y + 1, x]) {
      Exchange(a, y, x, y + 1, x);
      return;
    }
    ghost var g := Snap(a);
    var dir := Dir(rng(x, y, 0));
    for i := 0 to 2
      invariant Snap(a) == g
      invariant i >= 1 ==> !(0 <= x + dir < GRID_SIZE && IsGas(reg, g[y + 1][x + dir]))
      invariant i == 2 ==> !(0 <= x - dir < GRID_SIZE && IsGas(reg, g[y + 1][x - dir]))
    {
      var checkX := x + (if i == 0 then dir else -dir);
      if 0 <= checkX < GRID_SIZE && IsGas(reg, a[y + 1, checkX]) {
        Exchange(a, y, x, y + 1, checkX);
        return;
      }
    }
  }

  method ApplyFall(a: array2<LCell>, reg: Registry, rng: Oracle)
    requires a.Length0 == GRID_SIZE && a.Length1 == GRID_SIZE
    modifies a
    ensures Snap(a) == FallGrid(old(Snap(a)), reg, rng)
  {
    ghost var g0 := Snap(a);
    for r := 0 to GRID_SIZE - 1
      invariant Snap(a) == if r == 0 then g0 else FallUpTo(g0, reg, rng, r - 1, GRID_SIZE)
    {
      var y := GRID_SIZE - 2 - r;
      for x := 0 to GRID_SIZE
        invariant Snap(a) == FallUpTo(g0, reg, rng, r, x)
      {
        FallAt(a, reg, rng, x, y);
      }
    }
  }

  method RiseAt(a: array2<LCell>, reg: Registry, x: int, y: int)
    requires a.Length0 == GRID_SIZE && a.Length1 == GRID_SIZE
    requires 0 <= x < GRID_SIZE && 0 < y < GRID_SIZE
    modifies a
    ensures Snap(a) == RiseStep(old(Snap(a)), reg, x, y)
  {
    if IsGas(reg, a[y, x]) && a[y, x].symbol != "VACUUM" && a[y - 1, x].symbol == "VACUUM" {
      Exchange(a, y, x, y - 1, x);
    }
  }

  method ApplyRise(a: array2<LCell>, reg: Registry)
    requires a.Length0 == GRID_SIZE && a.Length1 == GRID_SIZE
    modifies a
    ensures Snap(a) == RiseGrid(old(Snap(a)), reg)
  {
    ghost var g0 := Snap(a);
    for r := 0 to GRID_SIZE - 1
      invariant Snap(a) == if r == 0 then g0 else RiseUpTo(g0, reg, r - 1, GRID_SIZE)
    {
      var y := r + 1;
      for x := 0 to GRID_SIZE
        invariant Snap(a) == RiseUpTo(g0, reg, r, x)
      {
        RiseAt(a, reg, x, y);
      }
    }
  }

  method LateralAt(a: array2<LCell>, processed: array2<bool>, reg: Registry, rng: Oracle, x: int, y: int)
    requires a.Length0 == GRID_SIZE && a.Length1 == GRID_SIZE
    requires processed.Length0 == GRID_SIZE && processed.Length1 == GRID_SIZE
    requires InSquare(x, y)
    modifies a, processed
    ensures Lateral(Snap(a), Snap(processed)) == LateralStep(Lateral(old(Snap(a)), old(Snap(processed))), reg, rng, x, y)
  {
    if processed[y, x] {
      return;
    }
    var cell := a[y, x];
    if cell.symbol !in reg || (reg[cell.symbol].phase != "Liquid" && reg[cell.symbol].phase != "Gas") || cell.symbol == "VACUUM" {
      return;
    }
    var element := reg[cell.symbol];
    var checkX := x + Dir(rng(x, y, 0));
    if 0 <= checkX < GRID_SIZE && !processed[y, checkX] {
      if ShouldSwap(element.phase, reg, a[y, checkX]) {
        Exchange(a, y, x, y, checkX);
        Write(processed, y, x, true);
        Write(processed, y, checkX, true);
      }
    }
  }

  method ApplyLateral(a: array2<LCell>, reg: Registry, rng: Oracle)
    requires a.Length0 == GRID_SIZE && a.Length1 == GRID_SIZE
    modifies a
    ensures Snap(a) == LateralGrid(old(Snap(a)), reg, rng)
  {
    ghost var s0 := Lateral(Snap(a), Unprocessed());
    var processed := new bool[GRID_SIZE, GRID_SIZE]((i, j) => false);
    SnapEq(Snap(processed), Unprocessed(), GRID_SIZE, GRID_SIZE);
    for y := 0 to GRID_SIZE
      invariant Lateral(Snap(a), Snap(processed)) == if y == 0 then s0 else LateralUpTo(s0, reg, rng, y - 1, GRID_SIZE)
    {
      for x := 0 to GRID_SIZE
        invariant Lateral(Snap(a), Snap(processed)) == LateralUpTo(s0, reg, rng, y, x)
      {
        LateralAt(a, processed, reg, rng, x, y);
      }
    }
  }
}
