/** `updatePlanetSurface` (js/engine.js): the settling step of the dense
    planet grid. A clone of the grid is scanned from the second-to-last row
    up to the top, left to right; a solid or liquid falls up to `gravity`
    cells through unknown, vacuum or lighter cells below it, a liquid that
    did not fall may flow one cell sideways into vacuum, and a gas rises
    through unknown, vacuum or denser cells above it. Every change is a
    swap of two cells of the clone. */
module Planet {
  import opened Common
  import opened Grids
  import opened World
  import opened Elements

  /** A planet grid the source can index: at least one row (it reads
      `nextGrid[0].length`), all rows of one width. */
  predicate Planar(g: Grid) {
    |g| > 0 && IsRect(g, |g|, |g[0]|)
  }

  /** `Math.min(5, 1 + Math.floor(body.mass / 1000))`. */
  function Gravity(mass: real): (k: int)
    ensures k <= 5
    ensures mass >= 0.0 ==> k >= 1
    ensures k == 5 <==> mass >= 4000.0
  {
    Min(5, 1 + Floor(mass / 1000.0))
  }

  /** `!element || element.symbol === 'VACUUM'`. */
  predicate Empty(reg: Registry, c: Cell) {
    c.symbol !in reg || reg[c.symbol].symbol == "VACUUM"
  }

  /** `element && element.symbol === 'VACUUM'`: the only lateral target. */
  predicate IsVacuum(reg: Registry, c: Cell) {
    c.symbol in reg && reg[c.symbol].symbol == "VACUUM"
  }

  /** A falling cell of density `density` passes through c. */
  predicate SinksInto(reg: Registry, c: Cell, density: real) {
    Empty(reg, c) || density > OrReal(reg[c.symbol].density, 0.0)
  }

  /** A rising cell of density `density` passes through c. */
  predicate RisesInto(reg: Registry, c: Cell, density: real) {
    Empty(reg, c) || density < OrReal(reg[c.symbol].density, 0.0)
  }

  /** The `targetY` of the fall loop, from its i-th iteration on: the last
      row of the run of passable cells below (x, y), at most `gravity` rows
      down and inside the grid. */
  function FallFrom(g: Grid, h: nat, w: nat, x: int, y: int, i: int, gravity: int,
                    reg: Registry, density: real): (t: int)
    requires IsRect(g, h, w) && 0 <= x < w && 0 <= y < h && 1 <= i
    requires i <= Max(gravity, 0) + 1 && y + i - 1 < h
    ensures y + i - 1 <= t < h && t <= y + Max(gravity, 0)
    decreases gravity + 1 - i
  {
    if i > gravity || y + i >= h then y + i - 1
    else if SinksInto(reg, g[y + i][x], density) then FallFrom(g, h, w, x, y, i + 1, gravity, reg, density)
    else y + i - 1
  }

  /** The `targetY` of the rise loop, from its i-th iteration on. */
  function RiseFrom(g: Grid, h: nat, w: nat, x: int, y: int, i: int, gravity: int,
                    reg: Registry, density: real): (t: int)
    requires IsRect(g, h, w) && 0 <= x < w && 0 <= y < h && 1 <= i
    requires i <= Max(gravity, 0) + 1 && 0 <= y - i + 1
    ensures 0 <= t <= y - i + 1 && y - Max(gravity, 0) <= t
    decreases gravity + 1 - i
  {
    if i > gravity || y - i < 0 then y - i + 1
    else if RisesInto(reg, g[y - i][x], density) then RiseFrom(g, h, w, x, y, i + 1, gravity, reg, density)
    else y - i + 1
  }

  /** `x + (Math.random() < 0.5 ? 1 : -1)`. */
  function SideOf(x: int, d: Draw): int {
    x + (if d < 0.5 then 1 else -1)
  }

  /** The visit of cell (x, y) of the clone. */
  function SettleStep(g: Grid, h: nat, w: nat, x: int, y: int, gravity: int,
                      reg: Registry, rng: Oracle): (r: Grid)
    requires IsRect(g, h, w) && 0 <= x < w && 0 <= y < h
    ensures IsRect(r, h, w)
  {
    var c := g[y][x];
    if Empty(reg, c) then g
    else
      var e := reg[c.symbol];
      var density := OrReal(e.density, 1.0);
      var fall := if e.phase == "Solid" || e.phase == "Liquid" then FallFrom(g, h, w, x, y, 1, gravity, reg, density) else y;
      if fall != y then
        SwapShape(g, y, x, fall, x, h, w);
        Swap(g, y, x, fall, x)
      else if e.phase == "Liquid" then
        var side := SideOf(x, rng(x, y, 0));
        if 0 <= side < w && IsVacuum(reg, g[y][side]) then
          SwapShape(g, y, x, y, side, h, w);
          Swap(g, y, x, y, side)
        else g
      else if e.phase == "Gas" then
        var rise := RiseFrom(g, h, w, x, y, 1, gravity, reg, density);
        if rise != y then
          SwapShape(g, y, x, rise, x, h, w);
          Swap(g, y, x, rise, x)
        else g
      else g
  }

  /** The clone after r whole rows (rows h-2 down to h-1-r) and the first x
      cells of row h-2-r have been visited. */
  function SettleUpTo(g0: Grid, h: nat, w: nat, gravity: int, reg: Registry, rng: Oracle,
                      r: int, x: int): (g: Grid)
    requires IsRect(g0, h, w) && 0 <= r < h - 1 && 0 <= x <= w
    ensures IsRect(g, h, w)
    decreases r, x
  {
    if x == 0 then (if r == 0 then g0 else SettleUpTo(g0, h, w, gravity, reg, rng, r - 1, w))
    else SettleStep(SettleUpTo(g0, h, w, gravity, reg, rng, r, x - 1), h, w, x - 1, h - 2 - r, gravity, reg, rng)
  }

  /** The clone after the whole scan; a one-row grid has nothing to scan. */
  function Settle(g0: Grid, h: nat, w: nat, gravity: int, reg: Registry, rng: Oracle): (g: Grid)
    requires IsRect(g0, h, w)
    ensures IsRect(g, h, w)
  {
    if h <= 1 then g0 else SettleUpTo(g0, h, w, gravity, reg, rng, h - 2, w)
  }

  /** What `updatePlanetSurface(planetGrid, body)` returns. */
  function PlanetSurface(planetGrid: Option<Grid>, mass: real, reg: Registry, rng: Oracle): Option<Grid>
    requires planetGrid.Some? ==> Planar(planetGrid.value)
  {
    match planetGrid
    case None => None
    case Some(g) => Some(Settle(g, |g|, |g[0]|, Gravity(mass), reg, rng))
  }

  // ----- Properties -----

  /** The fall reach: every cell passed is passable, the fall covers at most
      `gravity` rows, and it stops early only at the grid's bottom or in
      front of a cell it cannot pass. */
  lemma {:induction false} FallReach(g: Grid, h: nat, w: nat, x: int, y: int, i: int, gravity: int,
                                     reg: Registry, density: real)
    requires IsRect(g, h, w) && 0 <= x < w && 0 <= y < h && 1 <= i
    requires i <= Max(gravity, 0) + 1 && y + i - 1 < h
    ensures var t := FallFrom(g, h, w, x, y, i, gravity, reg, density);
      (forall k :: y + i <= k <= t ==> SinksInto(reg, g[k][x], density)) &&
      (t - y < gravity && t + 1 < h ==> !SinksInto(reg, g[t + 1][x], density))
    decreases gravity + 1 - i
  {
    if i <= gravity && y + i < h && SinksInto(reg, g[y + i][x], density) {
      FallReach(g, h, w, x, y, i + 1, gravity, reg, density);
    }
  }

  /** The rise reach, the mirror image of `FallReach`. */
  lemma {:induction false} RiseReach(g: Grid, h: nat, w: nat, x: int, y: int, i: int, gravity: int,
                                     reg: Registry, density: real)
    requires IsRect(g, h, w) && 0 <= x < w && 0 <= y < h && 1 <= i
    requires i <= Max(gravity, 0) + 1 && 0 <= y - i + 1
    ensures var t := RiseFrom(g, h, w, x, y, i, gravity, reg, density);
      (forall k :: t <= k <= y - i ==> RisesInto(reg, g[k][x], density)) &&
      (y - t < gravity && t > 0 ==> !RisesInto(reg, g[t - 1][x], density))
    decreases gravity + 1 - i
  {
    if i <= gravity && y - i >= 0 && RisesInto(reg, g[y - i][x], density) {
      RiseReach(g, h, w, x, y, i + 1, gravity, reg, density);
    }
  }

  /** One visit either changes nothing or swaps the visited cell with
      - the end of its fall (solids and liquids: same column, 1 to `gravity`
        rows below, every cell passed passable), or
      - an in-bounds VACUUM neighbour in the same row (a liquid that could
        not fall), or
      - the end of its rise (gases: same column, 1 to `gravity` rows above).
      Unknown and vacuum cells never move on their own visit. */
  lemma SettleStepEffect(g: Grid, h: nat, w: nat, x: int, y: int, gravity: int, reg: Registry, rng: Oracle)
    requires IsRect(g, h, w) && 0 <= x < w && 0 <= y < h
    ensures var r := SettleStep(g, h, w, x, y, gravity, reg, rng); var c := g[y][x];
      (Empty(reg, c) ==> r == g) &&
      (r == g ||
       (exists t :: y < t < h && t <= y + gravity && r == Swap(g, y, x, t, x) &&
          reg[c.symbol].phase in {"Solid", "Liquid"} &&
          forall k :: y < k <= t ==> SinksInto(reg, g[k][x], OrReal(reg[c.symbol].density, 1.0))) ||
       (exists s :: 0 <= s < w && (s == x - 1 || s == x + 1) && r == Swap(g, y, x, y, s) &&
          reg[c.symbol].phase == "Liquid" && IsVacuum(reg, g[y][s])) ||
       (exists t :: 0 <= t < y && y - gravity <= t && r == Swap(g, y, x, t, x) &&
          reg[c.symbol].phase == "Gas" &&
          forall k :: t <= k < y ==> RisesInto(reg, g[k][x], OrReal(reg[c.symbol].density, 1.0))))
  {
    var c := g[y][x];
    if !Empty(reg, c) {
      var e := reg[c.symbol];
      var density := OrReal(e.density, 1.0);
      if e.phase == "Solid" || e.phase == "Liquid" {
        FallReach(g, h, w, x, y, 1, gravity, reg, density);
      }
      if e.phase == "Gas" {
        RiseReach(g, h, w, x, y, 1, gravity, reg, density);
      }
    }
  }

  /** A visit keeps the multiset of cells. */
  lemma SettleStepBag(g: Grid, h: nat, w: nat, x: int, y: int, gravity: int, reg: Registry, rng: Oracle)
    requires IsRect(g, h, w) && 0 <= x < w && 0 <= y < h
    ensures Bag(SettleStep(g, h, w, x, y, gravity, reg, rng)) == Bag(g)
  {
    var c := g[y][x];
    if !Empty(reg, c) {
      var e := reg[c.symbol];
      var density := OrReal(e.density, 1.0);
      var fall := if e.phase == "Solid" || e.phase == "Liquid" then FallFrom(g, h, w, x, y, 1, gravity, reg, density) else y;
      if fall != y {
        BagSwap(g, y, x, fall, x);
      } else if e.phase == "Liquid" {
        var side := SideOf(x, rng(x, y, 0));
        if 0 <= side < w && IsVacuum(reg, g[y][side]) {
          BagSwap(g, y, x, y, side);
        }
      } else if e.phase == "Gas" {
        var rise := RiseFrom(g, h, w, x, y, 1, gravity, reg, density);
        if rise != y {
          BagSwap(g, y, x, rise, x);
        }
      }
    }
  }

  lemma {:induction false} SettleUpToBag(g0: Grid, h: nat, w: nat, gravity: int, reg: Registry, rng: Oracle,
                                         r: int, x: int)
    requires IsRect(g0, h, w) && 0 <= r < h - 1 && 0 <= x <= w
    ensures Bag(SettleUpTo(g0, h, w, gravity, reg, rng, r, x)) == Bag(g0)
    decreases r, x
  {
    if x == 0 {
      if r > 0 {
        SettleUpToBag(g0, h, w, gravity, reg, rng, r - 1, w);
      }
    } else {
      SettleUpToBag(g0, h, w, gravity, reg, rng, r, x - 1);
      SettleUpToNext(g0, h, w, gravity, reg, rng, r, x);
    }
  }

  /** One more visit keeps the cells the scan had so far. */
  lemma SettleUpToNext(g0: Grid, h: nat, w: nat, gravity: int, reg: Registry, rng: Oracle, r: int, x: int)
    requires IsRect(g0, h, w) && 0 <= r < h - 1 && 0 < x <= w
    requires Bag(SettleUpTo(g0, h, w, gravity, reg, rng, r, x - 1)) == Bag(g0)
    ensures Bag(SettleUpTo(g0, h, w, gravity, reg, rng, r, x)) == Bag(g0)
  {
    var prev := SettleUpTo(g0, h, w, gravity, reg, rng, r, x - 1);
    SettleUpToUnfold(g0, h, w, gravity, reg, rng, r, x);
    SettleStepBag(prev, h, w, x - 1, h - 2 - r, gravity, reg, rng);
  }

  lemma SettleUpToUnfold(g0: Grid, h: nat, w: nat, gravity: int, reg: Registry, rng: Oracle, r: int, x: int)
    requires IsRect(g0, h, w) && 0 <= r < h - 1 && 0 < x <= w
    ensures SettleUpTo(g0, h, w, gravity, reg, rng, r, x) ==
      SettleStep(SettleUpTo(g0, h, w, gravity, reg, rng, r, x - 1), h, w, x - 1, h - 2 - r, gravity, reg, rng)
  {
  }

  /** A null grid gives null; any other grid comes back with the same
      height, the same width and the same multiset of cells, because the
      step only swaps. */
  lemma PlanetSurfaceKeeps(planetGrid: Option<Grid>, mass: real, reg: Registry, rng: Oracle)
    requires planetGrid.Some? ==> Planar(planetGrid.value)
    ensures var r := PlanetSurface(planetGrid, mass, reg, rng);
      (r.None? <==> planetGrid.None?) &&
      (planetGrid.Some? ==>
        var g := planetGrid.value;
        IsRect(r.value, |g|, |g[0]|) && Bag(r.value) == Bag(g))
  {
    if planetGrid.Some? {
      var g := planetGrid.value;
      if |g| > 1 {
        SettleUpToBag(g, |g|, |g[0]|, Gravity(mass), reg, rng, |g| - 2, |g[0]|);
      }
    }
  }

  lemma {:induction false} IdleUpTo(g0: Grid, h: nat, w: nat, gravity: int, reg: Registry, rng: Oracle,
                                    r: int, x: int)
    requires IsRect(g0, h, w) && 0 <= r < h - 1 && 0 <= x <= w
    requires forall i, j :: 0 <= i < h - 1 && 0 <= j < w ==> Empty(reg, g0[i][j])
    ensures SettleUpTo(g0, h, w, gravity, reg, rng, r, x) == g0
    decreases r, x
  {
    if x == 0 {
      if r > 0 {
        IdleUpTo(g0, h, w, gravity, reg, rng, r - 1, w);
      }
    } else {
      IdleUpTo(g0, h, w, gravity, reg, rng, r, x - 1);
    }
  }

  /** The bottom row is never a source: when every cell above it is unknown
      or vacuum, nothing moves, whatever the bottom row holds (a liquid
      there next to vacuum stays put). */
  lemma BottomRowIdle(g: Grid, h: nat, w: nat, gravity: int, reg: Registry, rng: Oracle)
    requires IsRect(g, h, w)
    requires forall i, j :: 0 <= i < h - 1 && 0 <= j < w ==> Empty(reg, g[i][j])
    ensures Settle(g, h, w, gravity, reg, rng) == g
  {
    if h > 1 {
      IdleUpTo(g, h, w, gravity, reg, rng, h - 2, w);
    }
  }

  // ----- The step, in place -----

  /** The fall loop of one cell. */
  method FallTargetAt(next: array2<Cell>, x: int, y: int, gravity: int, reg: Registry, density: real)
    returns (targetY: int)
    requires 0 <= x < next.Length1 && 0 <= y < next.Length0
    ensures targetY == FallFrom(Snap(next), next.Length0, next.Length1, x, y, 1, gravity, reg, density)
  {
    ghost var g := Snap(next);
    targetY := y;
    var i := 1;
    while i <= gravity
      invariant 1 <= i <= Max(gravity, 0) + 1 && targetY == y + i - 1 < next.Length0
      invariant FallFrom(g, next.Length0, next.Length1, x, y, 1, gravity, reg, density)
             == FallFrom(g, next.Length0, next.Length1, x, y, i, gravity, reg, density)
      decreases gravity + 1 - i
    {
      var newY := y + i;
      if newY >= next.Length0 {
        break;
      }
      var belowCell := next[newY, x];
      if belowCell.symbol !in reg || reg[belowCell.symbol].symbol == "VACUUM"
         || density > OrReal(reg[belowCell.symbol].density, 0.0) {
        targetY := newY;
      } else {
        break;
      }
      i := i + 1;
    }
  }

  /** The rise loop of one cell. */
  method RiseTargetAt(next: array2<Cell>, x: int, y: int, gravity: int, reg: Registry, density: real)
    returns (targetY: int)
    requires 0 <= x < next.Length1 && 0 <= y < next.Length0
    ensures targetY == RiseFrom(Snap(next), next.Length0, next.Length1, x, y, 1, gravity, reg, density)
  {
    ghost var g := Snap(next);
    targetY := y;
    var i := 1;
    while i <= gravity
      invariant 1 <= i <= Max(gravity, 0) + 1 && 0 <= targetY == y - i + 1
      invariant RiseFrom(g, next.Length0, next.Length1, x, y, 1, gravity, reg, density)
             == RiseFrom(g, next.Length0, next.Length1, x, y, i, gravity, reg, density)
      decreases gravity + 1 - i
    {
      var newY := y - i;
      if newY < 0 {
        break;
      }
      var aboveCell := next[newY, x];
      if aboveCell.symbol !in reg || reg[aboveCell.symbol].symbol == "VACUUM"
         || density < OrReal(reg[aboveCell.symbol].density, 0.0) {
        targetY := newY;
      } else {
        break;
      }
      i := i + 1;
    }
  }

  /** One visit, in place on the clone. */
  method SettleAt(next: array2<Cell>, x: int, y: int, gravity: int, reg: Registry, rng: Oracle)
    requires 0 <= x < next.Length1 && 0 <= y < next.Length0
    modifies next
    ensures Snap(next) == SettleStep(old(Snap(next)), next.Length0, next.Length1, x, y, gravity, reg, rng)
  {
    var currentCell := next[y, x];
    if currentCell.symbol !in reg || reg[currentCell.symbol].symbol == "VACUUM" {
      return;
    }
    var currentElement := reg[currentCell.symbol];
    var phase := currentElement.phase;
    var density := OrReal(currentElement.density, 1.0);
    if phase == "Solid" || phase == "Liquid" {
      var targetY := FallTargetAt(next, x, y, gravity, reg, density);
      if targetY != y {
        Exchange(next, y, x, targetY, x);
        return;
      }
    }
    if phase == "Liquid" {
      var sideX := SideOf(x, rng(x, y, 0));
      if 0 <= sideX < next.Length1 {
        var sideCell := next[y, sideX];
        if sideCell.symbol in reg && reg[sideCell.symbol].symbol == "VACUUM" {
          Exchange(next, y, x, y, sideX);
        }
      }
    } else if phase == "Gas" {
      var targetY := RiseTargetAt(next, x, y, gravity, reg, density);
      if targetY != y {
        Exchange(next, y, x, targetY, x);
      }
    }
  }

  /** One step of the scan: the cell (x, h - 2 - r) settles. */
  method SettleNext(next: array2<Cell>, g: Grid, gravity: int, reg: Registry, rng: Oracle, r: int, x: int)
    requires IsRect(g, next.Length0, next.Length1) && 0 <= r < next.Length0 - 1 && 0 <= x < next.Length1
    requires Snap(next) == SettleUpTo(g, next.Length0, next.Length1, gravity, reg, rng, r, x)
    modifies next
    ensures Snap(next) == SettleUpTo(g, next.Length0, next.Length1, gravity, reg, rng, r, x + 1)
  {
    SettleAt(next, x, next.Length0 - 2 - r, gravity, reg, rng);
    SettleUpToUnfold(g, next.Length0, next.Length1, gravity, reg, rng, r, x + 1);
  }

  /** One pass of the scan's outer loop: row h - 2 - r, left to right. */
  method SettleRow(next: array2<Cell>, g: Grid, gravity: int, reg: Registry, rng: Oracle, r: int)
    requires IsRect(g, next.Length0, next.Length1) && 0 <= r < next.Length0 - 1
    requires Snap(next) == if r == 0 then g else SettleUpTo(g, next.Length0, next.Length1, gravity, reg, rng, r - 1, next.Length1)
    modifies next
    ensures Snap(next) == SettleUpTo(g, next.Length0, next.Length1, gravity, reg, rng, r, next.Length1)
  {
    for x := 0 to next.Length1
      invariant Snap(next) == SettleUpTo(g, next.Length0, next.Length1, gravity, reg, rng, r, x)
    {
      SettleNext(next, g, gravity, reg, rng, r, x);
    }
  }

  /** `updatePlanetSurface(planetGrid, body)`, with the body's mass, the
      registry and the liquids' draws as parameters. */
  method UpdatePlanetSurface(planetGrid: Option<Grid>, mass: real, reg: Registry, rng: Oracle)
    returns (surface: Option<Grid>)
    requires planetGrid.Some? ==> Planar(planetGrid.value)
    ensures surface == PlanetSurface(planetGrid, mass, reg, rng)
  {
    if planetGrid.None? {
      return None;
    }
    var g := planetGrid.value;
    var gridHeight, gridWidth := |g|, |g[0]|;
    var nextGrid := FromGrid(g, gridHeight, gridWidth);
    var gravity := Gravity(mass);
    for r := 0 to gridHeight - 1
      invariant nextGrid.Length0 == gridHeight && nextGrid.Length1 == gridWidth
      invariant Snap(nextGrid) == if r == 0 then g else SettleUpTo(g, gridHeight, gridWidth, gravity, reg, rng, r - 1, gridWidth)
    {
      SettleRow(nextGrid, g, gravity, reg, rng, r);
    }
    surface := Some(Snap(nextGrid));
  }
}
