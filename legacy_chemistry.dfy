/** The hard-coded chemistry pass of the legacy simulator (script.js). Each
    cell is visited in scan order; the visit reads the grid as it was at the
    start of the tick and writes whole cells of the successor:
    - FIRE ages by one tick and turns into vacuum once its age passes FIRE's
      lifespan;
    - O with two or more H neighbours becomes H2O and the first two H become
      vacuum;
    - NA next to CL (or CL next to NA) becomes NACL on a draw below 0.2,
      and that neighbour becomes vacuum;
    - C with four or more H neighbours becomes CH4 on a draw below 0.05,
      and the first four H become vacuum;
    - a flammable cell next to O catches fire on a draw below 0.1, and so
      does that O cell. */
module LegacyChemistry {
  import opened Common
  import opened Grids
  import opened Elements
  import opened Neighbourhood
  import opened LegacyCells

  /** `cell.age || 0`. */
  function AgeOf(c: LCell): int {
    if c.age.Some? then c.age.value else 0
  }

  /** `{ symbol: 'FIRE', age: 0 }`. */
  function Ignited(): LCell {
    LCell("FIRE", false, false, Some(0))
  }

  /** The successor cell of a fire whose pre-tick cell is c and whose
      successor cell is cur: `age > elements.FIRE.lifespan` compares with
      `undefined` as false when FIRE has no lifespan. */
  function FireCell(reg: Registry, c: LCell, cur: LCell): LCell
    requires "FIRE" in reg
  {
    var age := AgeOf(c) + 1;
    var life := reg["FIRE"].lifespan;
    if life.Some? && age > life.value then Plain("VACUUM") else cur.(age := Some(age))
  }

  function FireStep(grid: LGrid, g: LGrid, reg: Registry, x: int, y: int): (r: LGrid)
    requires Square(grid) && Square(g) && InSquare(x, y) && "FIRE" in reg
    ensures Square(r)
  {
    var v := FireCell(reg, grid[y][x], g[y][x]);
    PutShape(g, y, x, v, GRID_SIZE, GRID_SIZE);
    Put(g, y, x, v)
  }

  /** The cells of ps[..n] turned into vacuum, in order. */
  function ClearFirst(g: LGrid, ps: seq<(int, int)>, n: nat): (r: LGrid)
    requires Square(g) && n <= |ps| && forall i :: 0 <= i < |ps| ==> InSquare(ps[i].0, ps[i].1)
    ensures Square(r)
  {
    if n == 0 then g
    else
      var g1 := ClearFirst(g, ps, n - 1);
      PutShape(g1, ps[n - 1].1, ps[n - 1].0, Plain("VACUUM"), GRID_SIZE, GRID_SIZE);
      Put(g1, ps[n - 1].1, ps[n - 1].0, Plain("VACUUM"))
  }

  /** The oxygen rule. */
  function Water(grid: LGrid, g: LGrid, x: int, y: int): (r: LGrid)
    requires Square(grid) && Square(g) && InSquare(x, y)
    ensures Square(r)
  {
    var hs := Matching(grid, x, y, "H");
    if |hs| >= 2 then
      PutShape(g, y, x, Plain("H2O"), GRID_SIZE, GRID_SIZE);
      ClearFirst(Put(g, y, x, Plain("H2O")), hs, 2)
    else g
  }

  /** The carbon rule: the draw is made only when four H are there. */
  function Methane(grid: LGrid, g: LGrid, rng: Oracle, x: int, y: int): (r: LGrid)
    requires Square(grid) && Square(g) && InSquare(x, y)
    ensures Square(r)
  {
    var hs := Matching(grid, x, y, "H");
    if |hs| >= 4 && rng(x, y, 8) < 0.05 then
      PutShape(g, y, x, Plain("CH4"), GRID_SIZE, GRID_SIZE);
      ClearFirst(Put(g, y, x, Plain("CH4")), hs, 4)
    else g
  }

  predicate Opposite(a: string, b: string) {
    (a == "NA" && b == "CL") || (a == "CL" && b == "NA")
  }

  /** The salt rule fires at the k-th offset: the neighbour there is the
      opposite ion and its draw, made only then, is below 0.2. */
  predicate SaltFires(grid: LGrid, rng: Oracle, x: int, y: int, k: int)
    requires Square(grid) && InSquare(x, y) && 0 <= k < |OFFSETS|
  {
    var nx, ny := x + OFFSETS[k].0, y + OFFSETS[k].1;
    InSquare(nx, ny) && Opposite(grid[y][x].symbol, grid[ny][nx].symbol) && rng(x, y, k) < 0.2
  }

  /** The salt rule at the k-th offset. */
  function SaltOne(grid: LGrid, g: LGrid, rng: Oracle, x: int, y: int, k: int): (r: LGrid)
    requires Square(grid) && Square(g) && InSquare(x, y) && 0 <= k < |OFFSETS|
    ensures Square(r)
  {
    var nx, ny := x + OFFSETS[k].0, y + OFFSETS[k].1;
    if SaltFires(grid, rng, x, y, k) then
      PutShape(g, y, x, Plain("NACL"), GRID_SIZE, GRID_SIZE);
      PutShape(Put(g, y, x, Plain("NACL")), ny, nx, Plain("VACUUM"), GRID_SIZE, GRID_SIZE);
      Put(Put(g, y, x, Plain("NACL")), ny, nx, Plain("VACUUM"))
    else g
  }

  /** The salt rule over the first n offsets. */
  function SaltUpTo(grid: LGrid, g: LGrid, rng: Oracle, x: int, y: int, n: nat): (r: LGrid)
    requires Square(grid) && Square(g) && InSquare(x, y) && n <= |OFFSETS|
    ensures Square(r)
  {
    if n == 0 then g else SaltOne(grid, SaltUpTo(grid, g, rng, x, y, n - 1), rng, x, y, n - 1)
  }

  /** The combustion rule fires at the k-th offset: the neighbour there is
      O and its draw (draws 9 to 16) is below 0.1. */
  predicate IgniteFires(grid: LGrid, rng: Oracle, x: int, y: int, k: int)
    requires Square(grid) && 0 <= k < |OFFSETS|
  {
    var nx, ny := x + OFFSETS[k].0, y + OFFSETS[k].1;
    InSquare(nx, ny) && grid[ny][nx].symbol == "O" && rng(x, y, 9 + k) < 0.1
  }

  /** The combustion rule at the k-th offset. */
  function IgniteOne(grid: LGrid, g: LGrid, rng: Oracle, x: int, y: int, k: int): (r: LGrid)
    requires Square(grid) && Square(g) && InSquare(x, y) && 0 <= k < |OFFSETS|
    ensures Square(r)
  {
    var nx, ny := x + OFFSETS[k].0, y + OFFSETS[k].1;
    if IgniteFires(grid, rng, x, y, k) then
      PutShape(g, y, x, Ignited(), GRID_SIZE, GRID_SIZE);
      PutShape(Put(g, y, x, Ignited()), ny, nx, Ignited(), GRID_SIZE, GRID_SIZE);
      Put(Put(g, y, x, Ignited()), ny, nx, Ignited())
    else g
  }

  /** The combustion rule over the first n offsets. */
  function IgniteUpTo(grid: LGrid, g: LGrid, rng: Oracle, x: int, y: int, n: nat): (r: LGrid)
    requires Square(grid) && Square(g) && InSquare(x, y) && n <= |OFFSETS|
    ensures Square(r)
  {
    if n == 0 then g else IgniteOne(grid, IgniteUpTo(grid, g, rng, x, y, n - 1), rng, x, y, n - 1)
  }

  /** The visit of (x, y): an unknown cell is skipped, a fire only ages, and
      the other rules apply in turn (a cell can match more than one). */
  function ChemStep(grid: LGrid, g: LGrid, reg: Registry, rng: Oracle, x: int, y: int): (r: LGrid)
    requires Square(grid) && Square(g) && InSquare(x, y)
    ensures Square(r)
  {
    var c := grid[y][x];
    if c.symbol !in reg then g
    else if c.symbol == "FIRE" then FireStep(grid, g, reg, x, y)
    else
      var g1 := if c.symbol == "O" then Water(grid, g, x, y) else g;
      var g2 := if c.symbol == "NA" || c.symbol == "CL" then SaltUpTo(grid, g1, rng, x, y, |OFFSETS|) else g1;
      var g3 := if c.symbol == "C" then Methane(grid, g2, rng, x, y) else g2;
      if reg[c.symbol].flammable then IgniteUpTo(grid, g3, rng, x, y, |OFFSETS|) else g3
  }

  function ChemUpTo(grid: LGrid, g0: LGrid, reg: Registry, rng: Oracle, y: int, x: int): (g: LGrid)
    requires Square(grid) && Square(g0) && 0 <= y < GRID_SIZE && 0 <= x <= GRID_SIZE
    ensures Square(g)
    decreases y, x
  {
    if x == 0 then (if y == 0 then g0 else ChemUpTo(grid, g0, reg, rng, y - 1, GRID_SIZE))
    else ChemStep(grid, ChemUpTo(grid, g0, reg, rng, y, x - 1), reg, rng, x - 1, y)
  }

  function ChemGrid(grid: LGrid, g0: LGrid, reg: Registry, rng: Oracle): (g: LGrid)
    requires Square(grid) && Square(g0)
    ensures Square(g)
  {
    ChemUpTo(grid, g0, reg, rng, GRID_SIZE - 1, GRID_SIZE)
  }

  // ----- Properties -----

  /** A fire ages one tick per visit. */
  function Burn(reg: Registry, c: LCell, k: nat): LCell
    requires "FIRE" in reg
  {
    if k == 0 then c
    else
      var d := Burn(reg, c, k - 1);
      if d.symbol == "FIRE" then FireCell(reg, d, d) else d
  }

  /** A fire without an age counts as age 0, is at age k after k ticks for
      every k up to FIRE's lifespan of 15, and is vacuum after the 16th. */
  lemma {:induction false} FireLifetime(reg: Registry, c: LCell, k: nat)
    requires Specials(reg) && c.symbol == "FIRE" && c.age.None? && k <= 16
    ensures k == 0 ==> Burn(reg, c, k) == c
    ensures 0 < k <= 15 ==> Burn(reg, c, k) == c.(age := Some(k))
    ensures k == 16 ==> Burn(reg, c, k) == Plain("VACUUM")
  {
    if k > 1 {
      FireLifetime(reg, c, k - 1);
    }
  }

  /** A fire's visit writes only its own cell. */
  lemma FireStepEffect(grid: LGrid, g: LGrid, reg: Registry, rng: Oracle, x: int, y: int)
    requires Square(grid) && Square(g) && InSquare(x, y) && Specials(reg) && grid[y][x].symbol == "FIRE"
    ensures var r := ChemStep(grid, g, reg, rng, x, y); var age := AgeOf(grid[y][x]) + 1;
      r[y][x] == (if age > 15 then Plain("VACUUM") else g[y][x].(age := Some(age))) &&
      forall i, j :: InSquare(j, i) && (j, i) != (x, y) ==> r[i][j] == g[i][j]
  {
  }

  /** One step of the salt loop, cell by cell. */
  lemma SaltOneCell(grid: LGrid, g: LGrid, rng: Oracle, x: int, y: int, k: int, i: int, j: int)
    requires Square(grid) && Square(g) && InSquare(x, y) && 0 <= k < |OFFSETS| && InSquare(j, i)
    ensures SaltOne(grid, g, rng, x, y, k)[i][j] ==
      if SaltFires(grid, rng, x, y, k) && (j, i) == (x + OFFSETS[k].0, y + OFFSETS[k].1) then Plain("VACUUM")
      else if SaltFires(grid, rng, x, y, k) && (j, i) == (x, y) then Plain("NACL")
      else g[i][j]
  {
    assert OFFSETS[k] != (0, 0);
  }

  lemma {:induction false} SaltCentre(grid: LGrid, g: LGrid, rng: Oracle, x: int, y: int, n: nat)
    requires Square(grid) && Square(g) && InSquare(x, y) && n <= |OFFSETS|
    ensures SaltUpTo(grid, g, rng, x, y, n)[y][x] ==
      if exists k :: 0 <= k < n && SaltFires(grid, rng, x, y, k) then Plain("NACL") else g[y][x]
  {
    if n > 0 {
      SaltCentre(grid, g, rng, x, y, n - 1);
      var prev := SaltUpTo(grid, g, rng, x, y, n - 1);
      SaltOneCell(grid, prev, rng, x, y, n - 1, y, x);
      if SaltFires(grid, rng, x, y, n - 1) {
        assert 0 <= n - 1 < n && SaltFires(grid, rng, x, y, n - 1);
      } else {
        forall k | 0 <= k < n && SaltFires(grid, rng, x, y, k) ensures k < n - 1 { }
      }
    }
  }

  lemma {:induction false} SaltNeighbours(grid: LGrid, g: LGrid, rng: Oracle, x: int, y: int, n: nat)
    requires Square(grid) && Square(g) && InSquare(x, y) && n <= |OFFSETS|
    ensures forall k :: 0 <= k < n && SaltFires(grid, rng, x, y, k) ==>
      SaltUpTo(grid, g, rng, x, y, n)[y + OFFSETS[k].1][x + OFFSETS[k].0] == Plain("VACUUM")
  {
    if n > 0 {
      SaltNeighbours(grid, g, rng, x, y, n - 1);
      var prev := SaltUpTo(grid, g, rng, x, y, n - 1);
      forall k | 0 <= k < n && SaltFires(grid, rng, x, y, k)
        ensures SaltUpTo(grid, g, rng, x, y, n)[y + OFFSETS[k].1][x + OFFSETS[k].0] == Plain("VACUUM")
      {
        var qx, qy := x + OFFSETS[k].0, y + OFFSETS[k].1;
        SaltOneCell(grid, prev, rng, x, y, n - 1, qy, qx);
        assert OFFSETS[k] != (0, 0);
      }
    }
  }

  /** Cell (i, j) changed by the first n offsets lies next to the centre
      where the rule fired, given the same for the first n - 1. */
  lemma SaltNearStep(grid: LGrid, g: LGrid, rng: Oracle, x: int, y: int, n: nat, i: int, j: int)
    requires Square(grid) && Square(g) && InSquare(x, y) && 0 < n <= |OFFSETS| && InSquare(j, i)
    requires SaltUpTo(grid, g, rng, x, y, n - 1)[i][j] != g[i][j] ==>
      (j, i) == (x, y) ||
      exists k :: 0 <= k < n - 1 && SaltFires(grid, rng, x, y, k) && (j, i) == (x + OFFSETS[k].0, y + OFFSETS[k].1)
    ensures SaltUpTo(grid, g, rng, x, y, n)[i][j] != g[i][j] ==>
      (j, i) == (x, y) ||
      exists k :: 0 <= k < n && SaltFires(grid, rng, x, y, k) && (j, i) == (x + OFFSETS[k].0, y + OFFSETS[k].1)
  {
    var prev := SaltUpTo(grid, g, rng, x, y, n - 1);
    SaltOneCell(grid, prev, rng, x, y, n - 1, i, j);
    if SaltFires(grid, rng, x, y, n - 1) && (j, i) == (x + OFFSETS[n - 1].0, y + OFFSETS[n - 1].1) {
      assert 0 <= n - 1 < n && SaltFires(grid, rng, x, y, n - 1) && (j, i) == (x + OFFSETS[n - 1].0, y + OFFSETS[n - 1].1);
    }
  }

  lemma {:induction false} SaltOnlyNear(grid: LGrid, g: LGrid, rng: Oracle, x: int, y: int, n: nat)
    requires Square(grid) && Square(g) && InSquare(x, y) && n <= |OFFSETS|
    ensures forall i, j :: InSquare(j, i) && SaltUpTo(grid, g, rng, x, y, n)[i][j] != g[i][j] ==>
      (j, i) == (x, y) ||
      exists k :: 0 <= k < n && SaltFires(grid, rng, x, y, k) && (j, i) == (x + OFFSETS[k].0, y + OFFSETS[k].1)
  {
    if n > 0 {
      SaltOnlyNear(grid, g, rng, x, y, n - 1);
      forall i, j | InSquare(j, i)
        ensures SaltUpTo(grid, g, rng, x, y, n)[i][j] != g[i][j] ==>
          (j, i) == (x, y) ||
          exists k :: 0 <= k < n && SaltFires(grid, rng, x, y, k) && (j, i) == (x + OFFSETS[k].0, y + OFFSETS[k].1)
      {
        SaltNearStep(grid, g, rng, x, y, n, i, j);
      }
    }
  }

  /** The salt loop over the first n offsets: the centre becomes NACL
      exactly when the rule fires at one of them, each neighbour where it
      fires becomes vacuum, and no other cell changes. */
  lemma SaltUpToEffect(grid: LGrid, g: LGrid, rng: Oracle, x: int, y: int, n: nat)
    requires Square(grid) && Square(g) && InSquare(x, y) && n <= |OFFSETS|
    ensures SaltUpTo(grid, g, rng, x, y, n)[y][x] ==
      if exists k :: 0 <= k < n && SaltFires(grid, rng, x, y, k) then Plain("NACL") else g[y][x]
    ensures forall k :: 0 <= k < n && SaltFires(grid, rng, x, y, k) ==>
      SaltUpTo(grid, g, rng, x, y, n)[y + OFFSETS[k].1][x + OFFSETS[k].0] == Plain("VACUUM")
    ensures forall i, j :: InSquare(j, i) && SaltUpTo(grid, g, rng, x, y, n)[i][j] != g[i][j] ==>
      (j, i) == (x, y) ||
      exists k :: 0 <= k < n && SaltFires(grid, rng, x, y, k) && (j, i) == (x + OFFSETS[k].0, y + OFFSETS[k].1)
  {
    SaltCentre(grid, g, rng, x, y, n);
    SaltNeighbours(grid, g, rng, x, y, n);
    SaltOnlyNear(grid, g, rng, x, y, n);
  }

  /** One step of the combustion loop, cell by cell. */
  lemma IgniteOneCell(grid: LGrid, g: LGrid, rng: Oracle, x: int, y: int, k: int, i: int, j: int)
    requires Square(grid) && Square(g) && InSquare(x, y) && 0 <= k < |OFFSETS| && InSquare(j, i)
    ensures IgniteOne(grid, g, rng, x, y, k)[i][j] ==
      if IgniteFires(grid, rng, x, y, k) && (j, i) == (x + OFFSETS[k].0, y + OFFSETS[k].1) then Ignited()
      else if IgniteFires(grid, rng, x, y, k) && (j, i) == (x, y) then Ignited()
      else g[i][j]
  {
    assert OFFSETS[k] != (0, 0);
  }

  lemma {:induction false} IgniteCentre(grid: LGrid, g: LGrid, rng: Oracle, x: int, y: int, n: nat)
    requires Square(grid) && Square(g) && InSquare(x, y) && n <= |OFFSETS|
    ensures IgniteUpTo(grid, g, rng, x, y, n)[y][x] ==
      if exists k :: 0 <= k < n && IgniteFires(grid, rng, x, y, k) then Ignited() else g[y][x]
  {
    if n > 0 {
      IgniteCentre(grid, g, rng, x, y, n - 1);
      var prev := IgniteUpTo(grid, g, rng, x, y, n - 1);
      IgniteOneCell(grid, prev, rng, x, y, n - 1, y, x);
      if IgniteFires(grid, rng, x, y, n - 1) {
        assert 0 <= n - 1 < n && IgniteFires(grid, rng, x, y, n - 1);
      } else {
        forall k | 0 <= k < n && IgniteFires(grid, rng, x, y, k) ensures k < n - 1 { }
      }
    }
  }

  lemma {:induction false} IgniteNeighbours(grid: LGrid, g: LGrid, rng: Oracle, x: int, y: int, n: nat)
    requires Square(grid) && Square(g) && InSquare(x, y) && n <= |OFFSETS|
    ensures forall k :: 0 <= k < n && IgniteFires(grid, rng, x, y, k) ==>
      IgniteUpTo(grid, g, rng, x, y, n)[y + OFFSETS[k].1][x + OFFSETS[k].0] == Ignited()
  {
    if n > 0 {
      IgniteNeighbours(grid, g, rng, x, y, n - 1);
      var prev := IgniteUpTo(grid, g, rng, x, y, n - 1);
      forall k | 0 <= k < n && IgniteFires(grid, rng, x, y, k)
        ensures IgniteUpTo(grid, g, rng, x, y, n)[y + OFFSETS[k].1][x + OFFSETS[k].0] == Ignited()
      {
        var qx, qy := x + OFFSETS[k].0, y + OFFSETS[k].1;
        IgniteOneCell(grid, prev, rng, x, y, n - 1, qy, qx);
        assert OFFSETS[k] != (0, 0);
      }
    }
  }

  /** Cell (i, j) changed by the first n offsets lies next to the centre
      where the rule fired, given the same for the first n - 1. */
  lemma IgniteNearStep(grid: LGrid, g: LGrid, rng: Oracle, x: int, y: int, n: nat, i: int, j: int)
    requires Square(grid) && Square(g) && InSquare(x, y) && 0 < n <= |OFFSETS| && InSquare(j, i)
    requires IgniteUpTo(grid, g, rng, x, y, n - 1)[i][j] != g[i][j] ==>
      (j, i) == (x, y) ||
      exists k :: 0 <= k < n - 1 && IgniteFires(grid, rng, x, y, k) && (j, i) == (x + OFFSETS[k].0, y + OFFSETS[k].1)
    ensures IgniteUpTo(grid, g, rng, x, y, n)[i][j] != g[i][j] ==>
      (j, i) == (x, y) ||
      exists k :: 0 <= k < n && IgniteFires(grid, rng, x, y, k) && (j, i) == (x + OFFSETS[k].0, y + OFFSETS[k].1)
  {
    var prev := IgniteUpTo(grid, g, rng, x, y, n - 1);
    IgniteOneCell(grid, prev, rng, x, y, n - 1, i, j);
    if IgniteFires(grid, rng, x, y, n - 1) && (j, i) == (x + OFFSETS[n - 1].0, y + OFFSETS[n - 1].1) {
      assert 0 <= n - 1 < n && IgniteFires(grid, rng, x, y, n - 1) && (j, i) == (x + OFFSETS[n - 1].0, y + OFFSETS[n - 1].1);
    }
  }

  lemma {:induction false} IgniteOnlyNear(grid: LGrid, g: LGrid, rng: Oracle, x: int, y: int, n: nat)
    requires Square(grid) && Square(g) && InSquare(x, y) && n <= |OFFSETS|
    ensures forall i, j :: InSquare(j, i) && IgniteUpTo(grid, g, rng, x, y, n)[i][j] != g[i][j] ==>
      (j, i) == (x, y) ||
      exists k :: 0 <= k < n && IgniteFires(grid, rng, x, y, k) && (j, i) == (x + OFFSETS[k].0, y + OFFSETS[k].1)
  {
    if n > 0 {
      IgniteOnlyNear(grid, g, rng, x, y, n - 1);
      forall i, j | InSquare(j, i)
        ensures IgniteUpTo(grid, g, rng, x, y, n)[i][j] != g[i][j] ==>
          (j, i) == (x, y) ||
          exists k :: 0 <= k < n && IgniteFires(grid, rng, x, y, k) && (j, i) == (x + OFFSETS[k].0, y + OFFSETS[k].1)
      {
        IgniteNearStep(grid, g, rng, x, y, n, i, j);
      }
    }
  }

  /** The combustion loop over the first n offsets: the centre catches fire
      exactly when the rule fires at one of them, so does each neighbour
      where it fires, and no other cell changes. */
  lemma IgniteUpToEffect(grid: LGrid, g: LGrid, rng: Oracle, x: int, y: int, n: nat)
    requires Square(grid) && Square(g) && InSquare(x, y) && n <= |OFFSETS|
    ensures IgniteUpTo(grid, g, rng, x, y, n)[y][x] ==
      if exists k :: 0 <= k < n && IgniteFires(grid, rng, x, y, k) then Ignited() else g[y][x]
    ensures forall k :: 0 <= k < n && IgniteFires(grid, rng, x, y, k) ==>
      IgniteUpTo(grid, g, rng, x, y, n)[y + OFFSETS[k].1][x + OFFSETS[k].0] == Ignited()
    ensures forall i, j :: InSquare(j, i) && IgniteUpTo(grid, g, rng, x, y, n)[i][j] != g[i][j] ==>
      (j, i) == (x, y) ||
      exists k :: 0 <= k < n && IgniteFires(grid, rng, x, y, k) && (j, i) == (x + OFFSETS[k].0, y + OFFSETS[k].1)
  {
    IgniteCentre(grid, g, rng, x, y, n);
    IgniteNeighbours(grid, g, rng, x, y, n);
    IgniteOnlyNear(grid, g, rng, x, y, n);
  }

  lemma {:induction false} ClearFirstEffect(g: LGrid, ps: seq<(int, int)>, n: nat)
    requires Square(g) && n <= |ps| && forall i :: 0 <= i < |ps| ==> InSquare(ps[i].0, ps[i].1)
    ensures forall i, j :: InSquare(j, i) ==>
      ClearFirst(g, ps, n)[i][j] == if (j, i) in ps[..n] then Plain("VACUUM") else g[i][j]
  {
    if n > 0 {
      ClearFirstEffect(g, ps, n - 1);
      var g1 := ClearFirst(g, ps, n - 1);
      PutShape(g1, ps[n - 1].1, ps[n - 1].0, Plain("VACUUM"), GRID_SIZE, GRID_SIZE);
      assert ps[..n] == ps[..n - 1] + [ps[n - 1]];
    }
  }

  /** The H neighbours the two hydrogen rules consume are the first ones in
      scan order: every H neighbour left out of the first `count` comes
      later in the scan than each of them. */
  lemma FirstMatches(grid: LGrid, x: int, y: int, count: nat)
    requires Square(grid) && count <= |Matching(grid, x, y, "H")|
    ensures var hs := Matching(grid, x, y, "H");
      forall p: (int, int) :: InSquare(p.0, p.1) && Adjacent(x, y, p) && grid[p.1][p.0].symbol == "H" && p !in hs[..count] ==>
        forall k :: 0 <= k < count ==> Rank(x, y, hs[k]) < Rank(x, y, p)
  {
    var hs := Matching(grid, x, y, "H");
    MatchingExact(grid, x, y, "H");
    forall p: (int, int) | InSquare(p.0, p.1) && Adjacent(x, y, p) && grid[p.1][p.0].symbol == "H" && p !in hs[..count]
      ensures forall k :: 0 <= k < count ==> Rank(x, y, hs[k]) < Rank(x, y, p)
    {
      var m :| 0 <= m < |hs| && hs[m] == p;
      assert forall k :: 0 <= k < count ==> hs[..count][k] == hs[k];
    }
  }

  /** A hydrogen rule's write: the centre becomes the product and exactly
      the first `count` H neighbours become vacuum. */
  lemma Consumes(grid: LGrid, g: LGrid, x: int, y: int, product: string, count: nat)
    requires Square(grid) && Square(g) && InSquare(x, y)
    requires count <= |Matching(grid, x, y, "H")|
    ensures var hs := Matching(grid, x, y, "H"); var r := ClearFirst(Put(g, y, x, Plain(product)), hs, count);
      forall i, j :: InSquare(j, i) ==>
        r[i][j] == if (j, i) in hs[..count] then Plain("VACUUM") else if (j, i) == (x, y) then Plain(product) else g[i][j]
  {
    var hs := Matching(grid, x, y, "H");
    PutShape(g, y, x, Plain(product), GRID_SIZE, GRID_SIZE);
    ClearFirstEffect(Put(g, y, x, Plain(product)), hs, count);
  }

  /** Water formation: an O (not itself flammable) with at least two H
      neighbours becomes H2O and its first two H neighbours vacuum; with
      fewer, its visit changes nothing. Two H neighbours are enough even
      when the second was already consumed earlier in the scan. */
  lemma WaterFormation(grid: LGrid, g: LGrid, reg: Registry, rng: Oracle, x: int, y: int)
    requires Square(grid) && Square(g) && InSquare(x, y)
    requires grid[y][x].symbol == "O" && "O" in reg && !reg["O"].flammable
    ensures var hs := Matching(grid, x, y, "H"); var r := ChemStep(grid, g, reg, rng, x, y);
      (|hs| < 2 ==> r == g) &&
      (|hs| >= 2 ==> forall i, j :: InSquare(j, i) ==>
        r[i][j] == if (j, i) == hs[0] || (j, i) == hs[1] then Plain("VACUUM")
                   else if (j, i) == (x, y) then Plain("H2O") else g[i][j])
  {
    var hs := Matching(grid, x, y, "H");
    if |hs| >= 2 {
      Consumes(grid, g, x, y, "H2O", 2);
      assert forall p :: p in hs[..2] <==> p == hs[0] || p == hs[1];
    }
  }

  /** Methane formation: a C (not itself flammable) with at least four H
      neighbours becomes CH4 on a draw below 0.05, and its first four H
      neighbours vacuum; otherwise its visit changes nothing. */
  lemma MethaneFormation(grid: LGrid, g: LGrid, reg: Registry, rng: Oracle, x: int, y: int)
    requires Square(grid) && Square(g) && InSquare(x, y)
    requires grid[y][x].symbol == "C" && "C" in reg && !reg["C"].flammable
    ensures var hs := Matching(grid, x, y, "H"); var r := ChemStep(grid, g, reg, rng, x, y);
      (|hs| < 4 || rng(x, y, 8) >= 0.05 ==> r == g) &&
      (|hs| >= 4 && rng(x, y, 8) < 0.05 ==> forall i, j :: InSquare(j, i) ==>
        r[i][j] == if (j, i) in hs[..4] then Plain("VACUUM")
                   else if (j, i) == (x, y) then Plain("CH4") else g[i][j])
  {
    var hs := Matching(grid, x, y, "H");
    if |hs| >= 4 && rng(x, y, 8) < 0.05 {
      Consumes(grid, g, x, y, "CH4", 4);
    }
  }

  // ----- Known symbols -----

  lemma {:induction false} ClearFirstKnown(reg: Registry, g: LGrid, ps: seq<(int, int)>, n: nat)
    requires Square(g) && n <= |ps| && forall i :: 0 <= i < |ps| ==> InSquare(ps[i].0, ps[i].1)
    requires Known(reg, g) && "VACUUM" in reg
    ensures Known(reg, ClearFirst(g, ps, n))
  {
    if n > 0 {
      ClearFirstKnown(reg, g, ps, n - 1);
      KnownPut(reg, ClearFirst(g, ps, n - 1), ps[n - 1].1, ps[n - 1].0, Plain("VACUUM"));
    }
  }

  lemma {:induction false} SaltKnown(grid: LGrid, g: LGrid, reg: Registry, rng: Oracle, x: int, y: int, n: nat)
    requires Square(grid) && Square(g) && InSquare(x, y) && n <= |OFFSETS|
    requires Known(reg, g) && Specials(reg)
    ensures Known(reg, SaltUpTo(grid, g, rng, x, y, n))
  {
    if n > 0 {
      var g1 := SaltUpTo(grid, g, rng, x, y, n - 1);
      SaltKnown(grid, g, reg, rng, x, y, n - 1);
      var nx, ny := x + OFFSETS[n - 1].0, y + OFFSETS[n - 1].1;
      if InSquare(nx, ny) {
        KnownPut(reg, g1, y, x, Plain("NACL"));
        KnownPut(reg, Put(g1, y, x, Plain("NACL")), ny, nx, Plain("VACUUM"));
      }
    }
  }

  lemma {:induction false} IgniteKnown(grid: LGrid, g: LGrid, reg: Registry, rng: Oracle, x: int, y: int, n: nat)
    requires Square(grid) && Square(g) && InSquare(x, y) && n <= |OFFSETS|
    requires Known(reg, g) && Specials(reg)
    ensures Known(reg, IgniteUpTo(grid, g, rng, x, y, n))
  {
    if n > 0 {
      var g1 := IgniteUpTo(grid, g, rng, x, y, n - 1);
      IgniteKnown(grid, g, reg, rng, x, y, n - 1);
      var nx, ny := x + OFFSETS[n - 1].0, y + OFFSETS[n - 1].1;
      if InSquare(nx, ny) {
        KnownPut(reg, g1, y, x, Ignited());
        KnownPut(reg, Put(g1, y, x, Ignited()), ny, nx, Ignited());
      }
    }
  }

  lemma ChemStepKnown(grid: LGrid, g: LGrid, reg: Registry, rng: Oracle, x: int, y: int)
    requires Square(grid) && Square(g) && InSquare(x, y) && Known(reg, g) && Specials(reg)
    ensures Known(reg, ChemStep(grid, g, reg, rng, x, y))
  {
    var c := grid[y][x];
    if c.symbol in reg {
      if c.symbol == "FIRE" {
        KnownPut(reg, g, y, x, FireCell(reg, c, g[y][x]));
      } else {
        var hs := Matching(grid, x, y, "H");
        var g1 := if c.symbol == "O" then Water(grid, g, x, y) else g;
        if c.symbol == "O" && |hs| >= 2 {
          KnownPut(reg, g, y, x, Plain("H2O"));
          ClearFirstKnown(reg, Put(g, y, x, Plain("H2O")), hs, 2);
        }
        var g2 := if c.symbol == "NA" || c.symbol == "CL" then SaltUpTo(grid, g1, rng, x, y, |OFFSETS|) else g1;
        SaltKnown(grid, g1, reg, rng, x, y, |OFFSETS|);
        var g3 := if c.symbol == "C" then Methane(grid, g2, rng, x, y) else g2;
        if c.symbol == "C" && |hs| >= 4 && rng(x, y, 8) < 0.05 {
          KnownPut(reg, g2, y, x, Plain("CH4"));
          ClearFirstKnown(reg, Put(g2, y, x, Plain("CH4")), hs, 4);
        }
        IgniteKnown(grid, g3, reg, rng, x, y, |OFFSETS|);
      }
    }
  }

  /** The pass writes only symbols of the registry. */
  lemma {:induction false} ChemKnown(grid: LGrid, g0: LGrid, reg: Registry, rng: Oracle, y: int, x: int)
    requires Square(grid) && Square(g0) && 0 <= y < GRID_SIZE && 0 <= x <= GRID_SIZE
    requires Known(reg, g0) && Specials(reg)
    ensures Known(reg, ChemUpTo(grid, g0, reg, rng, y, x))
    decreases y, x
  {
    if x == 0 {
      if y > 0 {
        ChemKnown(grid, g0, reg, rng, y - 1, GRID_SIZE);
      }
    } else {
      ChemKnown(grid, g0, reg, rng, y, x - 1);
      ChemStepKnown(grid, ChemUpTo(grid, g0, reg, rng, y, x - 1), reg, rng, x - 1, y);
    }
  }

  // ----- The pass, in place -----

  method ClearFirstAt(next: array2<LCell>, ps: seq<(int, int)>, n: nat)
    requires next.Length0 == GRID_SIZE && next.Length1 == GRID_SIZE
    requires n <= |ps| && forall i :: 0 <= i < |ps| ==> InSquare(ps[i].0, ps[i].1)
    modifies next
    ensures Snap(next) == ClearFirst(old(Snap(next)), ps, n)
  {
    ghost var g := Snap(next);
    for i := 0 to n
      invariant Snap(next) == ClearFirst(g, ps, i)
    {
      Write(next, ps[i].1, ps[i].0, Plain("VACUUM"));
    }
  }

  method SaltOneAt(grid: LGrid, next: array2<LCell>, rng: Oracle, x: int, y: int, k: int)
    requires Square(grid) && next.Length0 == GRID_SIZE && next.Length1 == GRID_SIZE && InSquare(x, y)
    requires 0 <= k < |OFFSETS|
    modifies next
    ensures Snap(next) == SaltOne(grid, old(Snap(next)), rng, x, y, k)
  {
    var nx, ny := x + OFFSETS[k].0, y + OFFSETS[k].1;
    if InSquare(nx, ny) {
      var neighborSymbol := grid[ny][nx].symbol;
      if Opposite(grid[y][x].symbol, neighborSymbol) && rng(x, y, k) < 0.2 {
        Write(next, y, x, Plain("NACL"));
        Write(next, ny, nx, Plain("VACUUM"));
      }
    }
  }

  method SaltAt(grid: LGrid, next: array2<LCell>, rng: Oracle, x: int, y: int)
    requires Square(grid) && next.Length0 == GRID_SIZE && next.Length1 == GRID_SIZE && InSquare(x, y)
    modifies next
    ensures Snap(next) == SaltUpTo(grid, old(Snap(next)), rng, x, y, |OFFSETS|)
  {
    ghost var g := Snap(next);
    for i := 0 to |OFFSETS|
      invariant Snap(next) == SaltUpTo(grid, g, rng, x, y, i)
    {
      SaltOneAt(grid, next, rng, x, y, i);
    }
  }

  method IgniteOneAt(grid: LGrid, next: array2<LCell>, rng: Oracle, x: int, y: int, k: int)
    requires Square(grid) && next.Length0 == GRID_SIZE && next.Length1 == GRID_SIZE && InSquare(x, y)
    requires 0 <= k < |OFFSETS|
    modifies next
    ensures Snap(next) == IgniteOne(grid, old(Snap(next)), rng, x, y, k)
  {
    var nx, ny := x + OFFSETS[k].0, y + OFFSETS[k].1;
    if InSquare(nx, ny) && grid[ny][nx].symbol == "O" && rng(x, y, 9 + k) < 0.1 {
      Write(next, y, x, Ignited());
      Write(next, ny, nx, Ignited());
    }
  }

  method IgniteAt(grid: LGrid, next: array2<LCell>, rng: Oracle, x: int, y: int)
    requires Square(grid) && next.Length0 == GRID_SIZE && next.Length1 == GRID_SIZE && InSquare(x, y)
    modifies next
    ensures Snap(next) == IgniteUpTo(grid, old(Snap(next)), rng, x, y, |OFFSETS|)
  {
    ghost var g := Snap(next);
    for i := 0 to |OFFSETS|
      invariant Snap(next) == IgniteUpTo(grid, g, rng, x, y, i)
    {
      IgniteOneAt(grid, next, rng, x, y, i);
    }
  }

  method ChemAt(grid: LGrid, next: array2<LCell>, reg: Registry, rng: Oracle, x: int, y: int)
    requires Square(grid) && next.Length0 == GRID_SIZE && next.Length1 == GRID_SIZE && InSquare(x, y)
    modifies next
    ensures Snap(next) == ChemStep(grid, old(Snap(next)), reg, rng, x, y)
  {
    var cell := grid[y][x];
    if cell.symbol !in reg {
      return;
    }
    var element := reg[cell.symbol];
    if cell.symbol == "FIRE" {
      Write(next, y, x, FireCell(reg, cell, next[y, x]));
      return;
    }
    if cell.symbol == "O" {
      var hydrogenNeighbors := MatchingAt(grid, x, y, "H");
      if |hydrogenNeighbors| >= 2 {
        Write(next, y, x, Plain("H2O"));
        ClearFirstAt(next, hydrogenNeighbors, 2);
      }
    }
    if cell.symbol == "NA" || cell.symbol == "CL" {
      SaltAt(grid, next, rng, x, y);
    }
    if cell.symbol == "C" {
      var hydrogenNeighbors := MatchingAt(grid, x, y, "H");
      if |hydrogenNeighbors| >= 4 && rng(x, y, 8) < 0.05 {
        Write(next, y, x, Plain("CH4"));
        ClearFirstAt(next, hydrogenNeighbors, 4);
      }
    }
    if element.flammable {
      IgniteAt(grid, next, rng, x, y);
    }
  }

  /** The chemistry pass: reads the pre-tick grid, writes the successor. */
  method ApplyChemistry(grid: LGrid, next: array2<LCell>, reg: Registry, rng: Oracle)
    requires Square(grid) && next.Length0 == GRID_SIZE && next.Length1 == GRID_SIZE
    modifies next
    ensures Snap(next) == ChemGrid(grid, old(Snap(next)), reg, rng)
  {
    ghost var g0 := Snap(next);
    for y := 0 to GRID_SIZE
      invariant Snap(next) == if y == 0 then g0 else ChemUpTo(grid, g0, reg, rng, y - 1, GRID_SIZE)
    {
      for x := 0 to GRID_SIZE
        invariant Snap(next) == ChemUpTo(grid, g0, reg, rng, y, x)
      {
        ChemAt(grid, next, reg, rng, x, y);
      }
    }
  }
}
