/** The controller of js/simulation.js: the state record, `update`, the
    start/pause toggle, the two brushes of `onPaint`, `onCreatePlanet`,
    `onReturnToSpace` and `initPlanetView`. */
module Simulation {
  import opened Common
  import opened Grids
  import opened Elements
  import opened World
  import opened Space
  import opened Planet
  import opened Renderer
  import opened Brush

  /** `simulationView.mode`. */
  datatype Mode = SpaceMode | PlanetMode

  /** The cell a brush writes: the selected symbol at the element's nominal
      temperature, `element.temperature || 25`. */
  function BrushCell(symbol: string, e: Element): Cell {
    Cell(symbol, OrReal(e.temperature, 25.0), None)
  }

  // ----- The space brush -----

  /** The offsets (dx, dy) of the disc that the loops visit before (j, i),
      in their order: rows i' < i entirely and row i up to column j - 1;
      inside the loops' square, `i*i + j*j <= r*r` is `InBrush(j, i, r)`. */
  function OffsetsUpTo(r: int, i: int, j: int): seq<(int, int)>
    requires -r <= i <= r && -r <= j <= r + 1
    decreases i + r, j + r
  {
    if j == -r then (if i == -r then [] else OffsetsUpTo(r, i - 1, r + 1))
    else OffsetsUpTo(r, i, j - 1) + (if InBrush(j - 1, i, r) then [(j - 1, i)] else [])
  }

  /** Inside the loops' square, the loops' test is the disc's. */
  lemma BrushTest(dx: int, dy: int, r: int)
    requires -r <= dx <= r && -r <= dy <= r
    ensures InBrush(dx, dy, r) == (dy * dy + dx * dx <= r * r)
  {
  }

  /** Every offset the loops write, in order. */
  function Disc(r: int): seq<(int, int)> {
    if r < 0 then [] else OffsetsUpTo(r, r, r + 1)
  }

  /** The offset (dx, dy) comes before (j, i) in the loops' order. */
  predicate Before(dx: int, dy: int, i: int, j: int) {
    dy < i || (dy == i && dx < j)
  }

  lemma {:induction false} OffsetsUpToHas(r: int, i: int, j: int, dx: int, dy: int)
    requires -r <= i <= r && -r <= j <= r + 1
    ensures (dx, dy) in OffsetsUpTo(r, i, j) <==> InBrush(dx, dy, r) && Before(dx, dy, i, j)
    decreases i + r, j + r
  {
    if j == -r {
      if i > -r {
        OffsetsUpToHas(r, i - 1, r + 1, dx, dy);
        if InBrush(dx, dy, r) {
          assert -r <= dx <= r;
        }
      } else if InBrush(dx, dy, r) {
        assert -r <= dx && -r <= dy;
      }
    } else {
      OffsetsUpToHas(r, i, j - 1, dx, dy);
    }
  }

  /** The disc holds exactly the offsets within the radius. */
  lemma DiscHas(r: int, dx: int, dy: int)
    ensures (dx, dy) in Disc(r) <==> InBrush(dx, dy, r)
  {
    if r >= 0 {
      OffsetsUpToHas(r, r, r + 1, dx, dy);
    }
  }

  /** A world whose every chunk is a CHUNK_SIZE square. */
  type Chunks = m: map<string, Chunk> | AllShaped(m) witness map[]

  /** `write` applied at every offset, in order. */
  function Fold<S>(s: S, offsets: seq<(int, int)>, write: (S, int, int) -> S): S
    decreases |offsets|
  {
    if |offsets| == 0 then s
    else
      var last := offsets[|offsets| - 1];
      write(Fold(s, offsets[..|offsets| - 1], write), last.0, last.1)
  }

  /** When a write sets exactly its own position to v, the fold sets exactly
      the listed positions to v. */
  lemma {:induction false} FoldRead<S, V>(s: S, offsets: seq<(int, int)>, write: (S, int, int) -> S,
                                          read: (S, int, int) -> V, v: V, dx: int, dy: int)
    requires forall s', wx, wy, px, py ::
      (read(write(s', wx, wy), px, py) == if px == wx && py == wy then v else read(s', px, py))
    ensures read(Fold(s, offsets, write), dx, dy) == if (dx, dy) in offsets then v else read(s, dx, dy)
    decreases |offsets|
  {
    if |offsets| > 0 {
      var prefix := offsets[..|offsets| - 1];
      FoldRead(s, prefix, write, read, v, dx, dy);
      assert offsets == prefix + [offsets[|offsets| - 1]];
    }
  }

  /** `setCell(x, y, c, t)`. */
  function Write1(m: Chunks, x: int, y: int, c: Cell, t: real): Chunks {
    WriteShaped(m, x, y, c, t);
    WriteCell(m, x, y, c, t)
  }

  /** `setCell(x + dx, y + dy, c, t)` as a step of the fold. */
  function WriteAt(x: int, y: int, c: Cell, t: real): (Chunks, int, int) -> Chunks {
    (s: Chunks, dx: int, dy: int) => Write1(s, x + dx, y + dy, c, t)
  }

  /** `getCell(x + dx, y + dy, t)`. */
  function ReadAt(x: int, y: int, t: real): (Chunks, int, int) -> Cell {
    (s: Chunks, dx: int, dy: int) => Read(s, x + dx, y + dy, t)
  }

  /** `setCell(x + dx, y + dy, c, t)` for every offset, in order. */
  function WriteAll(m: Chunks, x: int, y: int, offsets: seq<(int, int)>, c: Cell, t: real): Chunks {
    Fold(m, offsets, WriteAt(x, y, c, t))
  }

  /** A write reads back at its own cell and nowhere else. */
  lemma WriteRead(m: Chunks, wx: int, wy: int, c: Cell, t: real, px: int, py: int)
    ensures Read(Write1(m, wx, wy, c, t), px, py, t) == if px == wx && py == wy then c else Read(m, px, py, t)
  {
    if px == wx && py == wy {
      ReadAfterWrite(m, wx, wy, c, t, t);
    } else {
      ReadOtherAfterWrite(m, wx, wy, c, t, px, py);
    }
  }

  /** The same, for the steps of the fold. */
  lemma WriteAtRead(x: int, y: int, c: Cell, t: real)
    ensures forall s: Chunks, wx, wy, px, py ::
      (ReadAt(x, y, t)(WriteAt(x, y, c, t)(s, wx, wy), px, py) ==
         if px == wx && py == wy then c else ReadAt(x, y, t)(s, px, py))
  {
    forall s: Chunks, wx, wy, px, py
      ensures ReadAt(x, y, t)(WriteAt(x, y, c, t)(s, wx, wy), px, py) ==
        if px == wx && py == wy then c else ReadAt(x, y, t)(s, px, py)
    {
      WriteRead(s, x + wx, y + wy, c, t, x + px, y + py);
    }
  }

  /** After the writes, a written offset reads as c and every other cell
      reads as before. */
  lemma WriteAllRead(m: Chunks, x: int, y: int, offsets: seq<(int, int)>, c: Cell, t: real, dx: int, dy: int)
    ensures Read(WriteAll(m, x, y, offsets, c, t), x + dx, y + dy, t) ==
      if (dx, dy) in offsets then c else Read(m, x + dx, y + dy, t)
  {
    WriteAtRead(x, y, c, t);
    FoldRead(m, offsets, WriteAt(x, y, c, t), ReadAt(x, y, t), c, dx, dy);
  }

  /** One probe of the inner loop extends the writes done so far by the
      offsets up to (j + 1, i). */
  lemma PaintStep(m0: Chunks, m1: Chunks, m2: map<string, Chunk>, x: int, y: int, r: int, i: int, j: int, c: Cell, t: real)
    requires -r <= i <= r && -r <= j <= r
    requires m1 == WriteAll(m0, x, y, OffsetsUpTo(r, i, j), c, t)
    requires m2 == if i * i + j * j <= r * r then WriteCell(m1, x + j, y + i, c, t) else m1
    ensures m2 == WriteAll(m0, x, y, OffsetsUpTo(r, i, j + 1), c, t)
  {
    BrushTest(j, i, r);
    OffsetsStep(r, i, j);
    if InBrush(j, i, r) {
      FoldStep(m0, m1, OffsetsUpTo(r, i, j), OffsetsUpTo(r, i, j + 1), (j, i), WriteAt(x, y, c, t));
      WriteAtIs(m1, x, y, j, i, c, t);
    }
  }

  /** The probe at (j, i) adds that offset exactly when it lies in the disc. */
  lemma OffsetsStep(r: int, i: int, j: int)
    requires -r <= i <= r && -r <= j <= r
    ensures InBrush(j, i, r) ==> OffsetsUpTo(r, i, j + 1) == OffsetsUpTo(r, i, j) + [(j, i)]
    ensures !InBrush(j, i, r) ==> OffsetsUpTo(r, i, j + 1) == OffsetsUpTo(r, i, j)
  {
    assert OffsetsUpTo(r, i, j) + [] == OffsetsUpTo(r, i, j);
  }

  lemma FoldStep<S>(s0: S, s1: S, o: seq<(int, int)>, o': seq<(int, int)>, p: (int, int), write: (S, int, int) -> S)
    requires s1 == Fold(s0, o, write) && o' == o + [p]
    ensures Fold(s0, o', write) == write(s1, p.0, p.1)
  {
    assert o'[..|o|] == o;
  }

  lemma WriteAtIs(m: Chunks, x: int, y: int, dx: int, dy: int, c: Cell, t: real)
    ensures WriteAt(x, y, c, t)(m, dx, dy) == WriteCell(m, x + dx, y + dy, c, t)
  {
    var f := WriteAt(x, y, c, t);
    assert f(m, dx, dy) == Write1(m, x + dx, y + dy, c, t);
  }

  /** The body of the space brush's inner loop at offset (j, i). */
  method Probe(w: World, x: int, y: int, i: int, j: int, radius: int, cell: Cell, t: real)
    requires w.Valid() && -radius <= i <= radius && -radius <= j <= radius
    modifies w
    ensures w.Valid() && w.bodies == old(w.bodies)
    ensures w.chunks == if i * i + j * j <= radius * radius then WriteCell(old(w.chunks), x + j, y + i, cell, t) else old(w.chunks)
  {
    if i * i + j * j <= radius * radius {
      w.SetCell(x + j, y + i, cell, t);
    }
  }

  /** The chunks after the space brush of radius r at world cell (x, y). */
  function SpaceBrushed(m: Chunks, x: int, y: int, r: int, c: Cell, t: real): Chunks {
    WriteAll(m, x, y, Disc(r), c, t)
  }

  /** The space brush writes exactly the cells of the disc: every cell at an
      offset with i*i + j*j <= r*r reads as the brush cell afterwards, every
      other cell reads as before (at the ambient temperature the new chunks
      were created with). */
  lemma SpaceBrushRead(m: Chunks, x: int, y: int, r: int, c: Cell, t: real, dx: int, dy: int)
    ensures Read(SpaceBrushed(m, x, y, r, c, t), x + dx, y + dy, t) ==
      if InBrush(dx, dy, r) then c else Read(m, x + dx, y + dy, t)
  {
    DiscHas(r, dx, dy);
    WriteAllRead(m, x, y, Disc(r), c, t, dx, dy);
  }

  // ----- The planet brush -----

  /** The planet grid after the brush of radius r at grid cell (x, y): the
      disc, cut to the grid, holds the brush cell. */
  function PlanetBrushed(g: Grid, x: int, y: int, r: int, c: Cell): (p: Grid)
    requires Planar(g)
    ensures Planar(p) && IsRect(p, |g|, |g[0]|)
  {
    seq(|g|, ny requires 0 <= ny < |g| =>
      seq(|g[0]|, nx requires 0 <= nx < |g[0]| =>
        if InBrush(nx - x, ny - y, r) then c else g[ny][nx]))
  }

  /** The planet brush keeps the grid's size, paints the clicked cell when it
      lies on the grid and changes no cell outside the disc. */
  lemma PlanetBrushReach(g: Grid, x: int, y: int, r: int, c: Cell)
    requires Planar(g) && r >= 0
    ensures |PlanetBrushed(g, x, y, r, c)| == |g| && |PlanetBrushed(g, x, y, r, c)[0]| == |g[0]|
    ensures 0 <= y < |g| && 0 <= x < |g[0]| ==> PlanetBrushed(g, x, y, r, c)[y][x] == c
    ensures forall ny, nx :: 0 <= ny < |g| && 0 <= nx < |g[0]| && PlanetBrushed(g, x, y, r, c)[ny][nx] != g[ny][nx] ==>
      -r <= nx - x <= r && -r <= ny - y <= r
  {
    assert 0 * 0 + 0 * 0 <= r * r;
    assert InBrush(0, 0, r);
    var p := PlanetBrushed(g, x, y, r, c);
    if 0 <= y < |g| && 0 <= x < |g[0]| {
      assert InBrush(x - x, y - y, r);
      assert p[y][x] == c;
    }
    forall ny, nx | 0 <= ny < |g| && 0 <= nx < |g[0]| && p[ny][nx] != g[ny][nx]
      ensures -r <= nx - x <= r && -r <= ny - y <= r
    {
      assert InBrush(nx - x, ny - y, r);
    }
  }

  /** The planet brush's loops have painted every disc offset before (j, i)
      and nothing else. */
  ghost predicate PaintedUpTo(g0: Grid, g: Grid, x: int, y: int, r: int, i: int, j: int, c: Cell, h: nat, w: nat) {
    IsRect(g0, h, w) && IsRect(g, h, w) &&
    forall ny, nx :: 0 <= ny < h && 0 <= nx < w ==>
      g[ny][nx] == if InBrush(nx - x, ny - y, r) && Before(nx - x, ny - y, i, j) then c else g0[ny][nx]
  }

  lemma PlanetStart(g0: Grid, x: int, y: int, r: int, c: Cell, h: nat, w: nat)
    requires IsRect(g0, h, w)
    ensures PaintedUpTo(g0, g0, x, y, r, -r, -r, c, h, w)
  {
  }

  lemma PlanetStep(g0: Grid, g1: Grid, g2: Grid, x: int, y: int, r: int, i: int, j: int, c: Cell, h: nat, w: nat)
    requires -r <= i <= r && -r <= j <= r
    requires PaintedUpTo(g0, g1, x, y, r, i, j, c, h, w)
    requires g2 == if InBrush(j, i, r) && 0 <= x + j < w && 0 <= y + i < h then Put(g1, y + i, x + j, c) else g1
    ensures PaintedUpTo(g0, g2, x, y, r, i, j + 1, c, h, w)
  {
    if InBrush(j, i, r) && 0 <= x + j < w && 0 <= y + i < h {
      PutShape(g1, y + i, x + j, c, h, w);
    }
  }

  lemma PlanetRow(g0: Grid, g: Grid, x: int, y: int, r: int, i: int, c: Cell, h: nat, w: nat)
    requires PaintedUpTo(g0, g, x, y, r, i, r + 1, c, h, w)
    ensures PaintedUpTo(g0, g, x, y, r, i + 1, -r, c, h, w)
  {
  }

  lemma PlanetDone(g0: Grid, g: Grid, x: int, y: int, r: int, i: int, c: Cell)
    requires Planar(g0) && i > r
    requires PaintedUpTo(g0, g, x, y, r, i, -r, c, |g0|, |g0[0]|)
    ensures g == PlanetBrushed(g0, x, y, r, c)
  {
    var p := PlanetBrushed(g0, x, y, r, c);
    forall ny | 0 <= ny < |g0| ensures g[ny] == p[ny] {
      forall nx | 0 <= nx < |g0[0]| ensures g[ny][nx] == p[ny][nx] {
      }
    }
  }

  // ----- The mass of a new body -----

  /** What one composition entry adds: `element.mass * quantity` when the
      symbol is known and its mass is truthy, otherwise nothing. */
  function MassTerm(reg: Registry, entry: (string, int)): real {
    var (symbol, quantity) := entry;
    if symbol in reg && reg[symbol].mass.Some? && reg[symbol].mass.value != 0.0
    then reg[symbol].mass.value * quantity as real
    else 0.0
  }

  /** The total mass of a composition, summed in its order. */
  function MassOf(composition: seq<(string, int)>, reg: Registry): real
    decreases |composition|
  {
    if |composition| == 0 then 0.0
    else MassOf(composition[..|composition| - 1], reg) + MassTerm(reg, composition[|composition| - 1])
  }

  /** The loop of `onCreatePlanet` over the composition. */
  method TotalMass(composition: seq<(string, int)>, reg: Registry) returns (totalMass: real)
    ensures totalMass == MassOf(composition, reg)
  {
    totalMass := 0.0;
    for k := 0 to |composition|
      invariant totalMass == MassOf(composition[..k], reg)
    {
      var (symbol, quantity) := composition[k];
      if symbol in reg && reg[symbol].mass.Some? && reg[symbol].mass.value != 0.0 {
        totalMass := totalMass + reg[symbol].mass.value * quantity as real;
      }
      assert composition[..k + 1][..k] == composition[..k];
    }
    assert composition[..|composition|] == composition;
  }

  /** The total is additive over concatenated compositions. */
  lemma {:induction false} MassOfConcat(a: seq<(string, int)>, b: seq<(string, int)>, reg: Registry)
    ensures MassOf(a + b, reg) == MassOf(a, reg) + MassOf(b, reg)
    decreases |b|
  {
    if |b| == 0 {
      assert a + b == a;
    } else {
      var b' := b[..|b| - 1];
      assert (a + b)[..|a + b| - 1] == a + b';
      MassOfConcat(a, b', reg);
    }
  }

  /** An entry whose symbol is unknown or whose mass is absent or zero does
      not change the total. */
  lemma MassOfSkips(a: seq<(string, int)>, symbol: string, quantity: int, b: seq<(string, int)>, reg: Registry)
    requires symbol !in reg || reg[symbol].mass.None? || reg[symbol].mass.value == 0.0
    ensures MassOf(a + [(symbol, quantity)] + b, reg) == MassOf(a + b, reg)
  {
    MassOfConcat(a + [(symbol, quantity)], b, reg);
    MassOfConcat(a, [(symbol, quantity)], reg);
    MassOfConcat(a, b, reg);
    assert MassOf([(symbol, quantity)], reg) == MassOf([], reg) + MassTerm(reg, (symbol, quantity));
  }

  /** With non-negative masses and quantities the total is non-negative. */
  lemma {:induction false} MassOfNonneg(composition: seq<(string, int)>, reg: Registry)
    requires forall k :: 0 <= k < |composition| ==> composition[k].1 >= 0
    requires forall s :: s in reg && reg[s].mass.Some? ==> reg[s].mass.value >= 0.0
    ensures MassOf(composition, reg) >= 0.0
    decreases |composition|
  {
    if |composition| > 0 {
      var prefix := composition[..|composition| - 1];
      assert forall k :: 0 <= k < |prefix| ==> prefix[k] == composition[k];
      MassOfNonneg(prefix, reg);
      var (symbol, quantity) := composition[|composition| - 1];
      if symbol in reg && reg[symbol].mass.Some? && reg[symbol].mass.value != 0.0 {
        assert reg[symbol].mass.value * quantity as real >= 0.0;
      }
    }
  }

  // ----- The planet view -----

  /** `Math.max(100, Math.floor(radius * 10))`. */
  function GridWidth(radius: real): (w: int)
    ensures w >= 100
  {
    Max(100, Floor(radius * 10.0))
  }

  /** `Math.max(50, Math.floor(radius * 5))`. */
  function GridHeight(radius: real): (h: int)
    ensures h >= 50
  {
    Max(50, Floor(radius * 5.0))
  }

  /** The empty planet grid. A body has no `temperature` field, so
      `body.temperature || 25` is always 25. */
  function VacuumGrid(h: nat, w: nat): (g: Grid)
    ensures IsRect(g, h, w)
  {
    seq(h, _ => seq(w, _ => Cell("VACUUM", 25.0, None)))
  }

  /** `count` copies of one element. */
  function Copies(e: Element, count: int): (s: seq<Element>)
    ensures |s| == Max(0, count) && forall k :: 0 <= k < |s| ==> s[k] == e
    decreases count
  {
    if count <= 0 then [] else Copies(e, count - 1) + [e]
  }

  /** The materials list: each known symbol's element, `count` times, in the
      composition's order. */
  function Materials(composition: seq<(string, int)>, reg: Registry): seq<Element>
    decreases |composition|
  {
    if |composition| == 0 then []
    else
      var (symbol, count) := composition[|composition| - 1];
      Materials(composition[..|composition| - 1], reg) + (if symbol in reg then Copies(reg[symbol], count) else [])
  }

  /** The number of material units: positive counts of known symbols. */
  function Units(composition: seq<(string, int)>, reg: Registry): nat
    decreases |composition|
  {
    if |composition| == 0 then 0
    else
      var (symbol, count) := composition[|composition| - 1];
      Units(composition[..|composition| - 1], reg) + (if symbol in reg then Max(0, count) else 0)
  }

  /** The loops of `initPlanetView` that build the materials list. */
  method CollectMaterials(composition: seq<(string, int)>, reg: Registry) returns (materials: seq<Element>)
    ensures materials == Materials(composition, reg)
  {
    materials := [];
    for k := 0 to |composition|
      invariant materials == Materials(composition[..k], reg)
    {
      var (symbol, count) := composition[k];
      assert composition[..k + 1][..k] == composition[..k];
      if symbol in reg {
        var element := reg[symbol];
        var i := 0;
        while i < count
          invariant 0 <= i <= Max(0, count)
          invariant materials == Materials(composition[..k], reg) + Copies(element, i)
          decreases count - i
        {
          materials := materials + [element];
          i := i + 1;
        }
        assert Copies(element, i) == Copies(element, count);
      }
    }
    assert composition[..|composition|] == composition;
  }

  /** Every material is the registry entry of a symbol of the composition
      with a positive count, and there are as many as the counts say. */
  lemma {:induction false} MaterialsKnown(composition: seq<(string, int)>, reg: Registry)
    ensures |Materials(composition, reg)| == Units(composition, reg)
    ensures forall m :: m in Materials(composition, reg) ==>
      exists k :: 0 <= k < |composition| && composition[k].0 in reg && composition[k].1 > 0 && m == reg[composition[k].0]
    decreases |composition|
  {
    if |composition| > 0 {
      var n := |composition| - 1;
      var prefix := composition[..n];
      MaterialsKnown(prefix, reg);
      var (symbol, count) := composition[n];
      forall m | m in Materials(composition, reg)
        ensures exists k :: 0 <= k < |composition| && composition[k].0 in reg && composition[k].1 > 0 && m == reg[composition[k].0]
      {
        if m in Materials(prefix, reg) {
          var k :| 0 <= k < |prefix| && prefix[k].0 in reg && prefix[k].1 > 0 && m == reg[prefix[k].0];
          assert composition[k] == prefix[k];
        } else {
          assert symbol in reg && m in Copies(reg[symbol], count);
          assert count > 0 && m == reg[symbol];
          assert composition[n].0 in reg && composition[n].1 > 0 && m == reg[composition[n].0];
        }
      }
    }
  }

  /** The sort key `(e.density_proxy || 0)`. */
  function DensityKey(e: Element): real {
    OrReal(e.density, 0.0)
  }

  /** Densest first. */
  predicate NonIncreasing(s: seq<Element>) {
    forall a, b :: 0 <= a < b < |s| ==> DensityKey(s[a]) >= DensityKey(s[b])
  }

  /** Inserts e before the first element that is no denser than e (lighter
      or of equal density). `SortByDensity` inserts each element into the
      sorted rest of the input, so e came first among its equals and
      elements of equal density keep their input order. */
  function Insert(e: Element, s: seq<Element>): (r: seq<Element>)
    requires NonIncreasing(s)
    ensures NonIncreasing(r) && multiset(r) == multiset(s) + multiset{e}
    ensures |r| == |s| + 1 && (r[0] == e || (|s| > 0 && r[0] == s[0]))
  {
    if |s| == 0 || DensityKey(e) >= DensityKey(s[0]) then [e] + s
    else
      var rest := Insert(e, s[1..]);
      assert s == [s[0]] + s[1..];
      [s[0]] + rest
  }

  /** `materials.sort((a, b) => (b.density_proxy || 0) - (a.density_proxy || 0))`:
      a stable sort, densest first. */
  function SortByDensity(s: seq<Element>): (r: seq<Element>)
    ensures NonIncreasing(r) && multiset(r) == multiset(s)
  {
    if |s| == 0 then []
    else
      assert s == [s[0]] + s[1..];
      Insert(s[0], SortByDensity(s[1..]))
  }

  /** The cell a material is placed as. */
  function MaterialCell(e: Element): Cell {
    Cell(e.symbol, OrReal(e.temperature, 25.0), None)
  }

  /** The position of cell (nx, ny) in the fill order: row-major from the
      bottom row up, each row from left to right. */
  function FillIndex(h: int, w: int, nx: int, ny: int): int {
    (h - 1 - ny) * w + nx
  }

  /** The grid g after placing material k at fill position k, as long as the
      grid has room. */
  function Filled(g: Grid, materials: seq<Element>, h: nat, w: nat): (p: Grid)
    requires IsRect(g, h, w)
    ensures IsRect(p, h, w)
  {
    seq(h, ny requires 0 <= ny < h =>
      seq(w, nx requires 0 <= nx < w =>
        var k := FillIndex(h, w, nx, ny);
        if 0 <= k < |materials| then MaterialCell(materials[k]) else g[ny][nx]))
  }

  /** Distinct cells of a row-major layout have distinct positions. */
  lemma RowMajor(a: int, b: int, c: int, d: int, w: int)
    requires w > 0 && 0 <= b < w && 0 <= d < w && a * w + b == c * w + d
    ensures a == c && b == d
  {
    if a < c {
      RowsApart(a, c, w);
    } else if c < a {
      RowsApart(c, a, w);
    }
  }

  /** A later row starts at least a whole row further on. */
  lemma RowsApart(a: int, c: int, w: int)
    requires a < c && w > 0
    ensures a * w + w <= c * w
  {
    var t := c - a - 1;
    assert t >= 0;
    assert t * w >= 0;
    assert c * w == (a + 1 + t) * w;
    assert (a + 1 + t) * w == a * w + w + t * w;
  }

  /** A cell's fill position lies in [0, h*w). */
  lemma FillIndexRange(h: int, w: int, nx: int, ny: int)
    requires 0 <= ny < h && 0 <= nx < w
    ensures 0 <= FillIndex(h, w, nx, ny) < h * w
  {
    assert (h - 1 - ny) * w >= 0;
    assert h * w == (h - 1 - ny) * w + (ny + 1) * w;
    assert (ny + 1) * w >= w;
  }

  /** The next fill position is the next cell to the right, or the first
      cell of the row above, and the last cell of the top row is the last
      position. */
  lemma FillIndexNext(h: int, w: int, cx: int, cy: int)
    requires 0 <= cx < w
    ensures cx + 1 < w ==> FillIndex(h, w, cx + 1, cy) == FillIndex(h, w, cx, cy) + 1
    ensures cx + 1 == w ==> FillIndex(h, w, 0, cy - 1) == FillIndex(h, w, cx, cy) + 1
    ensures cx + 1 == w && cy == 0 ==> h * w == FillIndex(h, w, cx, cy) + 1
  {
    assert (h - 1 - (cy - 1)) * w == (h - 1 - cy) * w + w;
    assert (h - 1) * w + w == h * w;
  }

  /** Writing material k at the cell whose fill position is k extends the
      fill by one material. */
  lemma FilledStep(g: Grid, materials: seq<Element>, h: nat, w: nat, k: int, cx: int, cy: int)
    requires IsRect(g, h, w) && 0 <= k < |materials| && 0 <= cy < h && 0 <= cx < w
    requires FillIndex(h, w, cx, cy) == k
    ensures Filled(g, materials[..k + 1], h, w) ==
      Put(Filled(g, materials[..k], h, w), cy, cx, MaterialCell(materials[k]))
  {
    var before := Filled(g, materials[..k], h, w);
    var after := Filled(g, materials[..k + 1], h, w);
    var put := Put(before, cy, cx, MaterialCell(materials[k]));
    PutShape(before, cy, cx, MaterialCell(materials[k]), h, w);
    forall ny, nx | 0 <= ny < h && 0 <= nx < w ensures after[ny][nx] == put[ny][nx] {
      var i := FillIndex(h, w, nx, ny);
      if i == k {
        RowMajor(h - 1 - ny, nx, h - 1 - cy, cx, w);
      }
    }
    assert forall ny :: 0 <= ny < h ==> after[ny] == put[ny];
  }

  /** With no materials the grid is unchanged. */
  lemma FilledEmpty(g: Grid, materials: seq<Element>, h: nat, w: nat)
    requires IsRect(g, h, w) && |materials| == 0
    ensures Filled(g, materials, h, w) == g
  {
    var p := Filled(g, materials, h, w);
    forall ny | 0 <= ny < h ensures p[ny] == g[ny] {
      assert forall nx :: 0 <= nx < w ==> p[ny][nx] == g[ny][nx];
    }
  }

  /** Once the grid is full, further materials change nothing. */
  lemma FilledFull(g: Grid, materials: seq<Element>, h: nat, w: nat, k: int)
    requires IsRect(g, h, w) && h * w <= k < |materials|
    ensures Filled(g, materials[..k + 1], h, w) == Filled(g, materials[..k], h, w)
  {
    var before := Filled(g, materials[..k], h, w);
    var after := Filled(g, materials[..k + 1], h, w);
    forall ny, nx | 0 <= ny < h && 0 <= nx < w ensures after[ny][nx] == before[ny][nx] {
      FillIndexRange(h, w, nx, ny);
    }
    assert forall ny :: 0 <= ny < h ==> after[ny] == before[ny];
  }

  /** The fill loop of `initPlanetView`, starting at the bottom-left cell. */
  method FillGrid(g: Grid, materials: seq<Element>, h: nat, w: nat) returns (grid: Grid)
    requires IsRect(g, h, w) && w > 0
    ensures grid == Filled(g, materials, h, w)
  {
    grid := g;
    FilledEmpty(g, materials[..0], h, w);
    var currentY := h - 1;
    var currentX := 0;
    for k := 0 to |materials|
      invariant 0 <= currentX < w && -1 <= currentY <= h - 1
      invariant currentY >= 0 ==> FillIndex(h, w, currentX, currentY) == k
      invariant currentY < 0 ==> currentX == 0 && h * w <= k
      invariant grid == Filled(g, materials[..k], h, w)
    {
      if currentY >= 0 {
        FilledStep(g, materials, h, w, k, currentX, currentY);
        grid := Put(grid, currentY, currentX, MaterialCell(materials[k]));
        FillIndexNext(h, w, currentX, currentY);
        currentX := currentX + 1;
        if currentX >= w {
          currentX := 0;
          currentY := currentY - 1;
        }
      } else {
        FilledFull(g, materials, h, w, k);
      }
    }
    assert materials[..|materials|] == materials;
  }

  /** The planet grid `initPlanetView` builds for a body of this radius and
      composition, before any settling. */
  function PlanetView(composition: seq<(string, int)>, radius: real, reg: Registry): (g: Grid)
    ensures IsRect(g, GridHeight(radius), GridWidth(radius)) && Planar(g)
  {
    var h, w := GridHeight(radius), GridWidth(radius);
    Filled(VacuumGrid(h, w), SortByDensity(Materials(composition, reg)), h, w)
  }

  /** The grid sizing, the materials loops, the sort and the fill of
      `initPlanetView`. */
  method BuildPlanetView(composition: seq<(string, int)>, radius: real, reg: Registry) returns (grid: Grid)
    ensures grid == PlanetView(composition, radius, reg)
  {
    var gridWidth := Max(100, Floor(radius * 10.0));
    var gridHeight := Max(50, Floor(radius * 5.0));
    var materials := CollectMaterials(composition, reg);
    var sorted := SortByDensity(materials);
    grid := FillGrid(VacuumGrid(gridHeight, gridWidth), sorted, gridHeight, gridWidth);
  }

  /** Material k of the sorted list sits in row h - 1 - k / w, column k % w,
      as long as k < h*w. */
  lemma FilledPlacement(g: Grid, materials: seq<Element>, h: nat, w: nat, k: int)
    requires IsRect(g, h, w) && w > 0 && 0 <= k < |materials| && k < h * w
    ensures 0 <= h - 1 - k / w < h && 0 <= k % w < w
    ensures Filled(g, materials, h, w)[h - 1 - k / w][k % w] == MaterialCell(materials[k])
  {
    var row := k / w;
    assert k == row * w + k % w;
    assert FillIndex(h, w, k % w, h - 1 - row) == k;
  }

  /** A cell whose fill position is past the last material keeps its vacuum;
      in a full grid no cell does. */
  lemma FilledRest(g: Grid, materials: seq<Element>, h: nat, w: nat, nx: int, ny: int)
    requires IsRect(g, h, w) && 0 <= ny < h && 0 <= nx < w
    ensures 0 <= FillIndex(h, w, nx, ny) < h * w
    ensures FillIndex(h, w, nx, ny) >= |materials| ==> Filled(g, materials, h, w)[ny][nx] == g[ny][nx]
    ensures |materials| >= h * w ==> Filled(g, materials, h, w)[ny][nx] == MaterialCell(materials[FillIndex(h, w, nx, ny)])
  {
    FillIndexRange(h, w, nx, ny);
  }

  /** The view's grid holds the density-sorted materials in fill order,
      from the bottom-left cell on, and vacuum past the last of them. */
  lemma PlanetViewPlacement(composition: seq<(string, int)>, radius: real, reg: Registry, nx: int, ny: int)
    requires 0 <= ny < GridHeight(radius) && 0 <= nx < GridWidth(radius)
    ensures var k := FillIndex(GridHeight(radius), GridWidth(radius), nx, ny);
      var sorted := SortByDensity(Materials(composition, reg));
      0 <= k && (PlanetView(composition, radius, reg)[ny][nx] ==
        if k < |sorted| then MaterialCell(sorted[k]) else VacuumGrid(GridHeight(radius), GridWidth(radius))[ny][nx])
  {
    FillIndexRange(GridHeight(radius), GridWidth(radius), nx, ny);
  }

  // ----- The controller -----

  /** The state record and the handlers that change it. The canvas size and
      the loaded registry and rules are fields the handlers read. */
  class Controller {
    const world: World
    var elements: Registry
    var rules: seq<Rule>
    var canvasWidth: int
    var canvasHeight: int
    var isRunning: bool
    var currentElement: string
    var brushSize: int
    var zoom: real
    var panX: real
    var panY: real
    var globalVacuumTemp: real
    var mode: Mode
    var viewBody: Option<CelestialBody>
    var planetGrid: Option<Grid>

    ghost predicate Valid()
      reads this, world
    {
      world.Valid() && zoom > 0.0 && HasTemperatures(elements) && RulesComplete(rules) &&
      (planetGrid.Some? ==> Planar(planetGrid.value)) &&
      (mode == PlanetMode ==> viewBody.Some?)
    }

    /** The fields no modelled handler writes. */
    twostate predicate Settings()
      reads this
    {
      elements == old(elements) && rules == old(rules) &&
      canvasWidth == old(canvasWidth) && canvasHeight == old(canvasHeight) &&
      currentElement == old(currentElement) && brushSize == old(brushSize) &&
      zoom == old(zoom) && panX == old(panX) && panY == old(panY) &&
      globalVacuumTemp == old(globalVacuumTemp)
    }

    /** The initial `state` record, over the loaded registry and rules. */
    constructor (w: World, reg: Registry, rs: seq<Rule>, width: int, height: int)
      requires w.Valid() && HasTemperatures(reg) && RulesComplete(rs)
      ensures Valid() && world == w
      ensures elements == reg && rules == rs && canvasWidth == width && canvasHeight == height
      ensures !isRunning && currentElement == "C" && brushSize == 1
      ensures zoom == 1.0 && panX == 0.0 && panY == 0.0 && globalVacuumTemp == -273.0
      ensures mode == SpaceMode && viewBody == None && planetGrid == None
    {
      world := w;
      elements, rules := reg, rs;
      canvasWidth, canvasHeight := width, height;
      isRunning := false;
      currentElement := "C";
      brushSize := 1;
      zoom, panX, panY := 1.0, 0.0, 0.0;
      globalVacuumTemp := -273.0;
      mode := SpaceMode;
      viewBody := None;
      planetGrid := None;
    }

    /** `update`: nothing while paused; in space mode one `updateSpace` over
        the visible chunks, in planet mode one settling step of the planet
        grid under the viewed body's mass. */
    method Update(rand: Draws, rng: Oracle, ambient: real)
      returns (ghost found: seq<Option<Chunk>>, ghost grown: map<string, Chunk>)
      requires Valid()
      modifies this, world
      ensures Valid() && Settings() && world.bodies == old(world.bodies)
      ensures isRunning == old(isRunning) && mode == old(mode) && viewBody == old(viewBody)
      ensures !isRunning ==> world.chunks == old(world.chunks) && planetGrid == old(planetGrid)
      ensures isRunning && mode == SpaceMode ==> (planetGrid == old(planetGrid) &&
        SpaceTicked(VisibleKeys(panX, panY, zoom, canvasWidth, canvasHeight), old(world.chunks), world.chunks,
                    found, grown, elements, rules, ambient, rand))
      ensures isRunning && mode == PlanetMode ==> (world.chunks == old(world.chunks) &&
        planetGrid == PlanetSurface(old(planetGrid), viewBody.value.mass, elements, rng))
    {
      found, grown := [], map[];
      if !isRunning {
        return;
      }
      if mode == SpaceMode {
        var visibleKeys := VisibleChunkKeys(panX, panY, zoom, canvasWidth, canvasHeight);
        found, grown := UpdateSpace(world, visibleKeys, elements, rules, ambient, rand);
      } else {
        var surface := UpdatePlanetSurface(planetGrid, viewBody.value.mass, elements, rng);
        SurfacePlanar(planetGrid, viewBody.value.mass, elements, rng);
        planetGrid := surface;
      }
    }

    /** `onStartPause`: flips the run flag, runs one update when the run
        starts, and returns the new flag. */
    method StartPause(rand: Draws, rng: Oracle, ambient: real)
      returns (running: bool, ghost found: seq<Option<Chunk>>, ghost grown: map<string, Chunk>)
      requires Valid()
      modifies this, world
      ensures Valid() && Settings() && world.bodies == old(world.bodies)
      ensures running == isRunning && isRunning == !old(isRunning)
      ensures mode == old(mode) && viewBody == old(viewBody)
      ensures !running ==> world.chunks == old(world.chunks) && planetGrid == old(planetGrid)
      ensures running && mode == SpaceMode ==> (planetGrid == old(planetGrid) &&
        SpaceTicked(VisibleKeys(panX, panY, zoom, canvasWidth, canvasHeight), old(world.chunks), world.chunks,
                    found, grown, elements, rules, ambient, rand))
      ensures running && mode == PlanetMode ==> (world.chunks == old(world.chunks) &&
        planetGrid == PlanetSurface(old(planetGrid), viewBody.value.mass, elements, rng))
    {
      found, grown := [], map[];
      isRunning := !isRunning;
      if isRunning {
        found, grown := Update(rand, rng, ambient);
      }
      running := isRunning;
    }

    /** `onPaint` at cell (x, y) of the current view: world coordinates in
        space mode, grid coordinates in planet mode. Nothing happens when the
        selected symbol is not in the registry. */
    method Paint(x: int, y: int)
      requires Valid()
      modifies this, world
      ensures Valid() && Settings() && world.bodies == old(world.bodies)
      ensures isRunning == old(isRunning) && mode == old(mode) && viewBody == old(viewBody)
      ensures currentElement !in elements ==> world.chunks == old(world.chunks) && planetGrid == old(planetGrid)
      ensures currentElement in elements && mode == SpaceMode ==> (planetGrid == old(planetGrid) &&
        world.chunks == SpaceBrushed(old(world.chunks), x, y, Radius(brushSize),
                                     BrushCell(currentElement, elements[currentElement]), globalVacuumTemp))
      ensures currentElement in elements && mode == PlanetMode ==> (world.chunks == old(world.chunks) &&
        planetGrid == if old(planetGrid).None? then None
                      else Some(PlanetBrushed(old(planetGrid).value, x, y, Radius(brushSize),
                                              BrushCell(currentElement, elements[currentElement]))))
    {
      if currentElement !in elements {
        return;
      }
      var cell := BrushCell(currentElement, elements[currentElement]);
      var radius := brushSize / 2;
      if mode == SpaceMode {
        PaintSpace(x, y, radius, cell);
      } else if planetGrid.Some? {
        PaintPlanet(x, y, radius, cell);
      }
    }

    /** The loops of the space brush: `setCell` at every offset of the disc,
        creating chunks at the vacuum temperature. */
    method PaintSpace(x: int, y: int, radius: int, cell: Cell)
      requires Valid()
      modifies world
      ensures Valid() && world.bodies == old(world.bodies)
      ensures world.chunks == SpaceBrushed(old(world.chunks), x, y, radius, cell, globalVacuumTemp)
    {
      ghost var m0: Chunks := world.chunks;
      var i := -radius;
      while i <= radius
        invariant i == -radius || -radius < i <= radius + 1
        invariant world.Valid() && world.bodies == old(world.bodies)
        invariant world.chunks == WriteAll(m0, x, y, if i == -radius then [] else OffsetsUpTo(radius, i - 1, radius + 1),
                                           cell, globalVacuumTemp)
        decreases radius + 1 - i
      {
        var j := -radius;
        while j <= radius
          invariant -radius <= j <= radius + 1
          invariant world.Valid() && world.bodies == old(world.bodies)
          invariant world.chunks == WriteAll(m0, x, y, OffsetsUpTo(radius, i, j), cell, globalVacuumTemp)
          decreases radius + 1 - j
        {
          ghost var m1: Chunks := world.chunks;
          Probe(world, x, y, i, j, radius, cell, globalVacuumTemp);
          PaintStep(m0, m1, world.chunks, x, y, radius, i, j, cell, globalVacuumTemp);
          j := j + 1;
        }
        i := i + 1;
      }
    }

    /** The loops of the planet brush: only offsets inside the grid are
        written. */
    method PaintPlanet(x: int, y: int, radius: int, cell: Cell)
      requires Valid() && planetGrid.Some?
      modifies this
      ensures Valid() && Settings()
      ensures isRunning == old(isRunning) && mode == old(mode) && viewBody == old(viewBody)
      ensures planetGrid == Some(PlanetBrushed(old(planetGrid).value, x, y, radius, cell))
    {
      ghost var g := planetGrid.value;
      var grid := planetGrid.value;
      var gridHeight := |grid|;
      var gridWidth := |grid[0]|;
      PlanetStart(g, x, y, radius, cell, gridHeight, gridWidth);
      var i := -radius;
      while i <= radius
        invariant i == -radius || -radius < i <= radius + 1
        invariant PaintedUpTo(g, grid, x, y, radius, i, -radius, cell, gridHeight, gridWidth)
        modifies {}
        decreases radius + 1 - i
      {
        var j := -radius;
        while j <= radius
          invariant -radius <= j <= radius + 1
          invariant PaintedUpTo(g, grid, x, y, radius, i, j, cell, gridHeight, gridWidth)
          modifies {}
          decreases radius + 1 - j
        {
          ghost var before := grid;
          BrushTest(j, i, radius);
          if i * i + j * j <= radius * radius {
            var newX, newY := x + j, y + i;
            if newX >= 0 && newX < gridWidth && newY >= 0 && newY < gridHeight {
              grid := Put(grid, newY, newX, cell);
            }
          }
          PlanetStep(g, before, grid, x, y, radius, i, j, cell, gridHeight, gridWidth);
          j := j + 1;
        }
        PlanetRow(g, grid, x, y, radius, i, cell, gridHeight, gridWidth);
        i := i + 1;
      }
      PlanetDone(g, grid, x, y, radius, i, cell);
      planetGrid := Some(grid);
    }

    /** `onCreatePlanet`: a body at the cell under the canvas centre, its mass
        the composition's total and its radius twice the cube root, which
        `cbrt` computes. */
    method CreatePlanet(composition: seq<(string, int)>, rectWidth: real, rectHeight: real, cbrt: real -> real)
      requires Valid()
      modifies world
      ensures Valid() && world.chunks == old(world.chunks)
      ensures |world.bodies| == |old(world.bodies)| + 1 && world.bodies[..|old(world.bodies)|] == old(world.bodies)
      ensures var b := world.bodies[|old(world.bodies)|];
        fresh(b) && b.composition == composition && b.mass == MassOf(composition, elements) &&
        b.radius == cbrt(MassOf(composition, elements)) * 2.0 &&
        b.x == Floor((rectWidth / 2.0 - panX) / (CELL_SIZE as real * zoom)) as real &&
        b.y == Floor((rectHeight / 2.0 - panY) / (CELL_SIZE as real * zoom)) as real &&
        b.prevX == b.x && b.prevY == b.y && b.vx == 0.0 && b.vy == 0.0 && b.ax == 0.0 && b.ay == 0.0
    {
      var centerX := Floor((rectWidth / 2.0 - panX) / (CELL_SIZE as real * zoom));
      var centerY := Floor((rectHeight / 2.0 - panY) / (CELL_SIZE as real * zoom));
      var newBody := new CelestialBody(centerX as real, centerY as real, composition);
      var totalMass := TotalMass(composition, elements);
      newBody.mass := totalMass;
      newBody.radius := cbrt(totalMass) * 2.0;
      world.AddCelestialBody(newBody);
    }

    /** `onReturnToSpace`. */
    method ReturnToSpace()
      requires Valid()
      modifies this
      ensures Valid() && Settings() && isRunning == old(isRunning)
      ensures mode == SpaceMode && viewBody == None && planetGrid == None
    {
      mode := SpaceMode;
      viewBody := None;
      planetGrid := None;
    }

    /** The first half of `initPlanetView`: the view switches to the body
        and a running simulation is paused; `wasRunning` is the flag before. */
    method EnterPlanetView(body: CelestialBody, rand: Draws, rng: Oracle, ambient: real) returns (wasRunning: bool)
      requires Valid()
      modifies this, world
      ensures Valid() && Settings() && wasRunning == old(isRunning) && !isRunning
      ensures mode == PlanetMode && viewBody == Some(body) && planetGrid == old(planetGrid)
      ensures world.chunks == old(world.chunks) && world.bodies == old(world.bodies)
    {
      mode := PlanetMode;
      viewBody := Some(body);
      wasRunning := isRunning;
      if wasRunning {
        var _, _, _ := StartPause(rand, rng, ambient);
      }
    }

    /** The last step of `initPlanetView` for a run that was going: the
        start/pause toggle in the planet view, which resumes the run and
        settles the grid once. */
    method ResumePlanetView(rand: Draws, rng: Oracle, ambient: real)
      requires Valid() && mode == PlanetMode && !isRunning
      modifies this, world
      ensures Valid() && Settings() && isRunning && mode == PlanetMode && viewBody == old(viewBody)
      ensures world.chunks == old(world.chunks) && world.bodies == old(world.bodies)
      ensures planetGrid == PlanetSurface(old(planetGrid), viewBody.value.mass, elements, rng)
    {
      var _, _, _ := StartPause(rand, rng, ambient);
    }

    /** `initPlanetView`: switches to the body's planet view, pausing a
        running simulation while the grid is built: materials sorted densest
        first and laid row by row from the bottom-left. A run that was going
        resumes, which settles the new grid once. */
    method InitPlanetView(body: CelestialBody, rand: Draws, rng: Oracle, ambient: real)
      requires Valid()
      modifies this, world
      ensures Valid() && Settings() && isRunning == old(isRunning)
      ensures mode == PlanetMode && viewBody == Some(body)
      ensures world.chunks == old(world.chunks) && world.bodies == old(world.bodies)
      ensures !old(isRunning) ==> planetGrid == Some(PlanetView(body.composition, body.radius, elements))
      ensures old(isRunning) ==>
        planetGrid == PlanetSurface(Some(PlanetView(body.composition, body.radius, elements)), body.mass, elements, rng)
    {
      var wasRunning := EnterPlanetView(body, rand, rng, ambient);
      var grid := BuildPlanetView(body.composition, body.radius, elements);
      planetGrid := Some(grid);
      if wasRunning {
        ResumePlanetView(rand, rng, ambient);
      }
    }
  }

  /** One `updateSpace` from chunks m0 to m1 over the keys, as its method
      states it: `found` the chunks looked up, `grown` the world before the
      commit. */
  ghost predicate SpaceTicked(keys: seq<string>, m0: map<string, Chunk>, m1: map<string, Chunk>,
                              found: seq<Option<Chunk>>, grown: map<string, Chunk>,
                              reg: Registry, rules: seq<Rule>, ambient: real, rand: Draws)
    requires AllShaped(m0) && HasTemperatures(reg) && RulesComplete(rules)
  {
    |found| == |keys| && FoundShaped(found) && FoundRight(keys, found, m0, ambient) &&
    Grown(m0, grown, ambient) &&
    var r := SweepOf(keys, found, m0, reg, rules, ambient, rand);
    m1 == Replay(grown + r.next, r.movers, ambient)
  }

  /** A settled planet grid is still a planet grid. */
  lemma SurfacePlanar(planetGrid: Option<Grid>, mass: real, reg: Registry, rng: Oracle)
    requires planetGrid.Some? ==> Planar(planetGrid.value)
    ensures var s := PlanetSurface(planetGrid, mass, reg, rng); s.Some? ==> Planar(s.value)
  {
  }
}
