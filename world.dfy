/** The sparse chunked world and the celestial bodies (js/world.js). The
    world is a map from chunk keys to 32x32 chunks, created on first touch;
    a cell is addressed by world coordinates, split by floor division into a
    chunk coordinate and a local offset. */
module World {
  import opened Common
  import opened Grids
  import opened ChunkKeys

  const CHUNK_SIZE: int := 32

  /** One particle cell. `lifespan` is only ever set by the life pass. */
  datatype Cell = Cell(symbol: string, temperature: real, lifespan: Option<int>)

  type Grid = seq<seq<Cell>>

  datatype Chunk = Chunk(cells: Grid, x: int, y: int)

  function VacuumCell(t: real): Cell {
    Cell("VACUUM", t, None)
  }

  predicate WellShaped(c: Chunk) {
    IsRect(c.cells, CHUNK_SIZE, CHUNK_SIZE)
  }

  predicate AllShaped(m: map<string, Chunk>) {
    forall k :: k in m ==> WellShaped(m[k])
  }

  /** `createChunk`: CHUNK_SIZE rows of CHUNK_SIZE vacuum cells at the given
      ambient temperature, tagged with its chunk coordinates. */
  function NewChunk(cx: int, cy: int, t: real): (c: Chunk)
    ensures WellShaped(c) && c.x == cx && c.y == cy
    ensures forall i, j :: 0 <= i < CHUNK_SIZE && 0 <= j < CHUNK_SIZE ==> c.cells[i][j] == VacuumCell(t)
  {
    Chunk(seq(CHUNK_SIZE, _ => seq(CHUNK_SIZE, _ => VacuumCell(t))), cx, cy)
  }

  /** `Math.floor(x / CHUNK_SIZE)` on an integer coordinate. */
  function ChunkCoord(x: int): (c: int)
    ensures CHUNK_SIZE * c <= x < CHUNK_SIZE * c + CHUNK_SIZE
  {
    x / CHUNK_SIZE
  }

  /** `x - chunkX * CHUNK_SIZE`: the offset inside the chunk. */
  function LocalCoord(x: int): (l: int)
    ensures 0 <= l < CHUNK_SIZE
    ensures x == CHUNK_SIZE * ChunkCoord(x) + l
  {
    x - ChunkCoord(x) * CHUNK_SIZE
  }

  /** The decomposition is unique: a coordinate is determined by its chunk
      coordinate and its offset, and every (chunk, offset) pair arises. */
  lemma DecomposeUnique(x: int, x': int)
    ensures ChunkCoord(x) == ChunkCoord(x') && LocalCoord(x) == LocalCoord(x') <==> x == x'
  {
  }

  lemma ComposeDecompose(c: int, l: int)
    requires 0 <= l < CHUNK_SIZE
    ensures ChunkCoord(CHUNK_SIZE * c + l) == c && LocalCoord(CHUNK_SIZE * c + l) == l
  {
  }

  function KeyAt(x: int, y: int): string {
    KeyOf(ChunkCoord(x), ChunkCoord(y))
  }

  /** What `getCell(x, y, t)` returns in world m: the stored cell if its chunk
      exists, otherwise a vacuum cell at t (which the call creates). */
  function Read(m: map<string, Chunk>, x: int, y: int, t: real): Cell
    requires AllShaped(m)
  {
    var k := KeyAt(x, y);
    if k in m then m[k].cells[LocalCoord(y)][LocalCoord(x)] else VacuumCell(t)
  }

  /** The world after `getChunk(cx, cy, t)`. */
  function Materialize(m: map<string, Chunk>, cx: int, cy: int, t: real): map<string, Chunk> {
    var k := KeyOf(cx, cy);
    if k in m then m else m[k := NewChunk(cx, cy, t)]
  }

  /** The world after `setCell(x, y, c, t)`. */
  function WriteCell(m: map<string, Chunk>, x: int, y: int, c: Cell, t: real): map<string, Chunk>
    requires AllShaped(m)
  {
    var m1 := Materialize(m, ChunkCoord(x), ChunkCoord(y), t);
    var k := KeyAt(x, y);
    m1[k := m1[k].(cells := Put(m1[k].cells, LocalCoord(y), LocalCoord(x), c))]
  }

  /** Creating a chunk keeps every chunk shaped, adds at most its own key,
      leaves existing chunks alone and reads the same everywhere at the
      ambient temperature it was created with. */
  lemma MaterializeKeeps(m: map<string, Chunk>, cx: int, cy: int, t: real)
    requires AllShaped(m)
    ensures AllShaped(Materialize(m, cx, cy, t))
    ensures Materialize(m, cx, cy, t).Keys == m.Keys + {KeyOf(cx, cy)}
    ensures forall k :: k in m ==> Materialize(m, cx, cy, t)[k] == m[k]
    ensures KeyOf(cx, cy) !in m ==> Materialize(m, cx, cy, t)[KeyOf(cx, cy)] == NewChunk(cx, cy, t)
    ensures forall x, y :: Read(Materialize(m, cx, cy, t), x, y, t) == Read(m, x, y, t)
  {
  }

  lemma WriteShaped(m: map<string, Chunk>, x: int, y: int, c: Cell, t: real)
    requires AllShaped(m)
    ensures AllShaped(WriteCell(m, x, y, c, t))
    ensures WriteCell(m, x, y, c, t).Keys == m.Keys + {KeyAt(x, y)}
  {
    MaterializeKeeps(m, ChunkCoord(x), ChunkCoord(y), t);
    var m1 := Materialize(m, ChunkCoord(x), ChunkCoord(y), t);
    PutShape(m1[KeyAt(x, y)].cells, LocalCoord(y), LocalCoord(x), c, CHUNK_SIZE, CHUNK_SIZE);
  }

  /** Get after set: reading the coordinate just written gives the cell
      written, whatever ambient temperature the read passes. */
  lemma ReadAfterWrite(m: map<string, Chunk>, x: int, y: int, c: Cell, t: real, t': real)
    requires AllShaped(m)
    ensures AllShaped(WriteCell(m, x, y, c, t))
    ensures Read(WriteCell(m, x, y, c, t), x, y, t') == c
  {
    WriteShaped(m, x, y, c, t);
    MaterializeKeeps(m, ChunkCoord(x), ChunkCoord(y), t);
    var m1 := Materialize(m, ChunkCoord(x), ChunkCoord(y), t);
    PutShape(m1[KeyAt(x, y)].cells, LocalCoord(y), LocalCoord(x), c, CHUNK_SIZE, CHUNK_SIZE);
  }

  /** A write changes no other coordinate. Distinct coordinates either lie in
      distinct chunks, whose keys differ, or at distinct offsets of one. */
  lemma ReadOtherAfterWrite(m: map<string, Chunk>, x: int, y: int, c: Cell, t: real, x': int, y': int)
    requires AllShaped(m)
    requires x' != x || y' != y
    ensures AllShaped(WriteCell(m, x, y, c, t))
    ensures Read(WriteCell(m, x, y, c, t), x', y', t) == Read(m, x', y', t)
  {
    WriteShaped(m, x, y, c, t);
    MaterializeKeeps(m, ChunkCoord(x), ChunkCoord(y), t);
    var m1 := Materialize(m, ChunkCoord(x), ChunkCoord(y), t);
    var k := KeyAt(x, y);
    PutShape(m1[k].cells, LocalCoord(y), LocalCoord(x), c, CHUNK_SIZE, CHUNK_SIZE);
    KeyInjective(ChunkCoord(x), ChunkCoord(y), ChunkCoord(x'), ChunkCoord(y'));
    if KeyAt(x', y') == k {
      DecomposeUnique(x, x');
      DecomposeUnique(y, y');
    }
  }

  /** m' is m with chunks created on the way: every chunk of m is kept as
      it is, and every chunk added holds only vacuum at t and carries the
      coordinates of its own key. */
  predicate Grown(m: map<string, Chunk>, m': map<string, Chunk>, t: real) {
    AllShaped(m) && AllShaped(m') &&
    (forall k :: k in m ==> k in m' && m'[k] == m[k]) &&
    (forall k, i, j :: k in m' && k !in m && 0 <= i < CHUNK_SIZE && 0 <= j < CHUNK_SIZE ==> m'[k].cells[i][j] == VacuumCell(t)) &&
    (forall k :: k in m' && k !in m ==> KeyOf(m'[k].x, m'[k].y) == k)
  }

  lemma GrownRefl(m: map<string, Chunk>, t: real)
    requires AllShaped(m)
    ensures Grown(m, m, t)
  {
  }

  /** Creating another chunk keeps the growth relation. */
  lemma GrownMaterialize(m: map<string, Chunk>, m': map<string, Chunk>, cx: int, cy: int, t: real)
    requires Grown(m, m', t)
    ensures Grown(m, Materialize(m', cx, cy, t), t)
  {
    MaterializeKeeps(m', cx, cy, t);
  }

  /** A grown world reads like the one it grew from, at its temperature. */
  lemma GrownRead(m: map<string, Chunk>, m': map<string, Chunk>, t: real, x: int, y: int)
    requires Grown(m, m', t)
    ensures Read(m', x, y, t) == Read(m, x, y, t)
  {
  }

  /** A planet or other large object. `composition` lists symbols with
      quantities, in insertion order. */
  class CelestialBody {
    var x: real
    var y: real
    var prevX: real
    var prevY: real
    var composition: seq<(string, int)>
    var mass: real
    var radius: real
    var vx: real
    var vy: real
    var ax: real
    var ay: real

    constructor (x0: real, y0: real, composition0: seq<(string, int)>)
      ensures x == x0 && y == y0 && prevX == x0 && prevY == y0
      ensures composition == composition0
      ensures mass == 0.0 && radius == 0.0
      ensures vx == 0.0 && vy == 0.0 && ax == 0.0 && ay == 0.0
    {
      x, y := x0, y0;
      prevX, prevY := x0, y0;
      composition := composition0;
      mass, radius := 0.0, 0.0;
      vx, vy, ax, ay := 0.0, 0.0, 0.0, 0.0;
    }
  }

  /** The module state: the chunk map and the list of bodies. */
  class World {
    var chunks: map<string, Chunk>
    var bodies: seq<CelestialBody>

    ghost predicate Valid()
      reads this
    {
      AllShaped(chunks)
    }

    constructor ()
      ensures Valid() && chunks == map[] && bodies == []
    {
      chunks := map[];
      bodies := [];
    }

    /** `getChunk`: the chunk at (cx, cy), created vacuum at t if absent. */
    method GetChunk(cx: int, cy: int, t: real) returns (c: Chunk)
      requires Valid()
      modifies this
      ensures Valid()
      ensures chunks == Materialize(old(chunks), cx, cy, t) && bodies == old(bodies)
      ensures KeyOf(cx, cy) in chunks && c == chunks[KeyOf(cx, cy)]
      ensures KeyOf(cx, cy) in old(chunks) ==> c == old(chunks)[KeyOf(cx, cy)]
      ensures KeyOf(cx, cy) !in old(chunks) ==> c == NewChunk(cx, cy, t)
    {
      var key := KeyOf(cx, cy);
      if key !in chunks {
        chunks := chunks[key := NewChunk(cx, cy, t)];
      }
      c := chunks[key];
    }

    /** `getCell`: the cell at world (x, y). Its only effect is creating the
        chunk, which changes no cell that could be read before. */
    method GetCell(x: int, y: int, t: real) returns (c: Cell)
      requires Valid()
      modifies this
      ensures Valid()
      ensures c == Read(old(chunks), x, y, t)
      ensures chunks == Materialize(old(chunks), ChunkCoord(x), ChunkCoord(y), t)
      ensures bodies == old(bodies)
    {
      var chunkX := ChunkCoord(x);
      var chunkY := ChunkCoord(y);
      MaterializeKeeps(chunks, chunkX, chunkY, t);
      var chunk := GetChunk(chunkX, chunkY, t);
      c := chunk.cells[LocalCoord(y)][LocalCoord(x)];
    }

    /** `setCell`: stores c at world (x, y), creating its chunk if absent. */
    method SetCell(x: int, y: int, c: Cell, t: real)
      requires Valid()
      modifies this
      ensures Valid()
      ensures chunks == WriteCell(old(chunks), x, y, c, t) && bodies == old(bodies)
    {
      var chunkX := ChunkCoord(x);
      var chunkY := ChunkCoord(y);
      WriteShaped(chunks, x, y, c, t);
      MaterializeKeeps(chunks, chunkX, chunkY, t);
      var chunk := GetChunk(chunkX, chunkY, t);
      chunks := chunks[KeyOf(chunkX, chunkY) := chunk.(cells := Put(chunk.cells, LocalCoord(y), LocalCoord(x), c))];
    }

    /** `clearWorld`. */
    method ClearWorld()
      modifies this
      ensures Valid() && chunks == map[] && bodies == []
    {
      chunks := map[];
      bodies := [];
    }

    /** `addCelestialBody`: appends one body at the end. */
    method AddCelestialBody(body: CelestialBody)
      modifies this
      ensures chunks == old(chunks) && bodies == old(bodies) + [body]
    {
      bodies := bodies + [body];
    }

    /** `setWorld`: replaces the chunk map wholesale. */
    method SetWorld(newWorld: map<string, Chunk>)
      requires AllShaped(newWorld)
      modifies this
      ensures Valid() && chunks == newWorld && bodies == old(bodies)
    {
      chunks := newWorld;
    }
  }
}
