/** `updateSpace` (js/engine.js): every visible chunk present in the world
    is cloned and run through the six passes in their fixed order, the
    successors are committed over the world, and then every cross-chunk
    mover is replayed with `setCell`, which overwrites its target whatever
    it holds. The passes' only effect on the world before the commit is the
    chunks `getCell` creates, so the chunks found and the cells probed are
    those of the world the update starts from, or vacuum. */
module Space {
  import opened Common
  import opened Grids
  import opened World
  import opened ChunkKeys
  import opened Elements
  import opened Neighbourhood
  import opened Diffusion
  import opened TemperatureEffects
  import opened Ionization
  import opened LifeAndDecay
  import opened Reactions
  import opened Physics

  /** The draws of one update: `rand(i, p)` serves pass p of the i-th
      visible key. */
  type Draws = (int, int) -> Oracle

  const IONIZE_PASS: int := 0
  const LIFE_PASS: int := 1
  const RULES_PASS: int := 2
  const PHYSICS_PASS: int := 3

  /** A chunk `getChunk` created under key k: vacuum at t throughout, at
      the coordinates the key names. */
  predicate VacuumChunk(c: Chunk, k: string, t: real) {
    WellShaped(c) && KeyOf(c.x, c.y) == k &&
    forall i, j :: 0 <= i < CHUNK_SIZE && 0 <= j < CHUNK_SIZE ==> c.cells[i][j] == VacuumCell(t)
  }

  /** The six passes on one chunk, in engine order, starting from a copy of
      it; m is the world the physics probes read and `movers` the list the
      physics pass appends to. */
  function Tick(c: Chunk, m: map<string, Chunk>, reg: Registry, rules: seq<Rule>, ambient: real,
                rand: Draws, i: int, movers: seq<Mover>): (s: PhysState)
    requires WellShaped(c) && AllShaped(m) && HasTemperatures(reg) && RulesComplete(rules)
    ensures Good(s)
  {
    var g := c.cells;
    DiffuseGridAt(g, g, reg);
    var g1 := DiffuseGrid(g, g, reg);
    EffectsGridAt(g, g1, reg);
    var g2 := EffectsGrid(g, g1, reg);
    var g3 := IonizeGrid(g, g2, rand(i, IONIZE_PASS));
    var g4 := LifeGrid(g, g3, reg, rand(i, LIFE_PASS));
    var g5 := RulesGrid(g, g4, reg, rules, rand(i, RULES_PASS));
    PhysGrid(PhysState(g5, movers), m, c.x, c.y, reg, ambient, rand(i, PHYSICS_PASS))
  }

  /** What the loop over the visible keys builds: `nextStates` and
      `crossChunkMovers`. */
  datatype Sweep = Sweep(next: map<string, Chunk>, movers: seq<Mover>)

  /** The chunks the loop found, one entry per visible key so far. */
  predicate FoundShaped(found: seq<Option<Chunk>>) {
    forall i :: 0 <= i < |found| && found[i].Some? ==> WellShaped(found[i].value)
  }

  /** The loop after the first |found| keys, found[i] being the chunk the
      i-th key looked up, if any. The successors are exactly those of the
      keys whose chunk was found. */
  function SweepOf(keys: seq<string>, found: seq<Option<Chunk>>, m: map<string, Chunk>,
                   reg: Registry, rules: seq<Rule>, ambient: real, rand: Draws): (r: Sweep)
    requires |found| <= |keys| && FoundShaped(found) && AllShaped(m)
    requires HasTemperatures(reg) && RulesComplete(rules)
    ensures AllShaped(r.next)
    ensures forall k :: k in r.next <==> exists i :: 0 <= i < |found| && found[i].Some? && keys[i] == k
    decreases |found|
  {
    if |found| == 0 then Sweep(map[], [])
    else
      var n := |found| - 1;
      var prev := SweepOf(keys, found[..n], m, reg, rules, ambient, rand);
      assert forall i :: 0 <= i < n ==> found[..n][i] == found[i];
      match found[n]
      case None => prev
      case Some(c) =>
        var s := Tick(c, m, reg, rules, ambient, rand, n, prev.movers);
        Sweep(prev.next[keys[n] := Chunk(s.grid, c.x, c.y)], s.movers)
  }

  /** The mover replay: `setCell` for each mover in order. */
  function Replay(m: map<string, Chunk>, ms: seq<Mover>, t: real): (r: map<string, Chunk>)
    requires AllShaped(m)
    ensures AllShaped(r)
    decreases |ms|
  {
    if |ms| == 0 then m
    else
      var p := Replay(m, ms[..|ms| - 1], t);
      var mv := ms[|ms| - 1];
      WriteShaped(p, mv.toX, mv.toY, mv.cell, t);
      WriteCell(p, mv.toX, mv.toY, mv.cell, t)
  }

  predicate Targets(mv: Mover, x: int, y: int) {
    mv.toX == x && mv.toY == y
  }

  /** The cell of the last mover aimed at (x, y), if any. */
  function LastAt(ms: seq<Mover>, x: int, y: int): Option<Cell>
    decreases |ms|
  {
    if |ms| == 0 then None
    else if Targets(ms[|ms| - 1], x, y) then Some(ms[|ms| - 1].cell)
    else LastAt(ms[..|ms| - 1], x, y)
  }

  /** `LastAt` is the last mover aimed at the cell: some mover targets it and
      no later one does, or none targets it at all. */
  lemma {:induction false} LastAtIsLast(ms: seq<Mover>, x: int, y: int)
    ensures LastAt(ms, x, y).None? <==> forall i :: 0 <= i < |ms| ==> !Targets(ms[i], x, y)
    ensures LastAt(ms, x, y).Some? ==> exists i :: (0 <= i < |ms| && Targets(ms[i], x, y) &&
      ms[i].cell == LastAt(ms, x, y).value && forall j :: i < j < |ms| ==> !Targets(ms[j], x, y))
    decreases |ms|
  {
    if |ms| > 0 {
      var n := |ms| - 1;
      if !Targets(ms[n], x, y) {
        var pre := ms[..n];
        LastAtIsLast(pre, x, y);
        assert forall i :: 0 <= i < n ==> pre[i] == ms[i];
        if LastAt(pre, x, y).Some? {
          var i :| 0 <= i < n && Targets(pre[i], x, y) &&
            pre[i].cell == LastAt(pre, x, y).value && forall j :: i < j < n ==> !Targets(pre[j], x, y);
          assert ms[i] == pre[i];
        }
      }
    }
  }

  /** The last mover wins: after the replay a cell holds the cell of the last
      mover aimed at it, whatever was there, and a cell no mover aims at
      reads as before. */
  lemma {:induction false} ReplayRead(m: map<string, Chunk>, ms: seq<Mover>, t: real, x: int, y: int)
    requires AllShaped(m)
    ensures Read(Replay(m, ms, t), x, y, t) == match LastAt(ms, x, y) case Some(c) => c case None => Read(m, x, y, t)
    decreases |ms|
  {
    if |ms| > 0 {
      var n := |ms| - 1;
      var p := Replay(m, ms[..n], t);
      var mv := ms[n];
      if Targets(mv, x, y) {
        ReadAfterWrite(p, mv.toX, mv.toY, mv.cell, t, t);
      } else {
        ReadOtherAfterWrite(p, mv.toX, mv.toY, mv.cell, t, x, y);
        ReplayRead(m, ms[..n], t, x, y);
      }
    }
  }

  /** The commit: a cell of a committed chunk reads from its successor, any
      other cell from the world as it was. */
  lemma CommitRead(grown: map<string, Chunk>, next: map<string, Chunk>, x: int, y: int, t: real)
    requires AllShaped(grown) && AllShaped(next)
    ensures AllShaped(grown + next)
    ensures Read(grown + next, x, y, t) ==
      if KeyAt(x, y) in next then next[KeyAt(x, y)].cells[LocalCoord(y)][LocalCoord(x)] else Read(grown, x, y, t)
  {
  }

  /** Outside the committed chunks, a cell no mover aims at reads after the
      update as it did before it. */
  lemma UpdateElsewhere(m0: map<string, Chunk>, grown: map<string, Chunk>, r: Sweep, t: real, x: int, y: int)
    requires Grown(m0, grown, t) && AllShaped(r.next)
    requires KeyAt(x, y) !in r.next && LastAt(r.movers, x, y).None?
    ensures AllShaped(grown + r.next)
    ensures Read(Replay(grown + r.next, r.movers, t), x, y, t) == Read(m0, x, y, t)
  {
    CommitRead(grown, r.next, x, y, t);
    ReplayRead(grown + r.next, r.movers, t, x, y);
    GrownRead(m0, grown, t, x, y);
  }

  /** The six passes on one chunk, in place on a fresh copy. */
  method TickChunk(w: World, ghost m: map<string, Chunk>, c: Chunk, reg: Registry, rules: seq<Rule>, ambient: real,
                   rand: Draws, i: int, movers: seq<Mover>) returns (next: array2<Cell>, out: seq<Mover>)
    requires w.Valid() && Grown(m, w.chunks, ambient) && WellShaped(c)
    requires HasTemperatures(reg) && RulesComplete(rules)
    modifies w
    ensures fresh(next) && next.Length0 == CHUNK_SIZE && next.Length1 == CHUNK_SIZE
    ensures w.Valid() && Grown(m, w.chunks, ambient) && w.bodies == old(w.bodies)
    ensures PhysState(Snap(next), out) == Tick(c, m, reg, rules, ambient, rand, i, movers)
  {
    next := FromGrid(c.cells, CHUNK_SIZE, CHUNK_SIZE);
    ApplyTemperatureDiffusion(c.cells, next, reg);
    ApplyTemperatureEffects(c.cells, next, reg);
    ApplyIonization(c.cells, next, rand(i, IONIZE_PASS));
    ApplyLifeAndDecay(c.cells, next, reg, rand(i, LIFE_PASS));
    ApplyRules(c.cells, next, reg, rules, rand(i, RULES_PASS));
    out := ApplyPhysics(w, m, next, c.x, c.y, movers, reg, ambient, rand(i, PHYSICS_PASS));
  }

  /** What the lookup of key k can have found in a world grown from m: its
      chunk in m, or a chunk `getChunk` created since. */
  predicate EntryRight(k: string, e: Option<Chunk>, m: map<string, Chunk>, t: real) {
    (k in m ==> e == Some(m[k])) && (k !in m && e.Some? ==> VacuumChunk(e.value, k, t))
  }

  predicate FoundRight(keys: seq<string>, found: seq<Option<Chunk>>, m: map<string, Chunk>, t: real) {
    |found| <= |keys| && forall i :: 0 <= i < |found| ==> EntryRight(keys[i], found[i], m, t)
  }

  lemma FoundEntry(m: map<string, Chunk>, cur: map<string, Chunk>, k: string, t: real)
    requires Grown(m, cur, t)
    ensures EntryRight(k, if k in cur then Some(cur[k]) else None, m, t)
    ensures k in cur ==> WellShaped(cur[k])
  {
  }

  lemma FoundAppend(keys: seq<string>, found: seq<Option<Chunk>>, e: Option<Chunk>, m: map<string, Chunk>, t: real)
    requires FoundRight(keys, found, m, t) && FoundShaped(found) && |found| < |keys|
    requires EntryRight(keys[|found|], e, m, t) && (e.Some? ==> WellShaped(e.value))
    ensures FoundRight(keys, found + [e], m, t) && FoundShaped(found + [e])
  {
  }

  lemma SweepSnoc(keys: seq<string>, found: seq<Option<Chunk>>, e: Option<Chunk>, m: map<string, Chunk>,
                  reg: Registry, rules: seq<Rule>, ambient: real, rand: Draws)
    requires |found| < |keys| && FoundShaped(found) && FoundShaped(found + [e]) && AllShaped(m)
    requires HasTemperatures(reg) && RulesComplete(rules)
    ensures var prev := SweepOf(keys, found, m, reg, rules, ambient, rand);
      SweepOf(keys, found + [e], m, reg, rules, ambient, rand) ==
        match e
        case None => prev
        case Some(c) =>
          var s := Tick(c, m, reg, rules, ambient, rand, |found|, prev.movers);
          Sweep(prev.next[keys[|found|] := Chunk(s.grid, c.x, c.y)], s.movers)
  {
    assert (found + [e])[..|found|] == found;
  }

  lemma ReplaySnoc(m: map<string, Chunk>, ms: seq<Mover>, mv: Mover, t: real)
    requires AllShaped(m)
    ensures AllShaped(Replay(m, ms, t))
    ensures Replay(m, ms + [mv], t) == WriteCell(Replay(m, ms, t), mv.toX, mv.toY, mv.cell, t)
  {
    assert (ms + [mv])[..|ms|] == ms;
  }

  /** One visible key: the lookup, and for a chunk found its tick. */
  method VisitKey(w: World, ghost m0: map<string, Chunk>, keys: seq<string>, i: int, ghost found: seq<Option<Chunk>>,
                  nextStates: map<string, Chunk>, movers: seq<Mover>,
                  reg: Registry, rules: seq<Rule>, ambient: real, rand: Draws)
    returns (ghost found': seq<Option<Chunk>>, nextStates': map<string, Chunk>, movers': seq<Mover>)
    requires w.Valid() && Grown(m0, w.chunks, ambient) && HasTemperatures(reg) && RulesComplete(rules)
    requires i == |found| < |keys| && FoundRight(keys, found, m0, ambient) && FoundShaped(found)
    requires Sweep(nextStates, movers) == SweepOf(keys, found, m0, reg, rules, ambient, rand)
    modifies w
    ensures w.Valid() && Grown(m0, w.chunks, ambient) && w.bodies == old(w.bodies)
    ensures |found'| == |found| + 1 && FoundRight(keys, found', m0, ambient) && FoundShaped(found')
    ensures Sweep(nextStates', movers') == SweepOf(keys, found', m0, reg, rules, ambient, rand)
  {
    var key := keys[i];
    FoundEntry(m0, w.chunks, key, ambient);
    if key !in w.chunks {
      found' := found + [None];
      FoundAppend(keys, found, None, m0, ambient);
      SweepSnoc(keys, found, None, m0, reg, rules, ambient, rand);
      return found', nextStates, movers;
    }
    var chunk := w.chunks[key];
    found' := found + [Some(chunk)];
    FoundAppend(keys, found, Some(chunk), m0, ambient);
    SweepSnoc(keys, found, Some(chunk), m0, reg, rules, ambient, rand);
    var next;
    next, movers' := TickChunk(w, m0, chunk, reg, rules, ambient, rand, i, movers);
    nextStates' := nextStates[key := Chunk(Snap(next), chunk.x, chunk.y)];
  }

  /** The mover replay loop. */
  method ReplayMovers(w: World, movers: seq<Mover>, ambient: real)
    requires w.Valid()
    modifies w
    ensures w.Valid() && w.bodies == old(w.bodies)
    ensures w.chunks == Replay(old(w.chunks), movers, ambient)
  {
    ghost var base := w.chunks;
    for k := 0 to |movers|
      invariant w.Valid() && w.bodies == old(w.bodies)
      invariant w.chunks == Replay(base, movers[..k], ambient)
    {
      var move := movers[k];
      ReplaySnoc(base, movers[..k], move, ambient);
      TakeSnoc(movers, k);
      w.SetCell(move.toX, move.toY, move.cell, ambient);
    }
    assert movers[..|movers|] == movers;
  }

  /** `updateSpace` up to the body motion. `found` records the chunk each
      visible key looked up and `grown` the world just before the commit. */
  method UpdateSpace(w: World, visibleKeys: seq<string>, reg: Registry, rules: seq<Rule>, ambient: real, rand: Draws)
    returns (ghost found: seq<Option<Chunk>>, ghost grown: map<string, Chunk>)
    requires w.Valid() && HasTemperatures(reg) && RulesComplete(rules)
    modifies w
    ensures w.Valid() && w.bodies == old(w.bodies)
    ensures |found| == |visibleKeys| && FoundShaped(found) && FoundRight(visibleKeys, found, old(w.chunks), ambient)
    ensures Grown(old(w.chunks), grown, ambient)
    ensures var r := SweepOf(visibleKeys, found, old(w.chunks), reg, rules, ambient, rand);
      w.chunks == Replay(grown + r.next, r.movers, ambient)
  {
    ghost var m0 := w.chunks;
    GrownRefl(m0, ambient);
    var nextStates: map<string, Chunk> := map[];
    var crossChunkMovers: seq<Mover> := [];
    found := [];
    for i := 0 to |visibleKeys|
      invariant w.Valid() && Grown(m0, w.chunks, ambient) && w.bodies == old(w.bodies)
      invariant |found| == i && FoundRight(visibleKeys, found, m0, ambient) && FoundShaped(found)
      invariant Sweep(nextStates, crossChunkMovers) == SweepOf(visibleKeys, found, m0, reg, rules, ambient, rand)
    {
      found, nextStates, crossChunkMovers := VisitKey(w, m0, visibleKeys, i, found, nextStates, crossChunkMovers,
                                                      reg, rules, ambient, rand);
    }
    grown := w.chunks;
    CommitRead(grown, nextStates, 0, 0, ambient);
    w.chunks := w.chunks + nextStates;
    ReplayMovers(w, crossChunkMovers, ambient);
  }
}
