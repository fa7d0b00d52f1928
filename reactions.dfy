/** `applyRules` (js/engine.js): for every cell of the pre-tick chunk whose
    symbol is known, every rule in table order is gated (disabled rules and
    failed draws are skipped), then tried as combustion (a flammable cell
    next to oxygen catches fire) or as a reactant pattern: the centre symbol
    must match and the required neighbour symbols are matched greedily, in
    order, against the cell's in-chunk neighbours in scan order. A complete
    match turns the centre into the product and the first consumed matches
    into vacuum. All tests read the pre-tick chunk; the writes go into the
    successor, so the pass is a fold over cells and, within a cell, over
    rules. */
module Reactions {
  import opened Common
  import opened Grids
  import opened World
  import opened Elements
  import opened Neighbourhood
  import opened RuleTable

  /** One entry of the `neighbors` list the pattern match builds. */
  datatype Neighbor = Neighbor(x: int, y: int, symbol: string)

  predicate SamePlace(a: Neighbor, b: Neighbor) {
    a.x == b.x && a.y == b.y
  }

  /** `foundNeighbors.some(fn => fn.x === n.x && fn.y === n.y)`. */
  predicate Taken(found: seq<Neighbor>, n: Neighbor) {
    exists k :: 0 <= k < |found| && SamePlace(found[k], n)
  }

  /** The neighbour records of the given positions, read from the pre-tick
      chunk. */
  function PoolOf(chunk: Grid, ps: seq<(int, int)>): (pool: seq<Neighbor>)
    requires ChunkGrid(chunk)
    requires forall i :: 0 <= i < |ps| ==> InChunk(ps[i].0, ps[i].1)
    ensures |pool| == |ps|
    ensures forall i :: 0 <= i < |ps| ==> var p := ps[i];
      InChunk(p.0, p.1) && pool[i] == Neighbor(p.0, p.1, chunk[p.1][p.0].symbol)
    decreases |ps|
  {
    if |ps| == 0 then []
    else
      var p := ps[|ps| - 1];
      assert InChunk(p.0, p.1);
      PoolOf(chunk, ps[..|ps| - 1]) + [Neighbor(p.0, p.1, chunk[p.1][p.0].symbol)]
  }

  /** One more offset extends the pool by the neighbour it names, if in
      the chunk. */
  lemma PoolStep(chunk: Grid, x: int, y: int, i: nat)
    requires ChunkGrid(chunk) && i < |OFFSETS|
    ensures var nx, ny := x + OFFSETS[i].0, y + OFFSETS[i].1;
      PoolOf(chunk, NeighboursUpTo(x, y, i + 1)) ==
        PoolOf(chunk, NeighboursUpTo(x, y, i)) + (if InChunk(nx, ny) then [Neighbor(nx, ny, chunk[ny][nx].symbol)] else [])
  {
    var ps := NeighboursUpTo(x, y, i + 1);
    if InChunk(x + OFFSETS[i].0, y + OFFSETS[i].1) {
      assert ps[..|ps| - 1] == NeighboursUpTo(x, y, i);
    }
  }

  /** The in-chunk neighbours of (x, y) in scan order. */
  function Pool(chunk: Grid, x: int, y: int): seq<Neighbor>
    requires ChunkGrid(chunk)
  {
    PoolOf(chunk, Neighbours(x, y))
  }

  /** `neighbors.findIndex(...)`: the first entry with the symbol that is not
      yet taken, or -1. */
  function FindIndex(pool: seq<Neighbor>, s: string, found: seq<Neighbor>): (i: int)
    ensures -1 <= i < |pool|
    ensures i >= 0 ==> pool[i].symbol == s && !Taken(found, pool[i])
    ensures i >= 0 ==> forall j :: 0 <= j < i ==> pool[j].symbol != s || Taken(found, pool[j])
    ensures i == -1 ==> forall j :: 0 <= j < |pool| ==> pool[j].symbol != s || Taken(found, pool[j])
    decreases |pool|
  {
    if |pool| == 0 then -1
    else if pool[0].symbol == s && !Taken(found, pool[0]) then 0
    else
      var j := FindIndex(pool[1..], s, found);
      assert forall k :: 1 <= k < |pool| ==> pool[k] == pool[1..][k - 1];
      if j == -1 then -1 else j + 1
  }

  /** The matching loop over the required symbols: each one found is
      spliced out of the pool and appended to `found`. */
  function GreedyMatch(req: seq<string>, pool: seq<Neighbor>, found: seq<Neighbor>): (r: seq<Neighbor>)
    ensures |found| <= |r| <= |found| + |req|
    ensures r[..|found|] == found
    ensures forall i :: |found| <= i < |r| ==> r[i] in pool
    ensures |r| == |found| + |req| ==> forall i :: 0 <= i < |req| ==> r[|found| + i].symbol == req[i]
    decreases |req|
  {
    if |req| == 0 then found
    else
      var i := FindIndex(pool, req[0], found);
      if i == -1 then GreedyMatch(req[1..], pool, found)
      else
        var rest := pool[..i] + pool[i + 1..];
        var r := GreedyMatch(req[1..], rest, found + [pool[i]]);
        SpliceWithin(pool, i);
        assert r[..|found|] == (found + [pool[i]])[..|found|];
        assert r[|found|] == pool[i];
        assert |r| == |found| + |req| ==> forall k :: 0 <= k < |req| ==> r[|found| + k].symbol == req[k] by {
          if |r| == |found| + |req| {
            forall k | 0 <= k < |req| ensures r[|found| + k].symbol == req[k] {
              if k > 0 {
                assert r[|found + [pool[i]]| + (k - 1)].symbol == req[1..][k - 1];
              }
            }
          }
        }
        r
  }

  /** Splicing one entry out leaves only entries of the pool. */
  lemma SpliceWithin(pool: seq<Neighbor>, i: int)
    requires 0 <= i < |pool|
    ensures forall v :: v in pool[..i] + pool[i + 1..] ==> v in pool
  {
    assert pool == pool[..i] + [pool[i]] + pool[i + 1..];
  }

  /** No two pool entries share a position. */
  predicate DistinctPlaces(pool: seq<Neighbor>) {
    forall i, j :: 0 <= i < j < |pool| ==> !SamePlace(pool[i], pool[j])
  }

  /** No found entry shares a position with a pool entry. */
  predicate Apart(found: seq<Neighbor>, pool: seq<Neighbor>) {
    forall i, j :: 0 <= i < |found| && 0 <= j < |pool| ==> !SamePlace(found[i], pool[j])
  }

  ghost function Symbols(pool: seq<Neighbor>): multiset<string>
    decreases |pool|
  {
    if |pool| == 0 then multiset{} else multiset{pool[0].symbol} + Symbols(pool[1..])
  }

  lemma {:induction false} SymbolsConcat(a: seq<Neighbor>, b: seq<Neighbor>)
    ensures Symbols(a + b) == Symbols(a) + Symbols(b)
    decreases |a|
  {
    if |a| > 0 {
      assert (a + b)[0] == a[0];
      assert (a + b)[1..] == a[1..] + b;
      SymbolsConcat(a[1..], b);
      assert Symbols(a + b) == multiset{a[0].symbol} + Symbols(a[1..] + b);
      assert Symbols(a) == multiset{a[0].symbol} + Symbols(a[1..]);
    } else {
      assert a + b == b;
    }
  }

  lemma {:induction false} SymbolsHas(pool: seq<Neighbor>, s: string)
    ensures s in Symbols(pool) <==> exists j :: 0 <= j < |pool| && pool[j].symbol == s
    decreases |pool|
  {
    if |pool| > 0 {
      SymbolsHas(pool[1..], s);
      if s in Symbols(pool[1..]) {
        var j :| 0 <= j < |pool[1..]| && pool[1..][j].symbol == s;
        assert pool[j + 1].symbol == s;
      }
      if exists j :: 0 <= j < |pool| && pool[j].symbol == s {
        var j :| 0 <= j < |pool| && pool[j].symbol == s;
        if j > 0 {
          assert pool[1..][j - 1].symbol == s;
        }
      }
    }
  }

  /** Removing entry i takes its symbol out of the pool's multiset. */
  lemma SymbolsSplice(pool: seq<Neighbor>, i: int)
    requires 0 <= i < |pool|
    ensures Symbols(pool[..i] + pool[i + 1..]) + multiset{pool[i].symbol} == Symbols(pool)
  {
    var pre, mid, post := pool[..i], [pool[i]], pool[i + 1..];
    assert pool == pre + (mid + post);
    SymbolsConcat(pre, mid + post);
    SymbolsConcat(mid, post);
    SymbolsConcat(pre, post);
    assert Symbols(mid) == multiset{pool[i].symbol} by {
      assert mid[1..] == [];
    }
  }

  lemma MultisetCancel<T>(a: T, m: multiset<T>, n: multiset<T>)
    ensures multiset{a} + m <= n + multiset{a} <==> m <= n
  {
    if multiset{a} + m <= n + multiset{a} {
      forall x | x in m
        ensures m[x] <= n[x]
      {
        assert (multiset{a} + m)[x] <= (n + multiset{a})[x];
      }
    }
  }

  /** Splicing out entry i keeps the invariant of the matching loop. */
  lemma SpliceApart(found: seq<Neighbor>, pool: seq<Neighbor>, i: int)
    requires 0 <= i < |pool| && DistinctPlaces(pool) && Apart(found, pool)
    ensures DistinctPlaces(pool[..i] + pool[i + 1..])
    ensures Apart(found + [pool[i]], pool[..i] + pool[i + 1..])
  {
    var rest := pool[..i] + pool[i + 1..];
    assert forall j :: 0 <= j < |rest| ==> rest[j] == pool[if j < i then j else j + 1];
  }

  /** The matching succeeds, for a pool of distinct places with nothing yet
      taken from it, exactly when the pool holds the required symbols with
      their multiplicities: the `!foundNeighbors.some(...)` test never
      rejects an entry, and greedy choice never misses a match. */
  lemma {:induction false} GreedyMatchComplete(req: seq<string>, pool: seq<Neighbor>, found: seq<Neighbor>)
    requires DistinctPlaces(pool) && Apart(found, pool)
    ensures |GreedyMatch(req, pool, found)| == |found| + |req| <==> multiset(req) <= Symbols(pool)
    decreases |req|
  {
    if |req| > 0 {
      assert req == [req[0]] + req[1..];
      assert multiset(req) == multiset{req[0]} + multiset(req[1..]);
      var i := FindIndex(pool, req[0], found);
      if i == -1 {
        SymbolsHas(pool, req[0]);
      } else {
        var rest := pool[..i] + pool[i + 1..];
        SpliceApart(found, pool, i);
        GreedyMatchComplete(req[1..], rest, found + [pool[i]]);
        SymbolsSplice(pool, i);
        assert GreedyMatch(req, pool, found) == GreedyMatch(req[1..], rest, found + [pool[i]]);
        assert Symbols(pool) == Symbols(rest) + multiset{req[0]};
        MultisetCancel(req[0], multiset(req[1..]), Symbols(rest));
      }
    }
  }

  /** The match of a centre cell: the positions found all come from the
      pool, and the match is complete exactly when the in-chunk neighbours
      hold every required symbol, with multiplicity. */
  lemma MatchMeansPresent(chunk: Grid, x: int, y: int, req: seq<string>)
    requires ChunkGrid(chunk)
    ensures var found := GreedyMatch(req, Pool(chunk, x, y), []);
      (|found| == |req| <==> multiset(req) <= Symbols(Pool(chunk, x, y))) &&
      forall i :: 0 <= i < |found| ==> found[i] in Pool(chunk, x, y)
  {
    var ns := Neighbours(x, y);
    NeighboursDistinct(x, y);
    var pool := Pool(chunk, x, y);
    assert DistinctPlaces(pool) by {
      forall i, j | 0 <= i < j < |pool|
        ensures !SamePlace(pool[i], pool[j])
      {
        assert ns[i] != ns[j];
      }
    }
    GreedyMatchComplete(req, pool, []);
  }

  /** The loop over the required symbols, splicing as the source does. */
  method MatchNeighbors(req: seq<string>, pool: seq<Neighbor>) returns (found: seq<Neighbor>)
    ensures found == GreedyMatch(req, pool, [])
  {
    var neighbors := pool;
    found := [];
    for i := 0 to |req|
      invariant GreedyMatch(req[i..], neighbors, found) == GreedyMatch(req, pool, [])
    {
      assert req[i..][1..] == req[i + 1..];
      var foundIndex := FindIndex(neighbors, req[i], found);
      if foundIndex != -1 {
        found := found + [neighbors[foundIndex]];
        neighbors := neighbors[..foundIndex] + neighbors[foundIndex + 1..];
      }
    }
    assert req[|req|..] == [];
  }

  /** `elements.VACUUM ? elements.VACUUM.temperature : -273`. */
  function VacuumTemp(reg: Registry): real
    requires HasTemperatures(reg)
  {
    if "VACUUM" in reg then Nominal(reg["VACUUM"]) else -273.0
  }

  /** `elements.FIRE ? elements.FIRE.temperature : 800`. */
  function FireTemp(reg: Registry): real
    requires HasTemperatures(reg)
  {
    if "FIRE" in reg then Nominal(reg["FIRE"]) else 800.0
  }

  /** Some in-chunk neighbour is oxygen in the pre-tick chunk. */
  predicate OxygenNear(chunk: Grid, x: int, y: int)
    requires ChunkGrid(chunk)
  {
    exists i :: 0 <= i < |Pool(chunk, x, y)| && Pool(chunk, x, y)[i].symbol == "O"
  }

  lemma OxygenNearMeans(chunk: Grid, x: int, y: int)
    requires ChunkGrid(chunk)
    ensures OxygenNear(chunk, x, y) <==>
      exists nx, ny :: InChunk(nx, ny) && Adjacent(x, y, (nx, ny)) && chunk[ny][nx].symbol == "O"
  {
    var ns := Neighbours(x, y);
    if exists nx, ny :: InChunk(nx, ny) && Adjacent(x, y, (nx, ny)) && chunk[ny][nx].symbol == "O" {
      var nx, ny :| InChunk(nx, ny) && Adjacent(x, y, (nx, ny)) && chunk[ny][nx].symbol == "O";
      NeighboursComplete(x, y, (nx, ny));
      var i :| 0 <= i < |ns| && ns[i] == (nx, ny);
      assert Pool(chunk, x, y)[i].symbol == "O";
    }
    if OxygenNear(chunk, x, y) {
      var i :| 0 <= i < |Pool(chunk, x, y)| && Pool(chunk, x, y)[i].symbol == "O";
      assert InChunk(ns[i].0, ns[i].1) && Adjacent(x, y, ns[i]);
    }
  }

  /** `rule.products.consumed_neighbors || 0`. */
  function ConsumedCount(p: Products): int {
    if p.consumed.Some? then p.consumed.value else 0
  }

  predicate FoundInChunk(found: seq<Neighbor>) {
    forall k :: 0 <= k < |found| ==> InChunk(found[k].x, found[k].y)
  }

  /** The consumption loop after its first n rounds: each listed neighbour
      becomes its pre-tick self turned to vacuum. */
  function ConsumeUpTo(chunk: Grid, g: Grid, found: seq<Neighbor>, n: nat, reg: Registry): (r: Grid)
    requires ChunkGrid(chunk) && ChunkGrid(g) && FoundInChunk(found) && HasTemperatures(reg)
    ensures ChunkGrid(r)
  {
    if n == 0 then g
    else
      var g1 := ConsumeUpTo(chunk, g, found, n - 1, reg);
      if n - 1 < |found| then
        var f := found[n - 1];
        assert InChunk(f.x, f.y);
        var v := chunk[f.y][f.x].(symbol := "VACUUM", temperature := VacuumTemp(reg));
        PutShape(g1, f.y, f.x, v, CHUNK_SIZE, CHUNK_SIZE);
        Put(g1, f.y, f.x, v)
      else g1
  }

  /** The gate: `!rule.enabled || Math.random() > (rule.probability || 1.0)`. */
  predicate Gated(rule: Rule, d: Draw) {
    !rule.enabled || d > OrReal(rule.probability, 1.0)
  }

  predicate Burns(rule: Rule, e: Element) {
    rule.isCombustion && e.flammable
  }

  predicate Centred(rule: Rule, s: string) {
    rule.reactants.Some? && s == rule.reactants.value.center
  }

  /** `[...(rule.reactants.neighbors || [])]`. */
  function Required(rule: Rule): seq<string>
    requires rule.reactants.Some?
  {
    if rule.reactants.value.neighbors.Some? then rule.reactants.value.neighbors.value else []
  }

  /** The product cell: the successor cell with the product's symbol and, if
      the product is registered, its nominal temperature. */
  function ProductCell(c: Cell, product: string, reg: Registry): Cell
    requires HasTemperatures(reg)
  {
    c.(symbol := product, temperature := if product in reg then Nominal(reg[product]) else c.temperature)
  }

  /** One rule tried at (x, y), with draw d. */
  function ApplyRule(chunk: Grid, g: Grid, x: int, y: int, reg: Registry, rule: Rule, d: Draw): (r: Grid)
    requires ChunkGrid(chunk) && ChunkGrid(g) && InChunk(x, y)
    requires HasTemperatures(reg) && RuleComplete(rule) && chunk[y][x].symbol in reg
    ensures ChunkGrid(r)
  {
    var cell := chunk[y][x];
    if Gated(rule, d) then g
    else if Burns(rule, reg[cell.symbol]) then
      if OxygenNear(chunk, x, y) then
        var v := g[y][x].(symbol := "FIRE", temperature := FireTemp(reg));
        PutShape(g, y, x, v, CHUNK_SIZE, CHUNK_SIZE);
        Put(g, y, x, v)
      else g
    else if Centred(rule, cell.symbol) then
      var req := Required(rule);
      var found := GreedyMatch(req, Pool(chunk, x, y), []);
      if |found| == |req| then
        var g1 := Put(g, y, x, ProductCell(g[y][x], rule.products.value.center, reg));
        PutShape(g, y, x, ProductCell(g[y][x], rule.products.value.center, reg), CHUNK_SIZE, CHUNK_SIZE);
        MatchInChunk(chunk, x, y, req);
        ConsumeUpTo(chunk, g1, found, Max(0, ConsumedCount(rule.products.value)), reg)
      else g
    else g
  }

  /** Matched positions lie in the chunk. */
  lemma MatchInChunk(chunk: Grid, x: int, y: int, req: seq<string>)
    requires ChunkGrid(chunk)
    ensures FoundInChunk(GreedyMatch(req, Pool(chunk, x, y), []))
  {
    var ns := Neighbours(x, y);
    var found := GreedyMatch(req, Pool(chunk, x, y), []);
    forall k | 0 <= k < |found|
      ensures InChunk(found[k].x, found[k].y)
    {
      var i :| 0 <= i < |ns| && Pool(chunk, x, y)[i] == found[k];
      assert InChunk(ns[i].0, ns[i].1);
    }
  }

  /** The rules 0 .. k-1 tried at (x, y), rule i with draw `rng(x, y, i)`. */
  function RulesUpTo(chunk: Grid, g: Grid, x: int, y: int, reg: Registry, rules: seq<Rule>, rng: Oracle, k: nat): (r: Grid)
    requires ChunkGrid(chunk) && ChunkGrid(g) && InChunk(x, y)
    requires HasTemperatures(reg) && RulesComplete(rules) && chunk[y][x].symbol in reg
    requires k <= |rules|
    ensures ChunkGrid(r)
  {
    if k == 0 then g
    else ApplyRule(chunk, RulesUpTo(chunk, g, x, y, reg, rules, rng, k - 1), x, y, reg, rules[k - 1], rng(x, y, k - 1))
  }

  /** The visit of cell (x, y): an unknown pre-tick symbol is skipped. */
  function RulesStep(chunk: Grid, g: Grid, x: int, y: int, reg: Registry, rules: seq<Rule>, rng: Oracle): (r: Grid)
    requires ChunkGrid(chunk) && ChunkGrid(g) && InChunk(x, y)
    requires HasTemperatures(reg) && RulesComplete(rules)
    ensures ChunkGrid(r)
  {
    if chunk[y][x].symbol !in reg then g
    else RulesUpTo(chunk, g, x, y, reg, rules, rng, |rules|)
  }

  function RulesGridUpTo(chunk: Grid, g0: Grid, reg: Registry, rules: seq<Rule>, rng: Oracle, y: int, x: int): (r: Grid)
    requires ChunkGrid(chunk) && ChunkGrid(g0) && HasTemperatures(reg) && RulesComplete(rules)
    requires 0 <= y < CHUNK_SIZE && 0 <= x <= CHUNK_SIZE
    ensures ChunkGrid(r)
    decreases y, x
  {
    if x == 0 then (if y == 0 then g0 else RulesGridUpTo(chunk, g0, reg, rules, rng, y - 1, CHUNK_SIZE))
    else RulesStep(chunk, RulesGridUpTo(chunk, g0, reg, rules, rng, y, x - 1), x - 1, y, reg, rules, rng)
  }

  function RulesGrid(chunk: Grid, g0: Grid, reg: Registry, rules: seq<Rule>, rng: Oracle): Grid
    requires ChunkGrid(chunk) && ChunkGrid(g0) && HasTemperatures(reg) && RulesComplete(rules)
  {
    RulesGridUpTo(chunk, g0, reg, rules, rng, CHUNK_SIZE - 1, CHUNK_SIZE)
  }

  /** A disabled rule, or one whose draw exceeds its probability, changes
      nothing; a probability that is absent or 0 (falsy) lets every draw
      through. */
  lemma GateCases(chunk: Grid, g: Grid, x: int, y: int, reg: Registry, rule: Rule, d: Draw)
    requires ChunkGrid(chunk) && ChunkGrid(g) && InChunk(x, y)
    requires HasTemperatures(reg) && RuleComplete(rule) && chunk[y][x].symbol in reg
    ensures !rule.enabled ==> ApplyRule(chunk, g, x, y, reg, rule, d) == g
    ensures rule.probability.Some? && rule.probability.value != 0.0 && d > rule.probability.value ==>
      ApplyRule(chunk, g, x, y, reg, rule, d) == g
    ensures rule.enabled && (rule.probability.None? || rule.probability == Some(0.0)) ==> !Gated(rule, d)
  {
  }

  /** Combustion: past the gate, a flammable cell becomes FIRE at the fire
      temperature, keeping its lifespan, exactly when an in-chunk neighbour
      is oxygen in the pre-tick chunk; nothing else changes, and no
      reactant pattern is tried for that rule. */
  lemma CombustionEffect(chunk: Grid, g: Grid, x: int, y: int, reg: Registry, rule: Rule, d: Draw)
    requires ChunkGrid(chunk) && ChunkGrid(g) && InChunk(x, y)
    requires HasTemperatures(reg) && RuleComplete(rule) && chunk[y][x].symbol in reg
    requires !Gated(rule, d) && Burns(rule, reg[chunk[y][x].symbol])
    ensures var r := ApplyRule(chunk, g, x, y, reg, rule, d);
      (exists nx, ny :: InChunk(nx, ny) && Adjacent(x, y, (nx, ny)) && chunk[ny][nx].symbol == "O") ==>
        r == Put(g, y, x, Cell("FIRE", FireTemp(reg), g[y][x].lifespan))
    ensures var r := ApplyRule(chunk, g, x, y, reg, rule, d);
      (forall nx, ny :: InChunk(nx, ny) && Adjacent(x, y, (nx, ny)) ==> chunk[ny][nx].symbol != "O") ==>
        r == g
  {
    OxygenNearMeans(chunk, x, y);
  }

  /** The consumption loop writes only the listed places, with vacuum. */
  lemma {:induction false} ConsumeEffect(chunk: Grid, g: Grid, found: seq<Neighbor>, n: nat, reg: Registry)
    requires ChunkGrid(chunk) && ChunkGrid(g) && FoundInChunk(found) && HasTemperatures(reg)
    ensures forall i, j :: InChunk(j, i) ==>
      var r := ConsumeUpTo(chunk, g, found, n, reg);
      (r[i][j] == g[i][j] ||
       ((exists k :: 0 <= k < n && k < |found| && found[k].x == j && found[k].y == i) &&
        r[i][j] == chunk[i][j].(symbol := "VACUUM", temperature := VacuumTemp(reg))))
    ensures forall k :: 0 <= k < n && k < |found| ==>
      var f := found[k];
      ConsumeUpTo(chunk, g, found, n, reg)[f.y][f.x] == chunk[f.y][f.x].(symbol := "VACUUM", temperature := VacuumTemp(reg))
  {
    if n > 0 {
      ConsumeEffect(chunk, g, found, n - 1, reg);
    }
  }

  /** A reactant rule past the gate, on a non-burning cell with the centre
      symbol, fires exactly when the pre-tick neighbours hold the required
      symbols with multiplicity; then the centre takes the product. */
  lemma PatternEffect(chunk: Grid, g: Grid, x: int, y: int, reg: Registry, rule: Rule, d: Draw)
    requires ChunkGrid(chunk) && ChunkGrid(g) && InChunk(x, y)
    requires HasTemperatures(reg) && RuleComplete(rule) && chunk[y][x].symbol in reg
    requires !Gated(rule, d) && !Burns(rule, reg[chunk[y][x].symbol]) && Centred(rule, chunk[y][x].symbol)
    requires multiset(Required(rule)) <= Symbols(Pool(chunk, x, y))
    ensures ApplyRule(chunk, g, x, y, reg, rule, d)[y][x] == ProductCell(g[y][x], rule.products.value.center, reg)
  {
    FiringIs(chunk, g, x, y, reg, rule, d);
    var req := Required(rule);
    MatchAdjacent(chunk, x, y, req);
    var found := GreedyMatch(req, Pool(chunk, x, y), []);
    var g1 := Put(g, y, x, ProductCell(g[y][x], rule.products.value.center, reg));
    var n := Max(0, ConsumedCount(rule.products.value));
    ConsumeEffect(chunk, g1, found, n, reg);
    // A consumed place is a neighbour, never the centre itself.
    assert !exists k :: 0 <= k < n && k < |found| && found[k].x == x && found[k].y == y;
  }

  /** After the centre's write, the consumption changes only listed places
      besides the centre, and turns each listed place into vacuum. */
  lemma ConsumeAfterCentre(chunk: Grid, g: Grid, x: int, y: int, v: Cell, found: seq<Neighbor>, n: nat, reg: Registry)
    requires ChunkGrid(chunk) && ChunkGrid(g) && InChunk(x, y) && FoundInChunk(found) && HasTemperatures(reg)
    ensures ChunkGrid(Put(g, y, x, v))
    ensures var r := ConsumeUpTo(chunk, Put(g, y, x, v), found, n, reg);
      (forall k :: 0 <= k < n && k < |found| ==>
        r[found[k].y][found[k].x] == chunk[found[k].y][found[k].x].(symbol := "VACUUM", temperature := VacuumTemp(reg))) &&
      (forall i, j :: InChunk(j, i) && (j, i) != (x, y) && r[i][j] != g[i][j] ==>
        exists k :: 0 <= k < n && k < |found| && found[k].x == j && found[k].y == i)
  {
    PutShape(g, y, x, v, CHUNK_SIZE, CHUNK_SIZE);
    ConsumeEffect(chunk, Put(g, y, x, v), found, n, reg);
  }

  /** The rest of a firing: the first `consumed_neighbors` matched
      neighbours become vacuum at the vacuum temperature, and no cell other
      than the centre and those changes. */
  lemma PatternConsumes(chunk: Grid, g: Grid, x: int, y: int, reg: Registry, rule: Rule, d: Draw)
    requires ChunkGrid(chunk) && ChunkGrid(g) && InChunk(x, y)
    requires HasTemperatures(reg) && RuleComplete(rule) && chunk[y][x].symbol in reg
    requires !Gated(rule, d) && !Burns(rule, reg[chunk[y][x].symbol]) && Centred(rule, chunk[y][x].symbol)
    requires multiset(Required(rule)) <= Symbols(Pool(chunk, x, y))
    ensures var r := ApplyRule(chunk, g, x, y, reg, rule, d);
      var found := GreedyMatch(Required(rule), Pool(chunk, x, y), []);
      var n := Max(0, ConsumedCount(rule.products.value));
      |found| == |Required(rule)| &&
      (forall k :: 0 <= k < n && k < |found| ==>
        InChunk(found[k].x, found[k].y) && Adjacent(x, y, (found[k].x, found[k].y)) &&
        r[found[k].y][found[k].x] == chunk[found[k].y][found[k].x].(symbol := "VACUUM", temperature := VacuumTemp(reg))) &&
      (forall i, j :: InChunk(j, i) && (j, i) != (x, y) && r[i][j] != g[i][j] ==>
        exists k :: 0 <= k < n && k < |found| && found[k].x == j && found[k].y == i)
  {
    var req := Required(rule);
    var found := GreedyMatch(req, Pool(chunk, x, y), []);
    var n := Max(0, ConsumedCount(rule.products.value));
    var v := ProductCell(g[y][x], rule.products.value.center, reg);
    MatchInChunk(chunk, x, y, req);
    FiringIs(chunk, g, x, y, reg, rule, d);
    ConsumeAfterCentre(chunk, g, x, y, v, found, n, reg);
    MatchAdjacent(chunk, x, y, req);
  }

  /** A firing rule is the centre's write followed by the consumption. */
  lemma FiringIs(chunk: Grid, g: Grid, x: int, y: int, reg: Registry, rule: Rule, d: Draw)
    requires ChunkGrid(chunk) && ChunkGrid(g) && InChunk(x, y)
    requires HasTemperatures(reg) && RuleComplete(rule) && chunk[y][x].symbol in reg
    requires !Gated(rule, d) && !Burns(rule, reg[chunk[y][x].symbol]) && Centred(rule, chunk[y][x].symbol)
    requires multiset(Required(rule)) <= Symbols(Pool(chunk, x, y))
    ensures ChunkGrid(Put(g, y, x, ProductCell(g[y][x], rule.products.value.center, reg)))
    ensures FoundInChunk(GreedyMatch(Required(rule), Pool(chunk, x, y), []))
    ensures |GreedyMatch(Required(rule), Pool(chunk, x, y), [])| == |Required(rule)|
    ensures ApplyRule(chunk, g, x, y, reg, rule, d) ==
      ConsumeUpTo(chunk, Put(g, y, x, ProductCell(g[y][x], rule.products.value.center, reg)),
                  GreedyMatch(Required(rule), Pool(chunk, x, y), []), Max(0, ConsumedCount(rule.products.value)), reg)
  {
    MatchMeansPresent(chunk, x, y, Required(rule));
    MatchInChunk(chunk, x, y, Required(rule));
    PutShape(g, y, x, ProductCell(g[y][x], rule.products.value.center, reg), CHUNK_SIZE, CHUNK_SIZE);
  }

  /** Matched positions are neighbours of the centre. */
  lemma MatchAdjacent(chunk: Grid, x: int, y: int, req: seq<string>)
    requires ChunkGrid(chunk)
    ensures var found := GreedyMatch(req, Pool(chunk, x, y), []);
      forall k :: 0 <= k < |found| ==> Adjacent(x, y, (found[k].x, found[k].y))
  {
    var ns := Neighbours(x, y);
    var pool := Pool(chunk, x, y);
    assert |pool| == |ns|;
    var found := GreedyMatch(req, pool, []);
    MatchMeansPresent(chunk, x, y, req);
    forall k | 0 <= k < |found|
      ensures Adjacent(x, y, (found[k].x, found[k].y))
    {
      assert found[k] in pool;
      var i :| 0 <= i < |pool| && pool[i] == found[k];
      assert Adjacent(x, y, ns[i]);
    }
  }

  /** A reactant rule whose pattern is not present changes nothing. */
  lemma PatternAbsent(chunk: Grid, g: Grid, x: int, y: int, reg: Registry, rule: Rule, d: Draw)
    requires ChunkGrid(chunk) && ChunkGrid(g) && InChunk(x, y)
    requires HasTemperatures(reg) && RuleComplete(rule) && chunk[y][x].symbol in reg
    requires !Burns(rule, reg[chunk[y][x].symbol]) && Centred(rule, chunk[y][x].symbol)
    requires !(multiset(Required(rule)) <= Symbols(Pool(chunk, x, y)))
    ensures ApplyRule(chunk, g, x, y, reg, rule, d) == g
  {
    MatchMeansPresent(chunk, x, y, Required(rule));
  }

  /** With the shipped table, rule 0 (probability 1, so every draw passes)
      turns an oxygen cell with two hydrogen neighbours into water. */
  lemma WaterFormation(chunk: Grid, g: Grid, x: int, y: int, reg: Registry, d: Draw)
    requires ChunkGrid(chunk) && ChunkGrid(g) && InChunk(x, y) && HasTemperatures(reg)
    requires chunk[y][x].symbol == "O" && "O" in reg
    requires multiset{"H", "H"} <= Symbols(Pool(chunk, x, y))
    ensures ApplyRule(chunk, g, x, y, reg, RULES_DATA[0], d)[y][x] == ProductCell(g[y][x], "H2O", reg)
  {
    var rule := RULES_DATA[0];
    assert multiset(Required(rule)) == multiset{"H", "H"};
    PatternEffect(chunk, g, x, y, reg, rule, d);
  }

  /** The consumption loop, in place. */
  method Consume(chunk: Grid, next: array2<Cell>, found: seq<Neighbor>, n: int, reg: Registry)
    requires ChunkGrid(chunk) && next.Length0 == CHUNK_SIZE && next.Length1 == CHUNK_SIZE
    requires FoundInChunk(found) && HasTemperatures(reg)
    modifies next
    ensures Snap(next) == ConsumeUpTo(chunk, old(Snap(next)), found, Max(0, n), reg)
  {
    ghost var g0 := Snap(next);
    for i := 0 to Max(0, n)
      invariant Snap(next) == ConsumeUpTo(chunk, g0, found, i, reg)
    {
      if i < |found| {
        var neighborToConsume := found[i];
        Write(next, neighborToConsume.y, neighborToConsume.x,
              chunk[neighborToConsume.y][neighborToConsume.x].(symbol := "VACUUM", temperature := VacuumTemp(reg)));
      }
    }
  }

  /** The neighbour records of (x, y), gathered as the scan does. */
  method GatherNeighbors(chunk: Grid, x: int, y: int) returns (neighbors: seq<Neighbor>)
    requires ChunkGrid(chunk)
    ensures neighbors == Pool(chunk, x, y)
  {
    neighbors := [];
    for i := 0 to |OFFSETS|
      invariant neighbors == PoolOf(chunk, NeighboursUpTo(x, y, i))
    {
      var nx, ny := x + OFFSETS[i].0, y + OFFSETS[i].1;
      PoolStep(chunk, x, y, i);
      if InChunk(nx, ny) {
        neighbors := neighbors + [Neighbor(nx, ny, chunk[ny][nx].symbol)];
      }
    }
  }

  /** The combustion scan over the pre-tick neighbours. */
  method OxygenScan(chunk: Grid, x: int, y: int) returns (near: bool)
    requires ChunkGrid(chunk)
    ensures near == OxygenNear(chunk, x, y)
  {
    var neighbors := GatherNeighbors(chunk, x, y);
    near := false;
    for i := 0 to |neighbors|
      invariant near <==> exists j :: 0 <= j < i && neighbors[j].symbol == "O"
    {
      if neighbors[i].symbol == "O" {
        near := true;
      }
    }
  }

  /** One rule at (x, y), in place. */
  method ApplyRuleAt(chunk: Grid, next: array2<Cell>, x: int, y: int, reg: Registry, rule: Rule, d: Draw)
    requires ChunkGrid(chunk) && next.Length0 == CHUNK_SIZE && next.Length1 == CHUNK_SIZE && InChunk(x, y)
    requires HasTemperatures(reg) && RuleComplete(rule) && chunk[y][x].symbol in reg
    modifies next
    ensures Snap(next) == ApplyRule(chunk, old(Snap(next)), x, y, reg, rule, d)
  {
    var cell := chunk[y][x];
    var element := reg[cell.symbol];
    if Gated(rule, d) {
      return;
    }
    if Burns(rule, element) {
      var near := OxygenScan(chunk, x, y);
      if near {
        Write(next, y, x, next[y, x].(symbol := "FIRE", temperature := FireTemp(reg)));
      }
      return;
    }
    if Centred(rule, cell.symbol) {
      var requiredNeighbors := Required(rule);
      var neighbors := GatherNeighbors(chunk, x, y);
      var foundNeighbors := MatchNeighbors(requiredNeighbors, neighbors);
      if |foundNeighbors| == |requiredNeighbors| {
        MatchInChunk(chunk, x, y, requiredNeighbors);
        var products := rule.products.value;
        Write(next, y, x, ProductCell(next[y, x], products.center, reg));
        Consume(chunk, next, foundNeighbors, ConsumedCount(products), reg);
      }
    }
  }

  /** All rules at (x, y), in table order. */
  method RulesAt(chunk: Grid, next: array2<Cell>, x: int, y: int, reg: Registry, rules: seq<Rule>, rng: Oracle)
    requires ChunkGrid(chunk) && next.Length0 == CHUNK_SIZE && next.Length1 == CHUNK_SIZE && InChunk(x, y)
    requires HasTemperatures(reg) && RulesComplete(rules)
    modifies next
    ensures Snap(next) == RulesStep(chunk, old(Snap(next)), x, y, reg, rules, rng)
  {
    if chunk[y][x].symbol !in reg {
      return;
    }
    ghost var g0 := Snap(next);
    for k := 0 to |rules|
      invariant Snap(next) == RulesUpTo(chunk, g0, x, y, reg, rules, rng, k)
    {
      ApplyRuleAt(chunk, next, x, y, reg, rules[k], rng(x, y, k));
    }
  }

  /** The rule loop over the chunk. */
  method ApplyRules(chunk: Grid, next: array2<Cell>, reg: Registry, rules: seq<Rule>, rng: Oracle)
    requires ChunkGrid(chunk) && next.Length0 == CHUNK_SIZE && next.Length1 == CHUNK_SIZE
    requires HasTemperatures(reg) && RulesComplete(rules)
    modifies next
    ensures Snap(next) == RulesGrid(chunk, old(Snap(next)), reg, rules, rng)
  {
    ghost var g0 := Snap(next);
    for y := 0 to CHUNK_SIZE
      invariant Snap(next) == if y == 0 then g0 else RulesGridUpTo(chunk, g0, reg, rules, rng, y - 1, CHUNK_SIZE)
    {
      for x := 0 to CHUNK_SIZE
        invariant Snap(next) == RulesGridUpTo(chunk, g0, reg, rules, rng, y, x)
      {
        RulesAt(chunk, next, x, y, reg, rules, rng);
      }
    }
  }
}
