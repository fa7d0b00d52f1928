/** The eight-cell neighbourhood the chunk passes scan: `dy` from -1 to 1,
    inside it `dx` from -1 to 1, skipping the centre, keeping only offsets
    that stay inside the 32x32 chunk. */
module Neighbourhood {
  import opened Grids
  import opened World

  /** The offsets as (dx, dy), in the passes' scan order. */
  const OFFSETS: seq<(int, int)> := [(-1, -1), (0, -1), (1, -1), (-1, 0), (1, 0), (-1, 1), (0, 1), (1, 1)]

  predicate InChunk(x: int, y: int) {
    0 <= x < CHUNK_SIZE && 0 <= y < CHUNK_SIZE
  }

  predicate ChunkGrid(g: Grid) {
    IsRect(g, CHUNK_SIZE, CHUNK_SIZE)
  }

  /** The in-chunk neighbours among the first n offsets, as (x, y). */
  function NeighboursUpTo(x: int, y: int, n: nat): (ps: seq<(int, int)>)
    requires n <= |OFFSETS|
    ensures forall i :: 0 <= i < |ps| ==> InChunk(ps[i].0, ps[i].1) && Adjacent(x, y, ps[i])
  {
    if n == 0 then []
    else
      var ps := NeighboursUpTo(x, y, n - 1);
      var nx, ny := x + OFFSETS[n - 1].0, y + OFFSETS[n - 1].1;
      if InChunk(nx, ny) then ps + [(nx, ny)] else ps
  }

  function Neighbours(x: int, y: int): seq<(int, int)> {
    NeighboursUpTo(x, y, |OFFSETS|)
  }

  predicate Adjacent(x: int, y: int, p: (int, int)) {
    p != (x, y) && -1 <= p.0 - x <= 1 && -1 <= p.1 - y <= 1
  }

  /** Position of an offset in the scan: the scan visits offsets in
      increasing rank. */
  function Rank(x: int, y: int, p: (int, int)): int {
    3 * (p.1 - y) + (p.0 - x)
  }

  lemma {:induction false} NeighboursRanked(x: int, y: int, n: nat)
    requires 0 < n <= |OFFSETS|
    ensures forall i :: 0 <= i < |NeighboursUpTo(x, y, n)| ==>
      Rank(x, y, NeighboursUpTo(x, y, n)[i]) <= 3 * OFFSETS[n - 1].1 + OFFSETS[n - 1].0
    ensures forall i, j :: 0 <= i < j < |NeighboursUpTo(x, y, n)| ==>
      Rank(x, y, NeighboursUpTo(x, y, n)[i]) < Rank(x, y, NeighboursUpTo(x, y, n)[j])
  {
    if n > 1 {
      NeighboursRanked(x, y, n - 1);
    }
  }

  /** No cell is visited twice. */
  lemma NeighboursDistinct(x: int, y: int)
    ensures forall i, j :: 0 <= i < j < |Neighbours(x, y)| ==> Neighbours(x, y)[i] != Neighbours(x, y)[j]
  {
    NeighboursRanked(x, y, |OFFSETS|);
  }

  lemma {:induction false} NeighboursGrow(x: int, y: int, m: nat, n: nat)
    requires m <= n <= |OFFSETS|
    ensures forall q :: q in NeighboursUpTo(x, y, m) ==> q in NeighboursUpTo(x, y, n)
    decreases n
  {
    if m < n {
      NeighboursGrow(x, y, m, n - 1);
    }
  }

  /** Every in-chunk cell adjacent to (x, y) is visited. */
  lemma NeighboursComplete(x: int, y: int, p: (int, int))
    requires InChunk(p.0, p.1) && Adjacent(x, y, p)
    ensures p in Neighbours(x, y)
  {
    var dx, dy := p.0 - x, p.1 - y;
    var k := if dy == -1 then dx + 1 else if dy == 0 then (if dx < 0 then 3 else 4) else dx + 6;
    assert OFFSETS[k] == (dx, dy);
    assert p in NeighboursUpTo(x, y, k + 1);
    NeighboursGrow(x, y, k + 1, |OFFSETS|);
  }
}
