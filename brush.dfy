/** The round brush that both painters use: offsets (j, i) around the
    clicked cell for i and j from -radius to radius, skipping those with
    `Math.sqrt(i*i + j*j) > radius`. */
module Brush {

  /** `Math.floor(brushSize / 2)`; Dafny's division by a positive divisor
      already rounds down. */
  function Radius(brushSize: int): int {
    brushSize / 2
  }

  /** The offset (dx, dy) lies in the loops' square and within the radius.
      For integers and r >= 0, `sqrt(n) > r` holds exactly when n > r * r,
      so this is the loops' test negated. */
  predicate InBrush(dx: int, dy: int, r: int) {
    -r <= dx <= r && -r <= dy <= r && dx * dx + dy * dy <= r * r
  }

  /** The clicked cell is always painted; a negative radius paints nothing. */
  lemma BrushCentre(r: int)
    ensures InBrush(0, 0, r) <==> r >= 0
    ensures r < 0 ==> forall dx, dy :: !InBrush(dx, dy, r)
  {
    assert 0 * 0 + 0 * 0 == 0;
  }
}
