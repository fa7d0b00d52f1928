/** Values shared by every part of the model: optional fields, random draws
    and the truthiness of JavaScript's `||` on numbers. */
module Common {

  /** A field that may be absent from an object literal (`undefined`). */
  datatype Option<T> = None | Some(value: T)

  /** One value of `Math.random()`: a real in [0, 1). */
  type Draw = r: real | 0.0 <= r < 1.0 witness 0.0

  /** A source of random draws. `rand(x, y, k)` is the k-th draw a pass makes
      while it visits cell (x, y); every call site of `Math.random()` is
      visited at most once per cell and pass, so this is as general as one
      shared stream. */
  type Oracle = (int, int, int) -> Draw

  /** JavaScript `v || d` for a number field: `undefined` and `0` are falsy. */
  function OrReal(v: Option<real>, d: real): real {
    if v.Some? && v.value != 0.0 then v.value else d
  }

  /** JavaScript `v || d` for an integer field. */
  function OrInt(v: Option<int>, d: Option<int>): Option<int> {
    if v.Some? && v.value != 0 then v else d
  }

  /** `Math.floor(r)`. */
  function Floor(r: real): int {
    r.Floor
  }

  /** `Math.ceil(r)`. */
  function Ceil(r: real): (c: int)
    ensures c as real - 1.0 < r <= c as real
  {
    -((-r).Floor)
  }

  /** `Math.round(r)`: halves round towards positive infinity. */
  function Round(r: real): int {
    (r + 0.5).Floor
  }

  function Min(a: int, b: int): int { if a <= b then a else b }
  function Max(a: int, b: int): int { if a >= b then a else b }

  /** A prefix one longer is the prefix plus the next element. */
  lemma TakeSnoc<T>(s: seq<T>, k: int)
    requires 0 <= k < |s|
    ensures s[..k + 1] == s[..k] + [s[k]]
  {
  }
}

/** Dense rectangular grids, as values (`seq<seq<T>>`, row-major: `g[y][x]`)
    and as `array2<T>` buffers (`a[y, x]`), with the two updates the
    simulators perform on them: writing one cell and swapping two. */
module Grids {

  predicate IsRect<T>(g: seq<seq<T>>, h: nat, w: nat) {
    |g| == h && forall i :: 0 <= i < h ==> |g[i]| == w
  }

  predicate InGrid<T>(g: seq<seq<T>>, y: int, x: int) {
    0 <= y < |g| && 0 <= x < |g[y]|
  }

  /** `g[y][x] = v`. */
  function Put<T>(g: seq<seq<T>>, y: int, x: int, v: T): seq<seq<T>>
    requires InGrid(g, y, x)
  {
    g[y := g[y][x := v]]
  }

  /** `[g[y1][x1], g[y2][x2]] = [g[y2][x2], g[y1][x1]]`. */
  function Swap<T>(g: seq<seq<T>>, y1: int, x1: int, y2: int, x2: int): seq<seq<T>>
    requires InGrid(g, y1, x1) && InGrid(g, y2, x2)
  {
    Put(Put(g, y1, x1, g[y2][x2]), y2, x2, g[y1][x1])
  }

  lemma PutShape<T>(g: seq<seq<T>>, y: int, x: int, v: T, h: nat, w: nat)
    requires IsRect(g, h, w) && InGrid(g, y, x)
    ensures IsRect(Put(g, y, x, v), h, w)
    ensures forall i, j :: 0 <= i < h && 0 <= j < w ==>
      Put(g, y, x, v)[i][j] == if i == y && j == x then v else g[i][j]
  {
  }

  lemma SwapShape<T>(g: seq<seq<T>>, y1: int, x1: int, y2: int, x2: int, h: nat, w: nat)
    requires IsRect(g, h, w) && InGrid(g, y1, x1) && InGrid(g, y2, x2)
    ensures IsRect(Swap(g, y1, x1, y2, x2), h, w)
    ensures Swap(g, y1, x1, y2, x2)[y1][x1] == g[y2][x2]
    ensures Swap(g, y1, x1, y2, x2)[y2][x2] == g[y1][x1]
    ensures forall i, j :: 0 <= i < h && 0 <= j < w && !(i == y1 && j == x1) && !(i == y2 && j == x2) ==>
      Swap(g, y1, x1, y2, x2)[i][j] == g[i][j]
  {
    PutShape(g, y1, x1, g[y2][x2], h, w);
    PutShape(Put(g, y1, x1, g[y2][x2]), y2, x2, g[y1][x1], h, w);
  }

  /** The contents of a buffer as a grid value. */
  function Snap<T>(a: array2<T>): (g: seq<seq<T>>)
    reads a
    ensures IsRect(g, a.Length0, a.Length1)
    ensures forall i, j :: 0 <= i < a.Length0 && 0 <= j < a.Length1 ==> g[i][j] == a[i, j]
  {
    seq(a.Length0, i requires 0 <= i < a.Length0 reads a =>
      seq(a.Length1, j requires 0 <= j < a.Length1 reads a => a[i, j]))
  }

  lemma SnapEq<T>(g: seq<seq<T>>, e: seq<seq<T>>, h: nat, w: nat)
    requires IsRect(g, h, w) && IsRect(e, h, w)
    requires forall i, j :: 0 <= i < h && 0 <= j < w ==> g[i][j] == e[i][j]
    ensures g == e
  {
    forall i | 0 <= i < h ensures g[i] == e[i] {
      assert |g[i]| == |e[i]| == w;
      assert forall j | 0 <= j < w :: g[i][j] == e[i][j];
    }
  }

  /** `a[y][x] = v` on a buffer. */
  method Write<T>(a: array2<T>, y: int, x: int, v: T)
    requires 0 <= y < a.Length0 && 0 <= x < a.Length1
    modifies a
    ensures Snap(a) == Put(old(Snap(a)), y, x, v)
  {
    ghost var g := Snap(a);
    a[y, x] := v;
    PutShape(g, y, x, v, a.Length0, a.Length1);
    SnapEq(Snap(a), Put(g, y, x, v), a.Length0, a.Length1);
  }

  /** The destructuring swap of two buffer cells. */
  method Exchange<T>(a: array2<T>, y1: int, x1: int, y2: int, x2: int)
    requires 0 <= y1 < a.Length0 && 0 <= x1 < a.Length1
    requires 0 <= y2 < a.Length0 && 0 <= x2 < a.Length1
    modifies a
    ensures Snap(a) == Swap(old(Snap(a)), y1, x1, y2, x2)
  {
    var first, second := a[y1, x1], a[y2, x2];
    Write(a, y1, x1, second);
    Write(a, y2, x2, first);
  }

  /** A fresh buffer holding a copy of a grid value (the deep clone). */
  method FromGrid<T>(g: seq<seq<T>>, h: nat, w: nat) returns (a: array2<T>)
    requires IsRect(g, h, w)
    ensures fresh(a) && a.Length0 == h && a.Length1 == w
    ensures Snap(a) == g
  {
    a := new T[h, w]((i, j) requires 0 <= i < h && 0 <= j < w => g[i][j]);
    SnapEq(Snap(a), g, h, w);
  }

  /** All cells of a grid, counted with multiplicity. */
  ghost function Bag<T>(g: seq<seq<T>>): multiset<T> {
    if |g| == 0 then multiset{} else multiset(g[0]) + Bag(g[1..])
  }

  lemma RowPut<T>(s: seq<T>, x: int, v: T)
    requires 0 <= x < |s|
    ensures multiset(s[x := v]) == multiset(s) - multiset{s[x]} + multiset{v}
  {
    assert s == s[..x] + [s[x]] + s[x + 1..];
    assert s[x := v] == s[..x] + [v] + s[x + 1..];
  }

  lemma {:induction false} BagPut<T>(g: seq<seq<T>>, y: int, x: int, v: T)
    requires InGrid(g, y, x)
    ensures Bag(Put(g, y, x, v)) == Bag(g) - multiset{g[y][x]} + multiset{v}
  {
    var p := Put(g, y, x, v);
    if y == 0 {
      assert p[1..] == g[1..];
      RowPut(g[0], x, v);
      assert p[0] == g[0][x := v];
      assert g[0][x] in multiset(g[0]);
    } else {
      assert p[0] == g[0];
      assert p[1..] == Put(g[1..], y - 1, x, v);
      BagPut(g[1..], y - 1, x, v);
      assert g[y][x] == g[1..][y - 1][x];
      BagHas(g[1..], y - 1, x);
    }
  }

  lemma {:induction false} BagHas<T>(g: seq<seq<T>>, y: int, x: int)
    requires InGrid(g, y, x)
    ensures g[y][x] in Bag(g)
  {
    if y == 0 {
      assert g[0][x] in multiset(g[0]);
    } else {
      BagHas(g[1..], y - 1, x);
    }
  }

  lemma MultisetTrade<T>(m: multiset<T>, a: T, b: T)
    requires a in m
    ensures m - multiset{a} + multiset{b} - multiset{b} + multiset{a} == m
  {
  }

  /** Swapping two cells keeps the multiset of cells. */
  lemma BagSwap<T>(g: seq<seq<T>>, y1: int, x1: int, y2: int, x2: int)
    requires InGrid(g, y1, x1) && InGrid(g, y2, x2)
    ensures Bag(Swap(g, y1, x1, y2, x2)) == Bag(g)
  {
    var a, b := g[y1][x1], g[y2][x2];
    var p := Put(g, y1, x1, b);
    BagPut(g, y1, x1, b);
    assert p[y2][x2] == b;
    BagPut(p, y2, x2, a);
    BagHas(g, y1, x1);
    MultisetTrade(Bag(g), a, b);
  }
}
