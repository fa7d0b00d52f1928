/** The computations behind the canvas drawing (js/renderer.js): the hex
    colour interpolation, the temperature colour ramp, the clamped
    temperature ratio, the colour of one cell, and the set of chunk keys
    the view shows. */
module Renderer {
  import opened Common
  import opened ChunkKeys
  import opened World
  import opened Elements

  const CELL_SIZE: int := 5

  // ----- Hex colours -----

  predicate IsHexDigit(c: char) {
    '0' <= c <= '9' || 'a' <= c <= 'f' || 'A' <= c <= 'F'
  }

  /** The value of one hex digit, as `parseInt(_, 16)` reads it. */
  function HexValue(c: char): (v: int)
    requires IsHexDigit(c)
    ensures 0 <= v < 16
  {
    if '0' <= c <= '9' then c as int - '0' as int
    else if 'a' <= c <= 'f' then c as int - 'a' as int + 10
    else c as int - 'A' as int + 10
  }

  /** The lowercase digit `toString(16)` writes for 0 <= k < 16. */
  function HexChar(k: int): char
    requires 0 <= k < 16
  {
    if k < 10 then ('0' as int + k) as char else ('a' as int + k - 10) as char
  }

  /** A colour `#RRGGBB`, in either case. */
  predicate IsColor(s: string) {
    |s| == 7 && s[0] == '#' && forall i :: 1 <= i < 7 ==> IsHexDigit(s[i])
  }

  /** A colour written with lowercase digits only. */
  predicate IsLowerColor(s: string) {
    |s| == 7 && s[0] == '#' && forall i :: 1 <= i < 7 ==> ('0' <= s[i] <= '9' || 'a' <= s[i] <= 'f')
  }

  function LowerChar(c: char): char {
    if 'A' <= c <= 'F' then (c as int + 32) as char else c
  }

  function Lower(s: string): (r: string)
    ensures |r| == |s|
  {
    seq(|s|, i requires 0 <= i < |s| => LowerChar(s[i]))
  }

  /** `parseInt(color.substring(i, i + 2), 16)`. */
  function ParseByte(s: string, i: int): (v: int)
    requires IsColor(s) && i in {1, 3, 5}
    ensures 0 <= v < 256
  {
    16 * HexValue(s[i]) + HexValue(s[i + 1])
  }

  /** The red, green and blue channels of a colour. */
  function Channels(s: string): (int, int, int)
    requires IsColor(s)
  {
    (ParseByte(s, 1), ParseByte(s, 3), ParseByte(s, 5))
  }

  /** `n.toString(16)` for a natural number. */
  function HexString(n: nat): string
    decreases n
  {
    if n < 16 then [HexChar(n)] else HexString(n / 16) + [HexChar(n % 16)]
  }

  /** `n.toString(16)` for any integer. */
  function ToHex(n: int): string {
    if n < 0 then "-" + HexString(-n) else HexString(n)
  }

  /** `s.padStart(2, '0')`. */
  function PadStart2(s: string): string {
    if |s| >= 2 then s else seq(2 - |s|, _ => '0') + s
  }

  /** One interpolated channel: `Math.round(a + factor * (b - a))`. */
  function Mix(a: int, b: int, factor: real): int {
    Round(a as real + factor * (b - a) as real)
  }

  /** `interpolateColor(color1, color2, factor)`. */
  function InterpolateColor(color1: string, color2: string, factor: real): string
    requires IsColor(color1) && IsColor(color2)
  {
    var (r1, g1, b1) := Channels(color1);
    var (r2, g2, b2) := Channels(color2);
    "#" + PadStart2(ToHex(Mix(r1, r2, factor))) + PadStart2(ToHex(Mix(g1, g2, factor)))
        + PadStart2(ToHex(Mix(b1, b2, factor)))
  }

  // ----- Properties of the interpolation -----

  lemma HexRoundTrip(k: int)
    requires 0 <= k < 16
    ensures IsHexDigit(HexChar(k)) && HexValue(HexChar(k)) == k
    ensures '0' <= HexChar(k) <= '9' || 'a' <= HexChar(k) <= 'f'
  {
  }

  /** A channel value is written as exactly two lowercase digits. */
  lemma ByteDigits(n: int)
    requires 0 <= n < 256
    ensures PadStart2(ToHex(n)) == [HexChar(n / 16), HexChar(n % 16)]
  {
    if n >= 16 {
      assert HexString(n / 16) == [HexChar(n / 16)];
    }
  }

  /** A factor between 0 and 1 gives a channel between the two inputs. */
  lemma MixBetween(a: int, b: int, factor: real)
    requires 0.0 <= factor <= 1.0
    ensures Min(a, b) <= Mix(a, b, factor) <= Max(a, b)
  {
    var d := (b - a) as real;
    if d >= 0.0 {
      assert 0.0 <= factor * d <= d by {
        assert (1.0 - factor) * d >= 0.0;
      }
    } else {
      assert d <= factor * d <= 0.0 by {
        assert (1.0 - factor) * d <= 0.0;
      }
    }
  }

  lemma MixEnds(a: int, b: int)
    ensures Mix(a, b, 0.0) == a && Mix(a, b, 1.0) == b
  {
  }

  /** The colour `#` followed by the two digits of each channel. */
  function Digits(r: int, g: int, b: int): string
    requires 0 <= r < 256 && 0 <= g < 256 && 0 <= b < 256
  {
    ['#', HexChar(r / 16), HexChar(r % 16), HexChar(g / 16), HexChar(g % 16), HexChar(b / 16), HexChar(b % 16)]
  }

  /** The digits written for three channels in range. */
  lemma Assemble(r: int, g: int, b: int)
    requires 0 <= r < 256 && 0 <= g < 256 && 0 <= b < 256
    ensures "#" + PadStart2(ToHex(r)) + PadStart2(ToHex(g)) + PadStart2(ToHex(b)) == Digits(r, g, b)
  {
    ByteDigits(r);
    ByteDigits(g);
    ByteDigits(b);
  }

  /** The two digits of a channel are lowercase and read back as it. */
  lemma ByteShape(n: int)
    requires 0 <= n < 256
    ensures IsHexDigit(HexChar(n / 16)) && IsHexDigit(HexChar(n % 16))
    ensures '0' <= HexChar(n / 16) <= '9' || 'a' <= HexChar(n / 16) <= 'f'
    ensures '0' <= HexChar(n % 16) <= '9' || 'a' <= HexChar(n % 16) <= 'f'
    ensures 16 * HexValue(HexChar(n / 16)) + HexValue(HexChar(n % 16)) == n
  {
    HexRoundTrip(n / 16);
    HexRoundTrip(n % 16);
  }

  /** Three channels in range are written as a lowercase colour that reads
      back as the same channels. */
  lemma DigitsShape(r: int, g: int, b: int)
    requires 0 <= r < 256 && 0 <= g < 256 && 0 <= b < 256
    ensures IsLowerColor(Digits(r, g, b)) && IsColor(Digits(r, g, b)) && Channels(Digits(r, g, b)) == (r, g, b)
  {
    ByteShape(r);
    ByteShape(g);
    ByteShape(b);
  }

  /** For a factor in [0, 1] the result is `#` and six lowercase hex digits,
      and each channel lies between the corresponding channels of the
      inputs (and is exactly the rounded mix). */
  lemma InterpolateShape(color1: string, color2: string, factor: real)
    requires IsColor(color1) && IsColor(color2) && 0.0 <= factor <= 1.0
    ensures IsLowerColor(InterpolateColor(color1, color2, factor))
    ensures IsColor(InterpolateColor(color1, color2, factor))
    ensures var (r1, g1, b1) := Channels(color1);
      var (r2, g2, b2) := Channels(color2);
      Channels(InterpolateColor(color1, color2, factor)) ==
        (Mix(r1, r2, factor), Mix(g1, g2, factor), Mix(b1, b2, factor))
    ensures var (r1, g1, b1) := Channels(color1);
      var (r2, g2, b2) := Channels(color2);
      var (r, g, b) := Channels(InterpolateColor(color1, color2, factor));
      Min(r1, r2) <= r <= Max(r1, r2) && Min(g1, g2) <= g <= Max(g1, g2) && Min(b1, b2) <= b <= Max(b1, b2)
  {
    var (r1, g1, b1) := Channels(color1);
    var (r2, g2, b2) := Channels(color2);
    MixBetween(r1, r2, factor);
    MixBetween(g1, g2, factor);
    MixBetween(b1, b2, factor);
    Assemble(Mix(r1, r2, factor), Mix(g1, g2, factor), Mix(b1, b2, factor));
    DigitsShape(Mix(r1, r2, factor), Mix(g1, g2, factor), Mix(b1, b2, factor));
  }

  /** A digit read and written again comes back lowercased. */
  lemma DigitLowered(c: char)
    requires IsHexDigit(c)
    ensures HexChar(HexValue(c)) == LowerChar(c)
  {
  }

  lemma SplitByte(hi: int, lo: int)
    requires 0 <= hi < 16 && 0 <= lo < 16
    ensures (16 * hi + lo) / 16 == hi && (16 * hi + lo) % 16 == lo
  {
  }

  lemma LowerSeven(s: string)
    requires |s| == 7
    ensures Lower(s) == [LowerChar(s[0]), LowerChar(s[1]), LowerChar(s[2]), LowerChar(s[3]),
                         LowerChar(s[4]), LowerChar(s[5]), LowerChar(s[6])]
  {
  }

  /** A colour read into channels and written again is the colour
      lowercased. */
  lemma ReadWrite(s: string)
    requires IsColor(s)
    ensures "#" + PadStart2(ToHex(ParseByte(s, 1))) + PadStart2(ToHex(ParseByte(s, 3)))
      + PadStart2(ToHex(ParseByte(s, 5))) == Lower(s)
  {
    Assemble(ParseByte(s, 1), ParseByte(s, 3), ParseByte(s, 5));
    SplitByte(HexValue(s[1]), HexValue(s[2]));
    SplitByte(HexValue(s[3]), HexValue(s[4]));
    SplitByte(HexValue(s[5]), HexValue(s[6]));
    DigitLowered(s[1]);
    DigitLowered(s[2]);
    DigitLowered(s[3]);
    DigitLowered(s[4]);
    DigitLowered(s[5]);
    DigitLowered(s[6]);
    LowerSeven(s);
  }

  /** Factor 0 gives the first colour and factor 1 the second, lowercased. */
  lemma InterpolateEnds(color1: string, color2: string)
    requires IsColor(color1) && IsColor(color2)
    ensures InterpolateColor(color1, color2, 0.0) == Lower(color1)
    ensures InterpolateColor(color1, color2, 1.0) == Lower(color2)
  {
    var (r1, g1, b1) := Channels(color1);
    var (r2, g2, b2) := Channels(color2);
    MixEnds(r1, r2);
    MixEnds(g1, g2);
    MixEnds(b1, b2);
    ReadWrite(color1);
    ReadWrite(color2);
  }

  // ----- The temperature ramp -----

  const COLD_COLOR: string := "#00BFFF"
  const NEUTRAL_COLOR: string := "#FFFFFF"
  const HOT_COLOR: string := "#FF4500"

  /** `getColorForTemperature(ratio)`: cold to neutral below one half,
      neutral to hot from one half on. */
  function ColorForTemperature(ratio: real): string {
    assert IsColor(COLD_COLOR) && IsColor(NEUTRAL_COLOR) && IsColor(HOT_COLOR);
    if ratio < 0.5 then InterpolateColor(COLD_COLOR, NEUTRAL_COLOR, ratio * 2.0)
    else InterpolateColor(NEUTRAL_COLOR, HOT_COLOR, (ratio - 0.5) * 2.0)
  }

  /** The ends and the middle of the ramp. */
  lemma RampCold()
    ensures ColorForTemperature(0.0) == "#00bfff"
  {
    InterpolateEnds(COLD_COLOR, NEUTRAL_COLOR);
    LowerSeven(COLD_COLOR);
  }

  lemma RampMiddle()
    ensures ColorForTemperature(0.5) == "#ffffff"
  {
    InterpolateEnds(NEUTRAL_COLOR, HOT_COLOR);
    LowerSeven(NEUTRAL_COLOR);
  }

  lemma RampHot()
    ensures ColorForTemperature(1.0) == "#ff4500"
  {
    InterpolateEnds(NEUTRAL_COLOR, HOT_COLOR);
    LowerSeven(HOT_COLOR);
  }

  lemma Palette()
    ensures IsColor(COLD_COLOR) && Channels(COLD_COLOR) == (0, 191, 255)
    ensures IsColor(NEUTRAL_COLOR) && Channels(NEUTRAL_COLOR) == (255, 255, 255)
    ensures IsColor(HOT_COLOR) && Channels(HOT_COLOR) == (255, 69, 0)
  {
  }

  /** The cold half of the ramp is a lowercase colour with full blue and at
      least the cold green. */
  lemma RampColdHalf(ratio: real)
    requires 0.0 <= ratio < 0.5
    ensures IsLowerColor(ColorForTemperature(ratio))
    ensures Channels(ColorForTemperature(ratio)) == (Mix(0, 255, ratio * 2.0), Mix(191, 255, ratio * 2.0), 255)
    ensures Channels(ColorForTemperature(ratio)).1 >= 191
  {
    Palette();
    InterpolateShape(COLD_COLOR, NEUTRAL_COLOR, ratio * 2.0);
  }

  /** The hot half of the ramp is a lowercase colour with full red. */
  lemma RampHotHalf(ratio: real)
    requires 0.5 <= ratio <= 1.0
    ensures IsLowerColor(ColorForTemperature(ratio))
    ensures Channels(ColorForTemperature(ratio)) ==
      (255, Mix(255, 69, (ratio - 0.5) * 2.0), Mix(255, 0, (ratio - 0.5) * 2.0))
  {
    Palette();
    InterpolateShape(NEUTRAL_COLOR, HOT_COLOR, (ratio - 0.5) * 2.0);
  }

  // ----- Cells -----

  function RMax(a: real, b: real): real { if a >= b then a else b }
  function RMin(a: real, b: real): real { if a <= b then a else b }

  /** `Math.max(0, Math.min(1, (temperature + 100) / 1100))`. */
  function TempRatio(temperature: real): (r: real)
    ensures 0.0 <= r <= 1.0
    ensures -100.0 <= temperature <= 1000.0 ==> r == (temperature + 100.0) / 1100.0
    ensures temperature <= -100.0 ==> r == 0.0
    ensures temperature >= 1000.0 ==> r == 1.0
  {
    RMax(0.0, RMin(1.0, (temperature + 100.0) / 1100.0))
  }

  /** The fill of one cell: none for vacuum or an unknown symbol, otherwise
      the ramp colour of its temperature. */
  function CellColor(cell: Cell, reg: Registry): Option<string> {
    if cell.symbol != "VACUUM" && cell.symbol in reg then Some(ColorForTemperature(TempRatio(cell.temperature)))
    else None
  }

  lemma CellColorShape(cell: Cell, reg: Registry)
    ensures CellColor(cell, reg).Some? <==> cell.symbol != "VACUUM" && cell.symbol in reg
    ensures CellColor(cell, reg).Some? ==> IsLowerColor(CellColor(cell, reg).value)
    ensures CellColor(cell, reg).Some? && cell.temperature <= -100.0 ==> CellColor(cell, reg).value == "#00bfff"
    ensures CellColor(cell, reg).Some? && cell.temperature >= 1000.0 ==> CellColor(cell, reg).value == "#ff4500"
  {
    var ratio := TempRatio(cell.temperature);
    if ratio < 0.5 {
      RampColdHalf(ratio);
    } else {
      RampHotHalf(ratio);
    }
    RampCold();
    RampHot();
  }

  // ----- Visible chunks -----

  /** The chunk ranges `[startChunkX, endChunkX) x [startChunkY, endChunkY)`
      of the view panned by (panX, panY) at the given zoom on a canvas of
      `width` x `height` pixels. */
  function VisibleRange(panX: real, panY: real, zoom: real, width: int, height: int): (int, int, int, int)
    requires zoom > 0.0
  {
    var scale := CELL_SIZE as real * zoom;
    var startX := -panX / scale;
    var startY := -panY / scale;
    var endX := startX + width as real / scale;
    var endY := startY + height as real / scale;
    (Floor(startX / CHUNK_SIZE as real), Floor(startY / CHUNK_SIZE as real),
     Ceil(endX / CHUNK_SIZE as real), Ceil(endY / CHUNK_SIZE as real))
  }

  /** `Set.prototype.add` on a set kept as the sequence of its insertions:
      a name already present is not added again. */
  function Add<K(==)>(s: seq<K>, k: K): seq<K> {
    if k in s then s else s + [k]
  }

  /** No name occurs twice. */
  predicate Distinct<K(==)>(s: seq<K>) {
    forall a, b :: 0 <= a < b < |s| ==> s[a] != s[b]
  }

  lemma AddDistinct<K>(s: seq<K>, k: K)
    requires Distinct(s)
    ensures Distinct(Add(s, k))
  {
    if k !in s {
      var r := s + [k];
      forall a, b | 0 <= a < b < |r| ensures r[a] != r[b] {
        if b == |s| {
          assert r[a] == s[a];
        }
      }
    }
  }

  /** The set `acc` after adding `name(i, y)` for i from sx to x - 1. */
  function RowKeys<K(==)>(acc: seq<K>, name: (int, int) -> K, sx: int, x: int, y: int): seq<K>
    decreases x - sx
  {
    if x <= sx then acc else Add(RowKeys(acc, name, sx, x - 1, y), name(x - 1, y))
  }

  /** The set after adding the rows sy to y - 1 of chunks sx to ex - 1. */
  function BlockKeys<K(==)>(name: (int, int) -> K, sx: int, ex: int, sy: int, y: int): seq<K>
    decreases y - sy
  {
    if y <= sy then [] else RowKeys(BlockKeys(name, sx, ex, sy, y - 1), name, sx, ex, y - 1)
  }

  lemma {:induction false} RowKeysHas<K>(acc: seq<K>, name: (int, int) -> K, sx: int, x: int, y: int, k: K)
    ensures k in RowKeys(acc, name, sx, x, y) <==> k in acc || exists i :: sx <= i < x && k == name(i, y)
    decreases x - sx
  {
    if x > sx {
      RowKeysHas(acc, name, sx, x - 1, y, k);
      if exists i :: sx <= i < x && k == name(i, y) {
        var i :| sx <= i < x && k == name(i, y);
        if i < x - 1 {
          assert sx <= i < x - 1 && k == name(i, y);
        }
      }
      if k == name(x - 1, y) {
        assert sx <= x - 1 < x && k == name(x - 1, y);
      }
    }
  }

  lemma {:induction false} BlockKeysHas<K>(name: (int, int) -> K, sx: int, ex: int, sy: int, y: int, k: K)
    ensures k in BlockKeys(name, sx, ex, sy, y) <==>
      exists i, j :: sx <= i < ex && sy <= j < y && k == name(i, j)
    decreases y - sy
  {
    if y > sy {
      var last := y - 1;
      BlockKeysHas(name, sx, ex, sy, last, k);
      RowKeysHas(BlockKeys(name, sx, ex, sy, last), name, sx, ex, last, k);
      if exists i :: sx <= i < ex && k == name(i, last) {
        var i :| sx <= i < ex && k == name(i, last);
        assert sx <= i < ex && sy <= last < y && k == name(i, last);
      }
      if exists i, j :: sx <= i < ex && sy <= j < y && k == name(i, j) {
        var i, j :| sx <= i < ex && sy <= j < y && k == name(i, j);
        if j == last {
          assert sx <= i < ex && k == name(i, last);
        } else {
          assert sx <= i < ex && sy <= j < y - 1 && k == name(i, j);
        }
      }
    }
  }

  lemma {:induction false} RowKeysDistinct<K>(acc: seq<K>, name: (int, int) -> K, sx: int, x: int, y: int)
    requires Distinct(acc)
    ensures Distinct(RowKeys(acc, name, sx, x, y))
    decreases x - sx
  {
    if x > sx {
      RowKeysDistinct(acc, name, sx, x - 1, y);
      AddDistinct(RowKeys(acc, name, sx, x - 1, y), name(x - 1, y));
    }
  }

  /** The set never holds a name twice, so iterating it visits each chunk
      once. */
  lemma {:induction false} BlockKeysDistinct<K>(name: (int, int) -> K, sx: int, ex: int, sy: int, y: int)
    ensures Distinct(BlockKeys(name, sx, ex, sy, y))
    decreases y - sy
  {
    if y > sy {
      BlockKeysDistinct(name, sx, ex, sy, y - 1);
      RowKeysDistinct(BlockKeys(name, sx, ex, sy, y - 1), name, sx, ex, y - 1);
    }
  }

  /** The keys `"x,y"` of every chunk in the ranges, in insertion order. */
  function VisibleKeys(panX: real, panY: real, zoom: real, width: int, height: int): seq<string>
    requires zoom > 0.0
  {
    var (sx, sy, ex, ey) := VisibleRange(panX, panY, zoom, width, height);
    BlockKeys(KeyOf, sx, ex, sy, ey)
  }

  /** The nested loops of `getVisibleChunkKeys`: rows of chunks from the
      first to the last, each row from left to right, adding the name of
      each chunk to the set. */
  method CollectKeys<K(==)>(name: (int, int) -> K, startChunkX: int, endChunkX: int, startChunkY: int, endChunkY: int)
    returns (keys: seq<K>)
    ensures keys == BlockKeys(name, startChunkX, endChunkX, startChunkY, endChunkY)
  {
    keys := [];
    var y := startChunkY;
    while y < endChunkY
      invariant y == startChunkY || startChunkY <= y <= endChunkY
      invariant keys == BlockKeys(name, startChunkX, endChunkX, startChunkY, y)
      decreases endChunkY - y
    {
      ghost var row := keys;
      var x := startChunkX;
      while x < endChunkX
        invariant x == startChunkX || startChunkX <= x <= endChunkX
        invariant keys == RowKeys(row, name, startChunkX, x, y)
        decreases endChunkX - x
      {
        if name(x, y) !in keys {
          keys := keys + [name(x, y)];
        }
        x := x + 1;
      }
      y := y + 1;
    }
  }

  /** `getVisibleChunkKeys`. */
  method VisibleChunkKeys(panX: real, panY: real, zoom: real, width: int, height: int) returns (keys: seq<string>)
    requires zoom > 0.0
    ensures keys == VisibleKeys(panX, panY, zoom, width, height)
  {
    var (startChunkX, startChunkY, endChunkX, endChunkY) := VisibleRange(panX, panY, zoom, width, height);
    keys := CollectKeys(KeyOf, startChunkX, endChunkX, startChunkY, endChunkY);
  }

  /** A key lies in the set exactly when it names a chunk in the ranges. */
  lemma VisibleKeysExact(panX: real, panY: real, zoom: real, width: int, height: int, cx: int, cy: int)
    requires zoom > 0.0
    ensures var (sx, sy, ex, ey) := VisibleRange(panX, panY, zoom, width, height);
      KeyOf(cx, cy) in VisibleKeys(panX, panY, zoom, width, height) <==> sx <= cx < ex && sy <= cy < ey
  {
    var (sx, sy, ex, ey) := VisibleRange(panX, panY, zoom, width, height);
    BlockKeysHas(KeyOf, sx, ex, sy, ey, KeyOf(cx, cy));
    if KeyOf(cx, cy) in VisibleKeys(panX, panY, zoom, width, height) {
      var x, y :| sx <= x < ex && sy <= y < ey && KeyOf(cx, cy) == KeyOf(x, y);
      KeyInjective(x, y, cx, cy);
    }
  }

  /** Every key in the set names a chunk in the ranges. */
  lemma VisibleKeysOnly(panX: real, panY: real, zoom: real, width: int, height: int, k: string)
    requires zoom > 0.0 && k in VisibleKeys(panX, panY, zoom, width, height)
    ensures var (sx, sy, ex, ey) := VisibleRange(panX, panY, zoom, width, height);
      exists cx, cy :: sx <= cx < ex && sy <= cy < ey && k == KeyOf(cx, cy)
  {
    var (sx, sy, ex, ey) := VisibleRange(panX, panY, zoom, width, height);
    BlockKeysHas(KeyOf, sx, ex, sy, ey, k);
  }

  /** Every cell that overlaps the canvas lies in a visible chunk: the cell
      (x, y) covers [x, x + 1) x [y, y + 1) in world units. */
  lemma VisibleCovers(panX: real, panY: real, zoom: real, width: int, height: int, x: int, y: int)
    requires zoom > 0.0
    requires var scale := CELL_SIZE as real * zoom;
      -panX / scale < (x + 1) as real && x as real < -panX / scale + width as real / scale &&
      -panY / scale < (y + 1) as real && y as real < -panY / scale + height as real / scale
    ensures KeyOf(ChunkCoord(x), ChunkCoord(y)) in VisibleKeys(panX, panY, zoom, width, height)
  {
    var scale := CELL_SIZE as real * zoom;
    var (sx, sy, ex, ey) := VisibleRange(panX, panY, zoom, width, height);
    FloorCovers(-panX / scale, x);
    FloorCovers(-panY / scale, y);
    CeilCovers(-panX / scale + width as real / scale, x);
    CeilCovers(-panY / scale + height as real / scale, y);
    VisibleKeysExact(panX, panY, zoom, width, height, ChunkCoord(x), ChunkCoord(y));
  }

  /** A cell overlapping the range starting at `start` is in a chunk no
      earlier than the first chunk of the range. */
  lemma FloorCovers(start: real, x: int)
    requires start < (x + 1) as real
    ensures Floor(start / CHUNK_SIZE as real) <= ChunkCoord(x)
  {
    var c := ChunkCoord(x);
    assert x + 1 <= CHUNK_SIZE * c + CHUNK_SIZE;
    assert start / CHUNK_SIZE as real < (c + 1) as real;
  }

  /** A cell starting before the end of the range is in a chunk before the
      chunk the ceiling names. */
  lemma CeilCovers(end: real, x: int)
    requires x as real < end
    ensures ChunkCoord(x) < Ceil(end / CHUNK_SIZE as real)
  {
    var c := ChunkCoord(x);
    assert CHUNK_SIZE * c <= x;
    assert (c as real) < end / CHUNK_SIZE as real;
  }
}
