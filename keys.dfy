/** The string keys of the chunk map: `${chunkX},${chunkY}` with both
    coordinates written in decimal, a `-` in front of negative ones. The
    map is keyed by strings, so the store is only correct because distinct
    coordinates give distinct keys; `KeyInjective` proves that through a
    parser that inverts the format. */
module ChunkKeys {
  import opened Common

  function Digit(d: int): char
    requires 0 <= d < 10
  {
    ('0' as int + d) as char
  }

  /** Decimal digits of a natural number, most significant first. */
  function NatToString(n: nat): string
    decreases n
  {
    if n < 10 then [Digit(n)] else NatToString(n / 10) + [Digit(n % 10)]
  }

  /** JavaScript's `String(i)` on an integer. */
  function IntToString(i: int): string {
    if i < 0 then "-" + NatToString(-i) else NatToString(i)
  }

  /** The key of chunk (cx, cy). */
  function KeyOf(cx: int, cy: int): string {
    IntToString(cx) + "," + IntToString(cy)
  }

  function DigitValue(c: char): int {
    if '0' <= c <= '9' then (c as int) - ('0' as int) else 0
  }

  function ParseNat(s: string): int
    decreases |s|
  {
    if |s| == 0 then 0 else 10 * ParseNat(s[..|s| - 1]) + DigitValue(s[|s| - 1])
  }

  function ParseInt(s: string): int {
    if |s| > 0 && s[0] == '-' then -ParseNat(s[1..]) else ParseNat(s)
  }

  /** Index of the first `,` in s, or -1. */
  function FirstComma(s: string): int
    decreases |s|
  {
    if |s| == 0 then -1
    else if s[0] == ',' then 0
    else var j := FirstComma(s[1..]); if j < 0 then -1 else j + 1
  }

  /** Reads a key back into chunk coordinates. */
  function ParseKey(s: string): Option<(int, int)> {
    var i := FirstComma(s);
    if 0 <= i < |s| then Some((ParseInt(s[..i]), ParseInt(s[i + 1..]))) else None
  }

  lemma {:induction false} NatToStringDigits(n: nat)
    ensures |NatToString(n)| > 0
    ensures forall k :: 0 <= k < |NatToString(n)| ==> '0' <= NatToString(n)[k] <= '9'
    decreases n
  {
    if n >= 10 {
      NatToStringDigits(n / 10);
    }
  }

  lemma {:induction false} ParseNatToString(n: nat)
    ensures ParseNat(NatToString(n)) == n
    decreases n
  {
    var s := NatToString(n);
    if n < 10 {
      assert s[..0] == [];
    } else {
      ParseNatToString(n / 10);
      assert s[..|s| - 1] == NatToString(n / 10);
    }
  }

  lemma ParseIntToString(i: int)
    ensures ParseInt(IntToString(i)) == i
  {
    NatToStringDigits(if i < 0 then -i else i);
    if i < 0 {
      assert IntToString(i)[1..] == NatToString(-i);
      ParseNatToString(-i);
    } else {
      assert IntToString(i)[0] != '-';
      ParseNatToString(i);
    }
  }

  lemma {:induction false} FirstCommaAfter(a: string, b: string)
    requires forall k :: 0 <= k < |a| ==> a[k] != ','
    ensures FirstComma(a + "," + b) == |a|
    decreases |a|
  {
    if |a| > 0 {
      assert (a + "," + b)[1..] == a[1..] + "," + b;
      FirstCommaAfter(a[1..], b);
    }
  }

  /** Parsing a key gives back the coordinates it was made from. */
  lemma ParseKeyOf(cx: int, cy: int)
    ensures ParseKey(KeyOf(cx, cy)) == Some((cx, cy))
  {
    var a, b := IntToString(cx), IntToString(cy);
    NatToStringDigits(if cx < 0 then -cx else cx);
    assert forall k :: 0 <= k < |a| ==> a[k] != ',' by {
      if cx < 0 {
        assert forall k :: 1 <= k < |a| ==> a[k] == NatToString(-cx)[k - 1];
      }
    }
    FirstCommaAfter(a, b);
    var s := KeyOf(cx, cy);
    assert s[..|a|] == a;
    assert s[|a| + 1..] == b;
    ParseIntToString(cx);
    ParseIntToString(cy);
  }

  /** Distinct chunk coordinates never share a key. */
  lemma KeyInjective(cx: int, cy: int, dx: int, dy: int)
    ensures KeyOf(cx, cy) == KeyOf(dx, dy) <==> cx == dx && cy == dy
  {
    ParseKeyOf(cx, cy);
    ParseKeyOf(dx, dy);
  }
}
