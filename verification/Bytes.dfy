/** Bytes, fixed-width integers and the byte-lexicographic order. */
module Bytes {

  type byte = x: int | 0 <= x < 256

  datatype Option<+T> = None | Some(value: T)

  const U32_MAX: nat := 0xFFFF_FFFF
  const U64_MAX: nat := 0xFFFF_FFFF_FFFF_FFFF
  const I64_MAX: nat := 0x7FFF_FFFF_FFFF_FFFF
  const I64_MIN: int := -0x8000_0000_0000_0000

  type u64 = x: int | 0 <= x <= U64_MAX
  type i64 = x: int | I64_MIN <= x <= I64_MAX

  // ---- powers of 256 ----

  function Pow256(n: nat): nat
  {
    if n == 0 then 1 else 256 * Pow256(n - 1)
  }

  lemma Pow256Values()
    ensures Pow256(1) == 0x100
    ensures Pow256(2) == 0x1_0000
    ensures Pow256(3) == 0x100_0000
    ensures Pow256(4) == 0x1_0000_0000
    ensures Pow256(7) == 0x100_0000_0000_0000
    ensures Pow256(8) == 0x1_0000_0000_0000_0000
  {
    assert Pow256(1) == 256 * Pow256(0);
    assert Pow256(2) == 256 * Pow256(1);
    assert Pow256(3) == 256 * Pow256(2);
    assert Pow256(4) == 256 * Pow256(3);
    assert Pow256(5) == 256 * Pow256(4);
    assert Pow256(6) == 256 * Pow256(5);
    assert Pow256(7) == 256 * Pow256(6);
    assert Pow256(8) == 256 * Pow256(7);
  }

  // ---- little-endian integers (to_le_bytes / from_le_bytes) ----

  function LeBytes(n: nat, v: nat): (s: seq<byte>)
    ensures |s| == n
  {
    if n == 0 then [] else [v % 256] + LeBytes(n - 1, v / 256)
  }

  function LeValue(s: seq<byte>): nat
  {
    if |s| == 0 then 0 else s[0] + 256 * LeValue(s[1..])
  }

  lemma {:induction false} LeRoundTrip(n: nat, v: nat)
    requires v < Pow256(n)
    ensures LeValue(LeBytes(n, v)) == v
  {
    if n == 0 {
    } else {
      LeRoundTrip(n - 1, v / 256);
    }
  }

  lemma {:induction false} LeBound(s: seq<byte>)
    ensures LeValue(s) < Pow256(|s|)
  {
    if |s| == 0 {
    } else {
      LeBound(s[1..]);
    }
  }

  // ---- big-endian integers (to_be_bytes / from_be_bytes) ----

  function BeBytes(n: nat, v: nat): (s: seq<byte>)
    ensures |s| == n
  {
    if n == 0 then [] else BeBytes(n - 1, v / 256) + [v % 256]
  }

  function BeValue(s: seq<byte>): nat
  {
    if |s| == 0 then 0 else 256 * BeValue(s[..|s| - 1]) + s[|s| - 1]
  }

  lemma {:induction false} BeRoundTrip(n: nat, v: nat)
    requires v < Pow256(n)
    ensures BeValue(BeBytes(n, v)) == v
  {
    if n == 0 {
    } else {
      BeRoundTrip(n - 1, v / 256);
      assert BeBytes(n, v)[..n - 1] == BeBytes(n - 1, v / 256);
    }
  }

  lemma {:induction false} BeBound(s: seq<byte>)
    ensures BeValue(s) < Pow256(|s|)
  {
    if |s| == 0 {
    } else {
      BeBound(s[..|s| - 1]);
    }
  }

  /** The leading byte of a value that leaves the top byte unused is zero. */
  lemma {:induction false} BeLeadingZero(n: nat, v: nat)
    requires 0 < n && v < Pow256(n - 1)
    ensures BeBytes(n, v)[0] == 0
  {
    if n <= 1 {
    } else {
      BeLeadingZero(n - 1, v / 256);
    }
  }

  // ---- byte-lexicographic order ----

  predicate LexLess(a: seq<byte>, b: seq<byte>)
  {
    if |b| == 0 then false
    else if |a| == 0 then true
    else a[0] < b[0] || (a[0] == b[0] && LexLess(a[1..], b[1..]))
  }

  lemma {:induction false} LexIrreflexive(a: seq<byte>)
    ensures !LexLess(a, a)
  {
    if |a| == 0 {
    } else {
      LexIrreflexive(a[1..]);
    }
  }

  lemma {:induction false} LexTransitive(a: seq<byte>, b: seq<byte>, c: seq<byte>)
    requires LexLess(a, b) && LexLess(b, c)
    ensures LexLess(a, c)
  {
    if |a| == 0 || a[0] != b[0] || b[0] != c[0] {
    } else {
      LexTransitive(a[1..], b[1..], c[1..]);
    }
  }

  /** A common prefix does not matter to the order. */
  lemma {:induction false} LexCommonPrefix(p: seq<byte>, a: seq<byte>, b: seq<byte>)
    ensures LexLess(p + a, p + b) <==> LexLess(a, b)
  {
    if |p| == 0 {
      assert p + a == a && p + b == b;
    } else {
      LexCommonPrefix(p[1..], a, b);
      assert (p + a)[1..] == p[1..] + a && (p + b)[1..] == p[1..] + b;
    }
  }

  /** Among strings of one length, a last byte only decides ties. */
  lemma {:induction false} LexSnoc(a: seq<byte>, x: byte, b: seq<byte>, y: byte)
    requires |a| == |b|
    ensures LexLess(a + [x], b + [y]) <==> LexLess(a, b) || (a == b && x < y)
  {
    if |a| == 0 {
    } else {
      LexSnoc(a[1..], x, b[1..], y);
      assert (a + [x])[1..] == a[1..] + [x] && (b + [y])[1..] == b[1..] + [y];
      assert a == b <==> a[0] == b[0] && a[1..] == b[1..] by {
        assert a == [a[0]] + a[1..] && b == [b[0]] + b[1..];
      }
    }
  }

  /** Big-endian encoding is strictly monotone from numbers to byte strings. */
  lemma {:induction false} BeMonotone(n: nat, v: nat, w: nat)
    requires v < Pow256(n) && w < Pow256(n)
    ensures LexLess(BeBytes(n, v), BeBytes(n, w)) <==> v < w
    ensures BeBytes(n, v) == BeBytes(n, w) <==> v == w
  {
    BeRoundTrip(n, v);
    BeRoundTrip(n, w);
    if n == 0 {
    } else {
      BeMonotone(n - 1, v / 256, w / 256);
      LexSnoc(BeBytes(n - 1, v / 256), v % 256, BeBytes(n - 1, w / 256), w % 256);
    }
  }
}
