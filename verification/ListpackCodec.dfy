/** The byte encodings of listpack entries: element header, payload and back-length. */
module ListpackCodec {
  import opened Bytes
  import opened Decimal

  datatype Elem = Str(s: seq<byte>) | Int(v: int)

  datatype LpError = Corrupted | Overflow

  datatype Result<+T> = Ok(value: T) | Err(error: LpError)

  const MAX_BACKLEN: nat := 0x0FFF_FFFF

  // ---- element encodings ----

  /** A signed number as the unsigned number with the same two's-complement bits, modulus m. */
  function ToUnsigned(v: int, m: int): int
  {
    if v < 0 then v + m else v
  }

  function ToSigned(u: int, m: int): int
  {
    if u >= m / 2 then u - m else u
  }

  function EncodeInt(v: i64): (s: seq<byte>)
    ensures 1 <= |s| <= 9
  {
    if 0 <= v <= 127 then [v]
    else if -4096 <= v <= 4095 then
      var u := ToUnsigned(v, 0x2000);
      [0xC0 + u / 256, u % 256]
    else if -32768 <= v <= 32767 then [0xF1] + LeBytes(2, ToUnsigned(v, 0x1_0000))
    else if -8388608 <= v <= 8388607 then [0xF2] + LeBytes(3, ToUnsigned(v, 0x100_0000))
    else if -0x8000_0000 <= v <= 0x7FFF_FFFF then [0xF3] + LeBytes(4, ToUnsigned(v, 0x1_0000_0000))
    else [0xF4] + LeBytes(8, ToUnsigned(v, 0x1_0000_0000_0000_0000))
  }

  function EncodeString(s: seq<byte>): (r: Result<seq<byte>>)
    ensures r.Ok? <==> |s| <= U32_MAX
    ensures r.Err? ==> r.error == Overflow
    ensures r.Ok? ==> |s| < |r.value| <= |s| + 5
  {
    if |s| < 64 then Ok([0x80 + |s|] + s)
    else if |s| < 4096 then Ok([0xE0 + |s| / 256, |s| % 256] + s)
    else if |s| > U32_MAX then Err(Overflow)
    else Ok([0xF0] + LeBytes(4, |s|) + s)
  }

  // ---- back-lengths ----

  function BacklenSize(len: nat): (n: nat)
    ensures 1 <= n <= 5
  {
    if len <= 127 then 1
    else if len < 16383 then 2
    else if len < 2097151 then 3
    else if len < 268435455 then 4
    else 5
  }

  function EncodeBacklen(len: nat): (r: Result<seq<byte>>)
    ensures r.Ok? <==> len <= MAX_BACKLEN
    ensures r.Err? ==> r.error == Overflow
    ensures r.Ok? ==> |r.value| == BacklenSize(len)
  {
    if len > MAX_BACKLEN then Err(Overflow)
    else
      match BacklenSize(len)
      case 1 => Ok([len])
      case 2 => Ok([len / 128, 128 + len % 128])
      case 3 => Ok([len / 16384, 128 + len / 128 % 128, 128 + len % 128])
      case 4 => Ok([len / 2097152, 128 + len / 16384 % 128, 128 + len / 128 % 128, 128 + len % 128])
      case _ => Ok([len / 268435456, 128 + len / 2097152 % 128, 128 + len / 16384 % 128,
                    128 + len / 128 % 128, 128 + len % 128])
  }

  /** Reads a back-length from right to left, starting at the byte before `end`: bytes whose high
      bit is set continue to the left. Gives the length and the number of bytes it occupies. */
  function ReadBacklen(bytes: seq<byte>, end: nat): Option<(nat, nat)>
    requires end <= |bytes|
  {
    if end == 0 then None
    else if bytes[end - 1] < 128 then Some((bytes[end - 1], 1))
    else
      match ReadBacklen(bytes, end - 1)
      case None => None
      case Some((high, n)) => Some((high * 128 + (bytes[end - 1] - 128), n + 1))
  }

  /** The number in the low seven bits of each byte, most significant first. */
  function Low7Value(b: seq<byte>): nat
  {
    if |b| == 0 then 0 else Low7Value(b[..|b| - 1]) * 128 + b[|b| - 1] % 128
  }

  /** n base-128 digits of len, all but the first marked as continued to the left. */
  function Groups(len: nat, n: nat): (b: seq<byte>)
    requires 0 < n && len < Pow128(n)
    ensures |b| == n && b[0] < 128 && forall i :: 1 <= i < n ==> b[i] >= 128
  {
    if n == 1 then [len] else Groups(len / 128, n - 1) + [128 + len % 128]
  }

  function Pow128(n: nat): nat
  {
    if n == 0 then 1 else 128 * Pow128(n - 1)
  }

  lemma {:induction false} GroupsValue(len: nat, n: nat)
    requires 0 < n && len < Pow128(n)
    ensures Low7Value(Groups(len, n)) == len
  {
    if n <= 1 {
    } else {
      GroupsValue(len / 128, n - 1);
      assert Groups(len, n)[..n - 1] == Groups(len / 128, n - 1);
    }
  }

  lemma DivChain(len: nat)
    ensures len / 128 / 128 == len / 16384
    ensures len / 128 / 16384 == len / 2097152
    ensures len / 128 / 2097152 == len / 268435456
  {
  }

  lemma Groups2(len: nat)
    requires len < 16384
    ensures len < Pow128(2) && Groups(len, 2) == [len / 128, 128 + len % 128]
  {
  }

  lemma Groups3(len: nat)
    requires len < 2097152
    ensures len < Pow128(3)
    ensures Groups(len, 3) == [len / 16384, 128 + len / 128 % 128, 128 + len % 128]
  {
    Groups2(len / 128);
    DivChain(len);
  }

  lemma Groups4(len: nat)
    requires len < 268435456
    ensures len < Pow128(4)
    ensures Groups(len, 4) == [len / 2097152, 128 + len / 16384 % 128, 128 + len / 128 % 128, 128 + len % 128]
  {
    Groups3(len / 128);
    DivChain(len);
  }

  lemma Groups5(len: nat)
    requires len < 0x8_0000_0000
    ensures len < Pow128(5)
    ensures Groups(len, 5) == [len / 268435456, 128 + len / 2097152 % 128, 128 + len / 16384 % 128,
                               128 + len / 128 % 128, 128 + len % 128]
  {
    Groups4(len / 128);
    DivChain(len);
  }

  lemma BacklenIsGroups(len: nat)
    requires len <= MAX_BACKLEN
    ensures len < Pow128(BacklenSize(len))
    ensures EncodeBacklen(len).value == Groups(len, BacklenSize(len))
  {
    match BacklenSize(len)
    case 1 => assert Pow128(1) == 128;
    case 2 => Groups2(len);
    case 3 => Groups3(len);
    case 4 => Groups4(len);
    case _ => Groups5(len);
  }

  /** A back-length has the fewest bytes that hold the length, seven bits each, but for three lengths:
      the greatest that two, three or four bytes could hold take one byte more. */
  lemma BacklenSizeLeast(len: nat, n: nat)
    requires len <= MAX_BACKLEN && 0 < n
    ensures len < Pow128(BacklenSize(len))
    ensures n < BacklenSize(len) <==> len >= Pow128(n) || (2 <= n <= 4 && len == Pow128(n) - 1)
  {
    Pow128Values();
    if n >= 5 {
      Pow128Grows(n);
    }
  }

  lemma Pow128Values()
    ensures Pow128(1) == 128 && Pow128(2) == 16384 && Pow128(3) == 2097152
    ensures Pow128(4) == 268435456 && Pow128(5) == 34359738368
  {
    assert Pow128(1) == 128 * Pow128(0);
    assert Pow128(2) == 128 * Pow128(1);
    assert Pow128(3) == 128 * Pow128(2);
    assert Pow128(4) == 128 * Pow128(3);
    assert Pow128(5) == 128 * Pow128(4);
  }

  lemma {:induction false} Pow128Grows(n: nat)
    requires n >= 5
    ensures Pow128(n) >= Pow128(5)
  {
    if n == 5 {
    } else {
      Pow128Grows(n - 1);
    }
  }

  lemma {:induction false} ReadsLow7(pre: seq<byte>, b: seq<byte>, post: seq<byte>)
    requires |b| > 0 && b[0] < 128 && forall i :: 1 <= i < |b| ==> b[i] >= 128
    ensures ReadBacklen(pre + b + post, |pre| + |b|) == Some((Low7Value(b), |b|))
  {
    var k := |b| - 1;
    assert (pre + b + post)[|pre| + k] == b[k];
    if k == 0 {
    } else {
      ReadsLow7(pre, b[..k], [b[k]] + post);
      assert pre + b[..k] + ([b[k]] + post) == pre + b + post;
    }
  }

  /** Only the first byte of a back-length has a clear high bit, and reading right to left
      recovers every length that can be written, wherever it stands. */
  lemma BacklenReadsBack(pre: seq<byte>, len: nat, post: seq<byte>)
    requires len <= MAX_BACKLEN
    ensures var b := EncodeBacklen(len).value;
            b[0] < 128 && (forall i :: 1 <= i < |b| ==> b[i] >= 128)
            && ReadBacklen(pre + b + post, |pre| + |b|) == Some((len, |b|))
  {
    BacklenIsGroups(len);
    GroupsValue(len, BacklenSize(len));
    ReadsLow7(pre, EncodeBacklen(len).value, post);
  }

  // ---- whole entries ----

  function Encode(e: Elem): (r: Result<seq<byte>>)
    requires InRange(e)
    ensures r.Ok? ==> |r.value| > 0
  {
    match e
    case Str(s) => EncodeString(s)
    case Int(v) => Ok(EncodeInt(v))
  }

  /** Integers are 64-bit. */
  predicate InRange(e: Elem)
  {
    e.Int? ==> I64_MIN <= e.v <= I64_MAX
  }

  /** The entry can be written at all: neither encode_string nor encode_backlen overflows. */
  predicate Encodable(e: Elem)
  {
    InRange(e) && Encode(e).Ok? && |Encode(e).value| <= MAX_BACKLEN
  }

  function EntryBytes(e: Elem): (s: seq<byte>)
    requires Encodable(e)
    ensures |s| > 1
  {
    var enc := Encode(e).value;
    enc + EncodeBacklen(|enc|).value
  }

  /** The element at the head of d and the length of its encoding, back-length not included. */
  function DecodeValue(d: seq<byte>): (r: Result<(Elem, nat)>)
    ensures r.Ok? ==> 0 < r.value.1 <= |d|
    ensures r.Ok? ==> InRange(r.value.0)
  {
    if |d| == 0 then Err(Corrupted)
    else
      var first := d[0];
      if first < 0x80 then Ok((Int(first), 1))
      else if first < 0xC0 then
        var slen := first - 0x80;
        if 1 + slen > |d| then Err(Corrupted) else Ok((Str(d[1..1 + slen]), 1 + slen))
      else if first < 0xE0 then
        if 2 > |d| then Err(Corrupted)
        else Ok((Int(ToSigned((first as int - 0xC0) * 256 + d[1], 0x2000)), 2))
      else if first == 0xF1 then DecodeFixed(d, 2, 0x1_0000)
      else if first == 0xF2 then DecodeFixed(d, 3, 0x100_0000)
      else if first == 0xF3 then DecodeFixed(d, 4, 0x1_0000_0000)
      else if first == 0xF4 then DecodeFixed(d, 8, 0x1_0000_0000_0000_0000)
      else if first < 0xF0 then
        if 2 > |d| then Err(Corrupted)
        else
          var slen := (first as int - 0xE0) * 256 + d[1];
          if 2 + slen > |d| then Err(Corrupted) else Ok((Str(d[2..2 + slen]), 2 + slen))
      else if first == 0xF0 then
        if 5 > |d| then Err(Corrupted)
        else
          var slen := LeValue(d[1..5]);
          if 5 + slen > |d| then Err(Corrupted) else Ok((Str(d[5..5 + slen]), 5 + slen))
      else Err(Corrupted)
  }

  /** A signed little-endian integer of n bytes after the tag byte; m is 256^n. */
  function DecodeFixed(d: seq<byte>, n: nat, m: nat): (r: Result<(Elem, nat)>)
    requires |d| > 0 && n > 0 && Pow256(n) == m
    ensures r.Ok? ==> r.value.1 == n + 1 <= |d| && r.value.0.Int?
    ensures r.Ok? ==> -(m as int) <= 2 * r.value.0.v < m
  {
    if n + 1 > |d| then Err(Corrupted)
    else
      LeBound(d[1..n + 1]);
      Ok((Int(ToSigned(LeValue(d[1..n + 1]), m)), n + 1))
  }

  /** One entry at an offset: its element and its full length; the back-length must match. */
  function DecodeEntry(bytes: seq<byte>, offset: nat): (r: Result<(Elem, nat)>)
    ensures r.Ok? ==> 0 < r.value.1 && offset + r.value.1 <= |bytes|
  {
    if offset >= |bytes| then Err(Corrupted)
    else
      match DecodeValue(bytes[offset..])
      case Err(e) => Err(e)
      case Ok((value, encLen)) =>
        var start := offset + encLen;
        var end := start + BacklenSize(encLen);
        if end > |bytes| then Err(Corrupted)
        else
          match EncodeBacklen(encLen)
          case Err(e) => Err(e)
          case Ok(expected) =>
            if bytes[start..end] != expected then Err(Corrupted)
            else Ok((value, encLen + BacklenSize(encLen)))
  }
}
