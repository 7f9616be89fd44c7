/** What the listpack encodings promise: decoding inverts encoding, encodings are minimal, and
    storing decimal text as an integer loses nothing and always saves space. */
module ListpackLaws {
  import opened Bytes
  import opened Decimal
  import opened ListpackCodec

  // ---- decoding inverts encoding ----

  lemma DecodeFixedInverts(tag: byte, n: nat, m: nat, v: int, rest: seq<byte>)
    requires 0 < n && Pow256(n) == m && -(m as int) <= 2 * v < m
    ensures DecodeFixed([tag] + LeBytes(n, ToUnsigned(v, m)) + rest, n, m) == Ok((Int(v), n + 1))
  {
    var u := ToUnsigned(v, m);
    var d := [tag] + LeBytes(n, u) + rest;
    LeRoundTrip(n, u);
    assert d[1..n + 1] == LeBytes(n, u);
    assert m == 256 * Pow256(n - 1);
  }

  lemma DecodeIntInverts(v: i64, rest: seq<byte>)
    ensures DecodeValue(EncodeInt(v) + rest) == Ok((Int(v), |EncodeInt(v)|))
  {
    Pow256Values();
    var enc := EncodeInt(v);
    var d := enc + rest;
    if -4096 <= v <= 4095 {
      assert d[0] == enc[0];
      if |enc| == 2 { assert d[1] == enc[1]; }
    } else if -32768 <= v <= 32767 {
      DecodeFixedInverts(0xF1, 2, 0x1_0000, v, rest);
    } else if -8388608 <= v <= 8388607 {
      DecodeFixedInverts(0xF2, 3, 0x100_0000, v, rest);
    } else if -0x8000_0000 <= v <= 0x7FFF_FFFF {
      DecodeFixedInverts(0xF3, 4, 0x1_0000_0000, v, rest);
    } else {
      DecodeFixedInverts(0xF4, 8, 0x1_0000_0000_0000_0000, v, rest);
    }
  }

  lemma DecodeStringInverts(s: seq<byte>, rest: seq<byte>)
    requires |s| <= U32_MAX
    ensures var enc := EncodeString(s).value;
            DecodeValue(enc + rest) == Ok((Str(s), |enc|))
  {
    var enc := EncodeString(s).value;
    var d := enc + rest;
    var h := |enc| - |s|;
    assert d[0] == enc[0];
    assert d[h..h + |s|] == s;
    if |s| >= 64 {
      assert d[1] == enc[1];
    }
    if |s| >= 4096 {
      Pow256Values();
      LeRoundTrip(4, |s|);
      assert d[1..5] == LeBytes(4, |s|);
    }
  }

  /** An entry written anywhere in a buffer is read back as the element it was written for,
      together with its exact length. */
  lemma DecodeInvertsEncode(pre: seq<byte>, e: Elem, post: seq<byte>)
    requires Encodable(e)
    ensures DecodeEntry(pre + EntryBytes(e) + post, |pre|) == Ok((e, |EntryBytes(e)|))
  {
    var enc := Encode(e).value;
    var back := EncodeBacklen(|enc|).value;
    var bytes := pre + EntryBytes(e) + post;
    assert bytes[|pre|..] == enc + (back + post);
    match e {
      case Str(s) => DecodeStringInverts(s, back + post);
      case Int(v) => DecodeIntInverts(v, back + post);
    }
    assert bytes[|pre| + |enc|..|pre| + |enc| + |back|] == back;
  }

  /** No entry starts with the byte that ends a listpack. */
  lemma EntryNotEof(e: Elem)
    requires Encodable(e)
    ensures EntryBytes(e)[0] != 0xFF
  {
    assert EntryBytes(e)[0] == Encode(e).value[0];
  }

  // ---- the nine forms of an element ----

  /** Payload bytes of the integer forms with a tag of their own. */
  function IntWidth(tag: byte): nat
  {
    if tag == 0xF1 then 2 else if tag == 0xF2 then 3 else if tag == 0xF3 then 4 else if tag == 0xF4 then 8 else 0
  }

  /** The unsigned number u below m stands for the signed number v modulo m. */
  predicate TwosComplement(u: nat, v: int, m: nat)
  {
    -(m as int) <= 2 * v < m && (u == v || u == v + m)
  }

  /** Integers: seven bits unsigned, thirteen bits signed, or a tag and a signed little-endian number. */
  predicate IsIntForm(enc: seq<byte>, v: int)
    requires |enc| > 0
  {
    var width := IntWidth(enc[0]);
    || (|enc| == 1 && v == enc[0] < 0x80)
    || (|enc| == 2 && 0xC0 <= enc[0] < 0xE0 && TwosComplement(256 * (enc[0] as int - 0xC0) + enc[1], v, 0x2000))
    || (width > 0 && |enc| == 1 + width && TwosComplement(LeValue(enc[1..]), v, Pow256(width)))
  }

  /** Strings: a length of six bits, twelve bits big-endian or 32 bits little-endian, then the bytes. */
  predicate IsStrForm(enc: seq<byte>, s: seq<byte>)
    requires |enc| > 0
  {
    || (0x80 <= enc[0] < 0xC0 && |s| == enc[0] - 0x80 && enc[1..] == s)
    || (0xE0 <= enc[0] < 0xF0 && |enc| >= 2 && |s| == 256 * (enc[0] as int - 0xE0) + enc[1] && enc[2..] == s)
    || (enc[0] == 0xF0 && |enc| >= 5 && |s| == LeValue(enc[1..5]) && enc[5..] == s)
  }

  predicate IsForm(enc: seq<byte>, e: Elem)
  {
    && |enc| > 0
    && match e
       case Int(v) => IsIntForm(enc, v)
       case Str(s) => IsStrForm(enc, s)
  }

  lemma DecodeFixedIff(d: seq<byte>, n: nat, m: nat, v: int)
    requires |d| > n > 0 && Pow256(n) == m
    ensures DecodeFixed(d, n, m) == Ok((Int(v), n + 1)) <==>
            TwosComplement(LeValue(d[..n + 1][1..]), v, m)
  {
    assert d[..n + 1][1..] == d[1..n + 1];
    LeBound(d[1..n + 1]);
    assert m == 256 * Pow256(n - 1);
  }

  lemma DecodeIntIff(d: seq<byte>, v: int, k: nat)
    ensures DecodeValue(d) == Ok((Int(v), k)) <==> 0 < k <= |d| && IsIntForm(d[..k], v)
  {
    hide LeValue, Pow256, DecodeFixed;
    Pow256Values();
    if 0 < |d| {
      var first := d[0];
      var width := IntWidth(first);
      assert 0 < k <= |d| ==> d[..k][0] == first;
      if width > 0 {
        if width < |d| {
          DecodeFixedIff(d, width, Pow256(width), v);
        }
      } else if 0xC0 <= first < 0xE0 && |d| >= 2 {
        assert d[..2][1] == d[1];
      }
    }
  }

  lemma DecodeStrIff(d: seq<byte>, s: seq<byte>, k: nat)
    ensures DecodeValue(d) == Ok((Str(s), k)) <==> 0 < k <= |d| && IsStrForm(d[..k], s)
  {
    hide LeValue, DecodeFixed;
    if 0 < k <= |d| {
      var enc := d[..k];
      assert enc[0] == d[0] && enc[1..] == d[1..k];
      assert k >= 2 ==> enc[1] == d[1] && enc[2..] == d[2..k];
      assert k >= 5 ==> enc[1..5] == d[1..5] && enc[5..] == d[5..k];
    }
  }

  /** The decoder accepts an entry as an element of a given length exactly when the bytes are one of
      the element's forms followed by the back-length that belongs to it. */
  lemma DecodeIffForm(bytes: seq<byte>, offset: nat, e: Elem, n: nat)
    ensures DecodeEntry(bytes, offset) == Ok((e, n)) <==>
            exists k :: 0 < k <= MAX_BACKLEN && n == k + BacklenSize(k) && offset + n <= |bytes|
                        && IsForm(bytes[offset..][..k], e)
                        && bytes[offset + k..offset + n] == EncodeBacklen(k).value
  {
    hide DecodeValue, IsIntForm, IsStrForm;
    if offset < |bytes| {
      forall k: nat ensures DecodeValue(bytes[offset..]) == Ok((e, k)) <==>
                            0 < k <= |bytes| - offset && IsForm(bytes[offset..][..k], e)
      {
        match e
        case Int(v) => DecodeIntIff(bytes[offset..], v, k);
        case Str(s) => DecodeStrIff(bytes[offset..], s, k);
      }
    }
  }

  // ---- minimality ----

  lemma DecodedNotShorter(d: seq<byte>)
    requires DecodeValue(d).Ok?
    ensures var (e, n) := DecodeValue(d).value;
            Encode(e).Ok? && |Encode(e).value| <= n
  {
    var first := d[0];
    if first == 0xF0 {
      Pow256Values();
      LeBound(d[1..5]);
    }
  }

  /** The encoder writes one of the element's forms, and no form is shorter. It fails only where no
      form exists. */
  lemma EncodeShortestForm(e: Elem, other: seq<byte>)
    requires InRange(e)
    ensures Encode(e).Ok? ==> IsForm(Encode(e).value, e)
    ensures IsForm(other, e) ==> Encode(e).Ok? && |Encode(e).value| <= |other|
  {
    hide Encode, DecodeValue, IsIntForm, IsStrForm;
    if Encode(e).Ok? {
      FormIffDecoded(Encode(e).value, e);
      EncodedDecodes(e);
    }
    FormIffDecoded(other, e);
    if IsForm(other, e) {
      DecodedNotShorter(other);
    }
  }

  lemma FormIffDecoded(enc: seq<byte>, e: Elem)
    ensures IsForm(enc, e) <==> |enc| > 0 && DecodeValue(enc) == Ok((e, |enc|))
  {
    hide DecodeValue, IsIntForm, IsStrForm;
    assert enc[..|enc|] == enc;
    match e
    case Int(v) => DecodeIntIff(enc, v, |enc|);
    case Str(s) => DecodeStrIff(enc, s, |enc|);
  }

  lemma EncodedDecodes(e: Elem)
    requires InRange(e) && Encode(e).Ok?
    ensures DecodeValue(Encode(e).value) == Ok((e, |Encode(e).value|))
  {
    var enc := Encode(e).value;
    assert enc + [] == enc;
    match e
    case Str(s) => DecodeStringInverts(s, []);
    case Int(v) => DecodeIntInverts(v, []);
  }

  /** Whatever bytes the decoder accepts for an element, the encoder's own entry for it is no longer. */
  lemma EncodingMinimal(bytes: seq<byte>, offset: nat)
    requires DecodeEntry(bytes, offset).Ok?
    ensures var (e, n) := DecodeEntry(bytes, offset).value;
            Encodable(e) && |EntryBytes(e)| <= n
  {
    DecodedNotShorter(bytes[offset..]);
    var (e, encLen) := DecodeValue(bytes[offset..]).value;
    assert BacklenSize(|Encode(e).value|) <= BacklenSize(encLen);
  }

  // ---- append ----

  /** The element `append` stores for a byte string. */
  function AppendElem(s: seq<byte>): (e: Elem)
    ensures InRange(e)
  {
    match StrictParse(s)
    case Some(v) => Int(v)
    case None => Str(s)
  }

  /** The bytes a client sees for a stored element: integers are printed in decimal. */
  function Shown(e: Elem): seq<byte>
  {
    match e
    case Str(s) => s
    case Int(v) => Text(v)
  }

  /** `append` is lossless. */
  lemma AppendLossless(s: seq<byte>)
    ensures Shown(AppendElem(s)) == s
  {
    if StrictParse(s).Some? {
      StrictParseIffText(s, StrictParse(s).value);
    }
  }

  lemma TextLength(v: i64)
    ensures |Text(v)| < 64
    ensures v < 0 ==> |Text(v)| >= 2
    ensures v >= 100 || v <= -100 ==> |Text(v)| >= 3
    ensures v >= 1000 || v <= -1000 ==> |Text(v)| >= 4
    ensures v >= 1000000 || v <= -1000000 ==> |Text(v)| >= 7
    ensures v >= 1000000000 || v <= -1000000000 ==> |Text(v)| >= 10
  {
    var n: nat := if v < 0 then 0 - v else v;
    Pow10Values();
    DigitsShort(n, 20);
    if n >= 100 { DigitsLength(n, 3); }
    if n >= 1000 { DigitsLength(n, 4); }
    if n >= 1000000 { DigitsLength(n, 7); }
    if n >= 1000000000 { DigitsLength(n, 10); }
  }

  lemma {:induction false} DigitsShort(n: nat, k: nat)
    requires 0 < k && n < Pow10(k)
    ensures |Digits(n)| <= k
  {
    if n < 10 {
    } else {
      assert Pow10(k) == 10 * Pow10(k - 1);
      DigitsShort(n / 10, k - 1);
    }
  }

  lemma Pow10Values()
    ensures Pow10(2) == 100 && Pow10(3) == 1000 && Pow10(6) == 1000000 && Pow10(9) == 1000000000
    ensures Pow10(20) == 100000000000000000000
  {
    assert Pow10(3) == 10 * Pow10(2);
    assert Pow10(6) == 1000 * Pow10(3);
    assert Pow10(9) == 1000 * Pow10(6);
    assert Pow10(12) == 1000 * Pow10(9);
    assert Pow10(15) == 1000 * Pow10(12);
    assert Pow10(18) == 1000 * Pow10(15);
  }

  /** Whenever `append` turns text into an integer, the entry gets strictly shorter. */
  lemma IntegerFormSaves(s: seq<byte>)
    requires AppendElem(s).Int?
    ensures Encodable(Str(s)) && Encodable(AppendElem(s))
    ensures |EntryBytes(AppendElem(s))| < |EntryBytes(Str(s))|
  {
    var v := StrictParse(s).value;
    StrictParseIffText(s, v);
    TextLength(v);
    assert |EncodeInt(v)| < |EncodeString(s).value|;
  }
}
