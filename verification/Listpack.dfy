/** The listpack: one buffer holding a six-byte header, the entries and an end byte. */
module Listpack {
  import opened Bytes
  import opened Decimal
  import opened ListpackCodec
  import opened ListpackLaws

  const HDR_SIZE: nat := 6
  const EOF: byte := 0xFF
  const NUMELE_UNKNOWN: nat := 0xFFFF

  // ---- the byte image of a list of elements ----

  predicate AllEncodable(es: seq<Elem>)
  {
    forall i :: 0 <= i < |es| ==> Encodable(es[i])
  }

  function Body(es: seq<Elem>): (s: seq<byte>)
    requires AllEncodable(es)
    ensures |s| >= 2 * |es|
  {
    if |es| == 0 then [] else EntryBytes(es[0]) + Body(es[1..])
  }

  /** Header fields are little-endian; the element count saturates at 65535. */
  function Header(total: nat, count: nat): (s: seq<byte>)
    ensures |s| == HDR_SIZE
  {
    LeBytes(4, total) + LeBytes(2, if count < NUMELE_UNKNOWN then count else NUMELE_UNKNOWN)
  }

  function ImageSize(es: seq<Elem>): nat
    requires AllEncodable(es)
  {
    HDR_SIZE + |Body(es)| + 1
  }

  function Image(es: seq<Elem>): (s: seq<byte>)
    requires AllEncodable(es)
    ensures |s| == ImageSize(es)
  {
    Header(ImageSize(es), |es|) + Body(es) + [EOF]
  }

  lemma {:induction false} BodyAppend(a: seq<Elem>, b: seq<Elem>)
    requires AllEncodable(a) && AllEncodable(b)
    ensures Body(a + b) == Body(a) + Body(b)
  {
    hide EntryBytes, Encodable;
    if |a| == 0 {
      assert a + b == b;
    } else {
      BodyAppend(a[1..], b);
      assert (a + b)[1..] == a[1..] + b;
    }
  }

  lemma BodySingle(e: Elem)
    requires Encodable(e)
    ensures Body([e]) == EntryBytes(e)
  {
    assert Body([e]) == EntryBytes(e) + Body([e][1..]);
  }

  // ---- reading forward ----

  /** The elements an iterator standing at `offset` yields. */
  function Iterate(bytes: seq<byte>, offset: nat): seq<Elem>
    decreases |bytes| - offset
  {
    if offset >= |bytes| || bytes[offset] == EOF then []
    else
      match DecodeEntry(bytes, offset)
      case Err(_) => []
      case Ok((e, n)) => [e] + Iterate(bytes, offset + n)
  }

  /** Where such an iterator comes to rest. */
  function StopOffset(bytes: seq<byte>, offset: nat): nat
    decreases |bytes| - offset
  {
    if offset >= |bytes| || bytes[offset] == EOF then offset
    else
      match DecodeEntry(bytes, offset)
      case Err(_) => offset
      case Ok((_, n)) => StopOffset(bytes, offset + n)
  }

  lemma {:induction false} IterateBody(pre: seq<byte>, es: seq<Elem>)
    requires AllEncodable(es)
    ensures Iterate(pre + Body(es) + [EOF], |pre|) == es
    ensures StopOffset(pre + Body(es) + [EOF], |pre|) == |pre + Body(es)|
    decreases es
  {
    hide EntryBytes, DecodeEntry;
    var bytes := pre + Body(es) + [EOF];
    if |es| == 0 {
    } else {
      var entry := EntryBytes(es[0]);
      DecodeInvertsEncode(pre, es[0], Body(es[1..]) + [EOF]);
      EntryNotEof(es[0]);
      assert bytes == pre + entry + (Body(es[1..]) + [EOF]);
      assert bytes[|pre|] == entry[0];
      IterateBody(pre + entry, es[1..]);
      assert bytes == (pre + entry) + Body(es[1..]) + [EOF];
    }
  }

  /** Iterating over the image of a list yields exactly the list and stops exactly at the last byte. */
  lemma IterateImage(es: seq<Elem>)
    requires AllEncodable(es)
    ensures Iterate(Image(es), HDR_SIZE) == es
    ensures StopOffset(Image(es), HDR_SIZE) == |Image(es)| - 1
  {
    IterateBody(Header(ImageSize(es), |es|), es);
  }

  lemma ImageInjective(a: seq<Elem>, b: seq<Elem>)
    requires AllEncodable(a) && AllEncodable(b) && Image(a) == Image(b)
    ensures a == b
  {
    IterateImage(a);
    IterateImage(b);
  }

  // ---- reading backward ----

  /** Entry start offsets found by walking right to left from `end`, nearest first. */
  function WalkBack(bytes: seq<byte>, end: nat): seq<nat>
    requires end <= |bytes|
  {
    if end <= HDR_SIZE then []
    else
      match ReadBacklen(bytes, end)
      case None => []
      case Some((len, n)) =>
        if len + n > end || len + n == 0 then []
        else [end - len - n] + WalkBack(bytes, end - len - n)
  }

  /** The start offset of each entry of a body, last entry first. */
  function StartsBackward(es: seq<Elem>): (r: seq<nat>)
    requires AllEncodable(es)
    ensures |r| == |es|
  {
    if |es| == 0 then []
    else
      var init := es[..|es| - 1];
      [HDR_SIZE + |Body(init)|] + StartsBackward(init)
  }

  /** The i-th boundary from the end is where the entry of element |es| - 1 - i begins. */
  lemma {:induction false} StartsBackwardAt(es: seq<Elem>, i: nat)
    requires AllEncodable(es) && i < |es|
    ensures StartsBackward(es)[i] == HDR_SIZE + |Body(es[..|es| - 1 - i])|
  {
    if i == 0 {
    } else {
      var init := es[..|es| - 1];
      StartsBackwardAt(init, i - 1);
      assert init[..|init| - 1 - (i - 1)] == es[..|es| - 1 - i];
    }
  }

  lemma EntryParts(e: Elem) returns (enc: seq<byte>, back: seq<byte>)
    requires Encodable(e)
    ensures EntryBytes(e) == enc + back && |enc| > 0
    ensures |enc| <= MAX_BACKLEN && EncodeBacklen(|enc|) == Ok(back)
  {
    enc := Encode(e).value;
    back := EncodeBacklen(|enc|).value;
  }

  lemma WalkBackUnfold(bytes: seq<byte>, end: nat, len: nat, n: nat)
    requires HDR_SIZE < end <= |bytes| && 0 < len + n <= end
    requires ReadBacklen(bytes, end) == Some((len, n))
    ensures WalkBack(bytes, end) == [end - len - n] + WalkBack(bytes, end - len - n)
  {
  }

  /** One step to the left over the last entry of a body. */
  lemma WalkBackStep(bytes: seq<byte>, pre: seq<byte>, e: Elem, post: seq<byte>)
    requires Encodable(e) && |pre| >= HDR_SIZE && bytes == pre + EntryBytes(e) + post
    ensures WalkBack(bytes, |pre| + |EntryBytes(e)|) == [|pre|] + WalkBack(bytes, |pre|)
  {
    hide EntryBytes, Encodable, Encode, EncodeBacklen, ReadBacklen, WalkBack;
    var enc, back := EntryParts(e);
    BacklenReadsBack(pre + enc, |enc|, post);
    assert bytes == (pre + enc) + back + post;
    WalkBackUnfold(bytes, |pre| + |EntryBytes(e)|, |enc|, |back|);
  }

  lemma {:induction false} WalkBackBody(hdr: seq<byte>, es: seq<Elem>, post: seq<byte>)
    requires |hdr| == HDR_SIZE && AllEncodable(es)
    ensures WalkBack(hdr + Body(es) + post, HDR_SIZE + |Body(es)|) == StartsBackward(es)
    decreases es
  {
    hide EntryBytes, Encode, EncodeBacklen, ReadBacklen;
    if |es| == 0 {
    } else {
      var init, last := es[..|es| - 1], es[|es| - 1];
      assert es == init + [last];
      BodyAppend(init, [last]);
      BodySingle(last);
      WalkBackBody(hdr, init, EntryBytes(last) + post);
      var bytes := hdr + Body(es) + post;
      assert bytes == hdr + Body(init) + (EntryBytes(last) + post);
      WalkBackStep(bytes, hdr + Body(init), last, post);
    }
  }

  /** From the end byte, reading right to left visits every entry boundary in reverse order. */
  lemma WalkBackImage(es: seq<Elem>)
    requires AllEncodable(es)
    ensures WalkBack(Image(es), |Image(es)| - 1) == StartsBackward(es)
  {
    WalkBackBody(Header(ImageSize(es), |es|), es, [EOF]);
  }

  // ---- header fields ----

  function ReadTotalBytes(data: seq<byte>): nat
    requires |data| >= HDR_SIZE
  {
    LeValue(data[..4])
  }

  function ReadNumElements(data: seq<byte>): nat
    requires |data| >= HDR_SIZE
  {
    LeValue(data[4..6])
  }

  lemma ImageHeader(es: seq<Elem>)
    requires AllEncodable(es) && ImageSize(es) <= U32_MAX
    ensures ReadTotalBytes(Image(es)) == |Image(es)| == 7 + |Body(es)|
    ensures ReadNumElements(Image(es)) == if |es| < 65535 then |es| else 65535
    ensures Image(es)[6..|Image(es)| - 1] == Body(es) && Image(es)[|Image(es)| - 1] == 0xFF
  {
    Pow256Values();
    var n := if |es| < NUMELE_UNKNOWN then |es| else NUMELE_UNKNOWN;
    LeRoundTrip(4, ImageSize(es));
    LeRoundTrip(2, n);
    assert Image(es)[..4] == LeBytes(4, ImageSize(es));
    assert Image(es)[4..6] == LeBytes(2, n);
  }

  /** The buffer is the image of the elements it is read as, within the 32-bit size limit. */
  ghost predicate WellFormed(data: seq<byte>)
  {
    var es := Iterate(data, HDR_SIZE);
    AllEncodable(es) && data == Image(es) && |data| <= U32_MAX
  }

  /** What any reachable buffer offers its readers: the header gives its length, an iterator comes to
      rest on the end byte, and walking back from there finds every entry. */
  lemma WellFormedReads(data: seq<byte>)
    requires WellFormed(data)
    ensures ReadTotalBytes(data) == |data|
    ensures StopOffset(data, HDR_SIZE) == |data| - 1 && data[|data| - 1] == EOF
    ensures WalkBack(data, |data| - 1) == StartsBackward(Iterate(data, HDR_SIZE))
  {
    var es := Iterate(data, HDR_SIZE);
    ImageHeader(es);
    IterateImage(es);
    WalkBackImage(es);
  }

  class Listpack {
    var data: seq<byte>

    ghost predicate Valid()
      reads this
    {
      WellFormed(data)
    }

    ghost function Contents(): seq<Elem>
      reads this
    {
      Iterate(data, HDR_SIZE)
    }

    constructor ()
      ensures Valid() && Contents() == [] && data == Image([])
    {
      var d: seq<byte> := [0, 0, 0, 0, 0, 0, 0];
      d := WriteTotalBytes(d, HDR_SIZE + 1);
      d := WriteNumElements(d, 0);
      data := d[HDR_SIZE := EOF];
      new;
      assert data == Image([]);
      IterateImage([]);
    }

    /** The true number of elements, also when the 16-bit count in the header is saturated. */
    method Len() returns (n: nat)
      requires Valid()
      ensures n == |Contents()|
    {
      ImageHeader(Contents());
      n := ReadNumElements(data);
      if n != NUMELE_UNKNOWN {
        return;
      }
      var iter := new ListpackIter(data);
      n := 0;
      var item := iter.Next();
      while item.Some?
        invariant iter.bytes == data
        invariant item.Some? ==> n + 1 + |Iterate(data, iter.offset)| == |Contents()|
        invariant item.None? ==> n == |Contents()|
        decreases item.Some?, |Iterate(data, iter.offset)|
      {
        n := n + 1;
        item := iter.Next();
      }
    }

    method TotalBytes() returns (n: nat)
      requires Valid()
      ensures n == |data|
    {
      ImageHeader(Contents());
      n := ReadTotalBytes(data);
    }

    /** Stores the integer form when the bytes are the text of a 64-bit integer, else the bytes. */
    method Append(value: seq<byte>) returns (r: Result<()>)
      requires Valid()
      modifies this
      ensures Valid()
      ensures r.Ok? <==> CanPush(old(data), AppendElem(value))
      ensures r.Ok? ==> Contents() == old(Contents()) + [AppendElem(value)]
      ensures r.Err? ==> r.error == Overflow && data == old(data)
    {
      var parsed := StrictParseI64(value);
      if parsed.Some? {
        r := AppendInt(parsed.value);
      } else {
        r := AppendString(value);
      }
    }

    method AppendString(value: seq<byte>) returns (r: Result<()>)
      requires Valid()
      modifies this
      ensures Valid()
      ensures r.Ok? <==> CanPush(old(data), Str(value))
      ensures r.Ok? ==> Contents() == old(Contents()) + [Str(value)]
      ensures r.Err? ==> r.error == Overflow && data == old(data)
    {
      var encoded := EncodeString(value);
      if encoded.Err? {
        return Err(encoded.error);
      }
      r := PushEncodedEntry(encoded.value, Str(value));
    }

    method AppendInt(value: i64) returns (r: Result<()>)
      requires Valid()
      modifies this
      ensures Valid()
      ensures r.Ok? <==> CanPush(old(data), Int(value))
      ensures r.Ok? ==> Contents() == old(Contents()) + [Int(value)]
      ensures r.Err? ==> r.error == Overflow && data == old(data)
    {
      r := PushEncodedEntry(EncodeInt(value), Int(value));
    }

    method PushEncodedEntry(encoded: seq<byte>, ghost e: Elem) returns (r: Result<()>)
      requires Valid() && InRange(e) && Encode(e) == Ok(encoded)
      modifies this
      ensures Valid()
      ensures r.Ok? <==> CanPush(old(data), e)
      ensures r.Ok? ==> Contents() == old(Contents()) + [e]
      ensures r.Err? ==> r.error == Overflow && data == old(data)
    {
      hide EntryBytes, EncodeBacklen, Encode, Encodable, AllEncodable, Header, Body, Iterate;
      hide WriteTotalBytes, WriteNumElements, ReadNumElements;
      EntryFor(e, encoded);
      var backlen := EncodeBacklen(|encoded|);
      if backlen.Err? {
        return Err(backlen.error);
      }
      var newLen := |data| + |encoded| + |backlen.value|;
      if newLen > U32_MAX {
        return Err(Overflow);
      }
      ghost var es := Contents();
      ghost var tail := Body(es) + EntryBytes(e) + [EOF];
      data := data[..|data| - 1];
      data := data + encoded;
      data := data + backlen.value;
      data := data + [EOF];
      assert data == Header(ImageSize(es), |es|) + tail;
      UpdatedHeader(ImageSize(es), |es|, tail, newLen);
      data := WriteTotalBytes(data, newLen);
      var n := ReadNumElements(data);
      if n != NUMELE_UNKNOWN {
        if n == NUMELE_UNKNOWN - 1 {
          data := WriteNumElements(data, NUMELE_UNKNOWN);
        } else {
          data := WriteNumElements(data, n + 1);
        }
      }
      assert data == Header(newLen, |es| + 1) + tail;
      PushedImage(data, es, e, newLen);
      r := Ok(());
    }
  }

  /** There is room for one more entry: it can be encoded and the buffer stays within 32 bits. */
  predicate CanPush(data: seq<byte>, e: Elem)
  {
    Encodable(e) && |data| + |EntryBytes(e)| <= U32_MAX
  }

  lemma EntryFor(e: Elem, encoded: seq<byte>)
    requires InRange(e) && Encode(e) == Ok(encoded)
    ensures Encodable(e) <==> EncodeBacklen(|encoded|).Ok?
    ensures Encodable(e) ==> EntryBytes(e) == encoded + EncodeBacklen(|encoded|).value
  {
  }

  lemma PushedImage(data: seq<byte>, es: seq<Elem>, e: Elem, size: nat)
    requires AllEncodable(es) && Encodable(e)
    requires size == ImageSize(es) + |EntryBytes(e)| <= U32_MAX
    requires data == Header(size, |es| + 1) + (Body(es) + EntryBytes(e) + [EOF])
    ensures WellFormed(data) && Iterate(data, HDR_SIZE) == es + [e]
  {
    hide EntryBytes, Encodable, Header, Iterate;
    BodyAppend(es, [e]);
    BodySingle(e);
    assert data == Image(es + [e]);
    IterateImage(es + [e]);
  }

  function WriteTotalBytes(data: seq<byte>, v: nat): (r: seq<byte>)
    requires |data| >= HDR_SIZE
    ensures |r| == |data|
  {
    LeBytes(4, v) + data[4..]
  }

  function WriteNumElements(data: seq<byte>, v: nat): (r: seq<byte>)
    requires |data| >= HDR_SIZE
    ensures |r| == |data|
  {
    data[..4] + LeBytes(2, v) + data[6..]
  }

  /** What rewriting the total and then bumping the count makes of the header; a saturated count
      stays saturated. */
  lemma UpdatedHeader(total: nat, count: nat, tail: seq<byte>, total': nat)
    ensures var data := WriteTotalBytes(Header(total, count) + tail, total');
            var n := ReadNumElements(data);
            (if n != NUMELE_UNKNOWN then WriteNumElements(data, n + 1) else data)
            == Header(total', count + 1) + tail
    ensures ReadNumElements(WriteTotalBytes(Header(total, count) + tail, total')) <= NUMELE_UNKNOWN
  {
    Pow256Values();
    var n := if count < NUMELE_UNKNOWN then count else NUMELE_UNKNOWN;
    LeRoundTrip(2, n);
    var data := WriteTotalBytes(Header(total, count) + tail, total');
    assert data == Header(total', count) + tail;
    assert data[4..6] == LeBytes(2, n);
  }

  class ListpackIter {
    const bytes: seq<byte>
    var offset: nat

    constructor (bytes: seq<byte>)
      ensures this.bytes == bytes && offset == HDR_SIZE
    {
      this.bytes := bytes;
      offset := HDR_SIZE;
    }

    /** Yields the next element, or nothing and stays put at the end byte or a corrupted entry. */
    method Next() returns (item: Option<Elem>)
      modifies this
      ensures item.Some? ==> Iterate(bytes, old(offset)) == [item.value] + Iterate(bytes, offset)
      ensures item.None? ==> Iterate(bytes, offset) == [] && offset == old(offset)
    {
      hide DecodeEntry;
      if offset >= |bytes| || bytes[offset] == EOF {
        return None;
      }
      var entry := DecodeEntry(bytes, offset);
      if entry.Err? {
        return None;
      }
      var (value, entryLen) := entry.value;
      offset := offset + entryLen;
      item := Some(value);
    }
  }
}
