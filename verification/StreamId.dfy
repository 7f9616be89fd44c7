/** Stream IDs: their order, their byte keys and the texts that name them. */
module StreamId {
  import opened Bytes
  import opened Decimal

  datatype StreamID = StreamID(ms: u64, seqno: u64)

  predicate Less(a: StreamID, b: StreamID)
  {
    a.ms < b.ms || (a.ms == b.ms && a.seqno < b.seqno)
  }

  function ToBytes(id: StreamID): (s: seq<byte>)
    ensures |s| == 16
  {
    BeBytes(8, id.ms) + BeBytes(8, id.seqno)
  }

  lemma {:induction false} LexConcat(a: seq<byte>, b: seq<byte>, c: seq<byte>, d: seq<byte>)
    requires |a| == |c|
    ensures LexLess(a + b, c + d) <==> LexLess(a, c) || (a == c && LexLess(b, d))
  {
    if |a| == 0 {
      assert a + b == b && c + d == d;
    } else {
      LexConcat(a[1..], b, c[1..], d);
      assert (a + b)[1..] == a[1..] + b && (c + d)[1..] == c[1..] + d;
      assert a == c <==> a[0] == c[0] && a[1..] == c[1..] by {
        assert a == [a[0]] + a[1..] && c == [c[0]] + c[1..];
      }
    }
  }

  /** Byte keys are ordered exactly as IDs are, and distinct IDs have distinct keys. */
  lemma ToBytesMonotone(a: StreamID, b: StreamID)
    ensures LexLess(ToBytes(a), ToBytes(b)) <==> Less(a, b)
    ensures ToBytes(a) == ToBytes(b) <==> a == b
  {
    Pow256Values();
    BeMonotone(8, a.ms, b.ms);
    BeMonotone(8, a.seqno, b.seqno);
    LexConcat(BeBytes(8, a.ms), BeBytes(8, a.seqno), BeBytes(8, b.ms), BeBytes(8, b.seqno));
    if ToBytes(a) == ToBytes(b) {
      assert ToBytes(a)[..8] == ToBytes(b)[..8] && ToBytes(a)[8..] == ToBytes(b)[8..];
    }
  }

  // ---- parsing ----

  const STAR: byte := 42  // b'*'
  const DASH: byte := 45  // b'-'

  /** Overflows stands for an addition or multiplication past the 64-bit range. */
  datatype Parsed<+T> = Good(value: T) | BadId | BadInteger | TooSmall | Overflows

  /** Length of the longest prefix made of digits. */
  function DigitPrefix(s: seq<byte>): (n: nat)
    ensures n <= |s| && AllDigits(s[..n]) && forall i :: 0 <= i < n ==> IsDigit(s[i])
    ensures n < |s| ==> !IsDigit(s[n])
  {
    if |s| == 0 || !IsDigit(s[0]) then 0
    else
      var n := 1 + DigitPrefix(s[1..]);
      assert forall i :: 0 < i < n ==> s[i] == s[1..][i - 1];
      n
  }

  function ParseU64(s: seq<byte>): (r: Parsed<u64>)
    ensures r.Good? <==> |s| > 0 && AllDigits(s) && NumValue(s) <= U64_MAX
    ensures r.Good? ==> r.value == NumValue(s)
  {
    if |s| == 0 then BadInteger
    else
      var n := DigitPrefix(s);
      assert n == |s| ==> s[..n] == s;
      if NumValue(s[..n]) > U64_MAX then Overflows
      else if n < |s| then BadInteger
      else Good(NumValue(s))
  }

  /** The loop of parse_u64. It stops at the first byte that is no digit or does not fit. */
  method ParseU64Loop(bytes: seq<byte>) returns (r: Parsed<u64>)
    ensures r == ParseU64(bytes)
  {
    if |bytes| == 0 {
      return BadInteger;
    }
    var num := 0;
    ghost var n := DigitPrefix(bytes);
    for i := 0 to |bytes|
      invariant i <= n
      invariant num == NumValue(bytes[..i]) <= U64_MAX
    {
      var b := bytes[i];
      if !IsDigit(b) {
        return BadInteger;
      }
      assert i < n;
      assert bytes[..i + 1] == bytes[..i] + [b];
      if num * 10 + (b - ZERO) > U64_MAX {
        NumValueGrows(bytes[..n], i + 1);
        assert bytes[..n][..i + 1] == bytes[..i + 1];
        return Overflows;
      }
      num := num * 10 + (b - ZERO);
    }
    assert bytes[..|bytes|] == bytes;
    return Good(num);
  }

  /** Index of the first dash. */
  function FirstDash(s: seq<byte>): (r: Option<nat>)
    ensures r.Some? ==> r.value < |s| && s[r.value] == DASH && DASH !in s[..r.value]
    ensures r.None? ==> DASH !in s
  {
    if |s| == 0 then None
    else if s[0] == DASH then Some(0)
    else
      match FirstDash(s[1..])
      case None => None
      case Some(i) =>
        assert s[..i + 1] == [s[0]] + s[1..][..i];
        Some(i + 1)
  }

  /** The ID after the last one within the same millisecond. */
  function NextSeq(ms: u64, last: StreamID): Parsed<StreamID>
  {
    if last.seqno == U64_MAX then Overflows else Good(StreamID(ms, last.seqno + 1))
  }

  /** StreamID::parse, with the wall clock in milliseconds as a parameter. */
  function Parse(input: seq<byte>, last: StreamID, now: u64): Parsed<StreamID>
  {
    if input == [STAR] then
      if last.ms == now then NextSeq(now, last) else Good(StreamID(now, 0))
    else
      match FirstDash(input)
      case None => BadId
      case Some(dash) =>
        var seqPart := input[dash + 1..];
        match ParseU64(input[..dash])
        case BadId => BadId
        case BadInteger => BadInteger
        case TooSmall => TooSmall
        case Overflows => Overflows
        case Good(ms) =>
          if seqPart == [STAR] then
            if ms > last.ms then Good(StreamID(ms, 0))
            else if ms == last.ms then NextSeq(ms, last)
            else TooSmall
          else
            match ParseU64(seqPart)
            case BadId => BadId
            case BadInteger => BadInteger
            case TooSmall => TooSmall
            case Overflows => Overflows
            case Good(seqno) => Good(StreamID(ms, seqno))
  }

  /** The text XADD replies with. */
  function IdText(id: StreamID): seq<byte>
  {
    Digits(id.ms) + [DASH] + Digits(id.seqno)
  }

  lemma {:induction false} FirstDashAt(a: seq<byte>, b: seq<byte>)
    requires DASH !in a
    ensures FirstDash(a + [DASH] + b) == Some(|a|)
  {
    var s := a + [DASH] + b;
    if |a| == 0 {
    } else {
      assert s[0] == a[0];
      assert a[0] in a;
      assert s[1..] == a[1..] + [DASH] + b;
      FirstDashAt(a[1..], b);
    }
  }

  /** The text of a number below 2^64. */
  predicate IsU64(s: seq<byte>)
  {
    |s| > 0 && AllDigits(s) && NumValue(s) <= U64_MAX
  }

  /** A text without a dash is an ID only when it is `*`: then its milliseconds are the clock's, and it is
      the least ID of that millisecond above the last one if that is in the same millisecond, else it has
      the sequence 0. There is none after the last sequence. */
  lemma ParseStar(input: seq<byte>, last: StreamID, now: u64)
    requires DASH !in input
    ensures input != [STAR] ==> Parse(input, last, now) == BadId
    ensures input == [STAR] ==>
              var r := Parse(input, last, now);
              if last.ms == now && last.seqno == U64_MAX then r.Overflows?
              else
                r.Good? && r.value.ms == now
                && (last.ms != now ==> r.value.seqno == 0)
                && (last.ms == now ==> Less(last, r.value))
                && forall seqno: u64 :: last.ms == now && Less(last, StreamID(now, seqno)) ==> r.value.seqno <= seqno
  {
  }

  /** What the two parts of a text around its first dash make of it. `ms-*` is good exactly when the
      milliseconds are a number, not below the last ones, and leave room for a next sequence. */
  lemma ParseParts(a: seq<byte>, b: seq<byte>, last: StreamID, now: u64)
    requires DASH !in a
    ensures var r := Parse(a + [DASH] + b, last, now);
            && !r.BadId?
            && (r.Good? <==>
                  IsU64(a)
                  && if b == [STAR] then NumValue(a) > last.ms || (NumValue(a) == last.ms && last.seqno < U64_MAX)
                     else IsU64(b))
            && (r.TooSmall? <==> IsU64(a) && b == [STAR] && NumValue(a) < last.ms)
            && (r.Good? ==> r.value.ms == NumValue(a))
            && (r.Good? && b != [STAR] ==> r.value.seqno == NumValue(b))
  {
    hide NumValue;
    var text := a + [DASH] + b;
    FirstDashAt(a, b);
    assert text[..|a|] == a && text[|a| + 1..] == b;
    if |a| == 0 {
      assert text[0] == DASH;
    } else {
      assert text[0] == a[0] && |text| > 1;
    }
  }

  /** The reply text parses back to the same ID, whatever the stream's last ID and the clock. */
  lemma IdTextParses(id: StreamID, last: StreamID, now: u64)
    ensures Parse(IdText(id), last, now) == Good(id)
  {
    var text := IdText(id);
    var n := |Digits(id.ms)|;
    DigitsValue(id.ms);
    DigitsValue(id.seqno);
    assert text[0] == Digits(id.ms)[0] && |text| > 1;
    FirstDashAt(Digits(id.ms), Digits(id.seqno));
    assert text[..n] == Digits(id.ms) && text[n + 1..] == Digits(id.seqno);
    assert !IsDigit(STAR) && Digits(id.seqno)[0] != STAR;
  }

  /** A dash inside what should be the milliseconds leaves a part that is no number. */
  lemma DashInMs(msText: seq<byte>, last: StreamID, now: u64)
    requires DASH in msText
    ensures !Parse(msText + [DASH, STAR], last, now).Good?
  {
    var input := msText + [DASH, STAR];
    var i := FirstDash(msText).value;
    assert input == msText[..i] + [DASH] + (msText[i + 1..] + [DASH, STAR]);
    FirstDashAt(msText[..i], msText[i + 1..] + [DASH, STAR]);
    var seqPart := input[i + 1..];
    assert seqPart[|seqPart| - 1] == STAR && !IsDigit(STAR) && |seqPart| >= 2;
  }

  /** `ms-*` names the least ID of that millisecond above the last one. */
  lemma AutoSeqIsLeast(msText: seq<byte>, last: StreamID, now: u64, other: u64)
    requires Parse(msText + [DASH, STAR], last, now).Good?
    ensures var id := Parse(msText + [DASH, STAR], last, now).value;
            ParseU64(msText) == Good(id.ms)
            && Less(last, id)
            && (Less(last, StreamID(id.ms, other)) ==> id.seqno <= other)
  {
    if DASH in msText {
      DashInMs(msText, last, now);
      assert false;
    }
    var input := msText + [DASH, STAR];
    assert input == msText + [DASH] + [STAR];
    FirstDashAt(msText, [STAR]);
    assert input[..|msText|] == msText && input[|msText| + 1..] == [STAR];
  }
}
