/** Parsing of RESP commands, and the arrays of bulk strings the replies are made of. */
module Resp {
  import opened Bytes
  import opened Decimal

  const CR: byte := 13
  const LF: byte := 10
  const STAR: byte := 42    // b'*'
  const DOLLAR: byte := 36  // b'$'
  const PLUS: byte := 43    // b'+'

  const CRLF: seq<byte> := [CR, LF]

  // ---- printing ----

  function Bulk(item: seq<byte>): seq<byte>
  {
    [DOLLAR] + Digits(|item|) + CRLF + item + CRLF
  }

  function Bulks(items: seq<seq<byte>>): seq<byte>
  {
    if |items| == 0 then [] else Bulk(items[0]) + Bulks(items[1..])
  }

  function ArrayHeader(count: nat): seq<byte>
  {
    [STAR] + Digits(count) + CRLF
  }

  /** The reply of LRANGE, of LPOP with a count and of BLPOP. */
  function PrintArray(items: seq<seq<byte>>): seq<byte>
  {
    ArrayHeader(|items|) + Bulks(items)
  }

  /** The printing loop of an array reply. */
  method WriteArray(items: seq<seq<byte>>) returns (res: seq<byte>)
    ensures res == PrintArray(items)
  {
    hide Bulk, ArrayHeader;
    res := ArrayHeader(|items|);
    for k := 0 to |items|
      invariant res == ArrayHeader(|items|) + Bulks(items[..k])
    {
      BulksSnoc(items[..k], items[k]);
      assert items[..k + 1] == items[..k] + [items[k]];
      res := res + Bulk(items[k]);
    }
    assert items[..|items|] == items;
  }

  lemma {:induction false} BulksSnoc(items: seq<seq<byte>>, item: seq<byte>)
    ensures Bulks(items + [item]) == Bulks(items) + Bulk(item)
  {
    hide Bulk;
    if |items| == 0 {
      assert items + [item] == [item];
      assert [item][1..] == [];
    } else {
      BulksSnoc(items[1..], item);
      assert (items + [item])[1..] == items[1..] + [item];
    }
  }

  // ---- parsing ----

  predicate LineEnd(buf: seq<byte>, i: nat)
  {
    i + 1 < |buf| && buf[i] == CR && buf[i + 1] == LF
  }

  /** The position after the first line end at or after start. */
  function ReadLine(buf: seq<byte>, start: nat): (r: Option<nat>)
    ensures r.Some? ==> start + 2 <= r.value <= |buf| && LineEnd(buf, r.value - 2)
    ensures r.Some? ==> forall i :: start <= i < r.value - 2 ==> !LineEnd(buf, i)
    ensures r.None? ==> forall i :: start <= i ==> !LineEnd(buf, i)
    decreases |buf| - start
  {
    if start + 1 >= |buf| then None
    else if LineEnd(buf, start) then Some(start + 2)
    else ReadLine(buf, start + 1)
  }

  /** The loop of read_line; the buffer is never empty where it is called. */
  method ReadLineLoop(buf: seq<byte>, start: nat) returns (r: Option<nat>)
    requires |buf| > 0
    ensures r == ReadLine(buf, start)
  {
    var i := start;
    while i < |buf| - 1
      invariant start <= i
      invariant ReadLine(buf, start) == ReadLine(buf, i)
    {
      if buf[i] == CR && buf[i + 1] == LF {
        return Some(i + 2);
      }
      i := i + 1;
    }
    return None;
  }

  /** str::parse::<usize>: an optional plus sign and digits, within 64 bits. */
  function ParseUsize(s: seq<byte>): Option<nat>
  {
    var digits := if |s| > 1 && s[0] == PLUS then s[1..] else s;
    if |digits| > 0 && AllDigits(digits) && NumValue(digits) <= U64_MAX then Some(NumValue(digits)) else None
  }

  /** Overflows stands for a sum past the 64-bit range or an impossible allocation. */
  datatype BulkResult = Item(data: seq<byte>, next: nat) | NoBulk | BulkOverflows

  function ParseBulk(buf: seq<byte>, start: nat): (r: BulkResult)
    ensures r.Item? ==> start < r.next <= |buf|
  {
    if start >= |buf| || buf[start] != DOLLAR then NoBulk
    else
      match ReadLine(buf, start + 1)
      case None => NoBulk
      case Some(lineEnd) =>
        match ParseUsize(buf[start + 1..lineEnd - 2])
        case None => NoBulk
        case Some(len) =>
          if lineEnd + len + 2 > U64_MAX then BulkOverflows
          else if lineEnd + len + 2 > |buf| then NoBulk
          else Item(buf[lineEnd..lineEnd + len], lineEnd + len + 2)
  }

  datatype ItemsResult = Items(items: seq<seq<byte>>, next: nat) | NoItems | ItemsOverflow

  function ParseItems(buf: seq<byte>, pos: nat, n: nat): ItemsResult
    decreases n
  {
    if n == 0 then Items([], pos)
    else
      match ParseBulk(buf, pos)
      case NoBulk => NoItems
      case BulkOverflows => ItemsOverflow
      case Item(data, next) =>
        match ParseItems(buf, next, n - 1)
        case NoItems => NoItems
        case ItemsOverflow => ItemsOverflow
        case Items(rest, end) => Items([data] + rest, end)
  }

  datatype CommandResult = Command(name: seq<byte>, args: seq<seq<byte>>) | NoCommand | Invalid | Overflows

  const SLICE_SIZE: nat := 16  // bytes of one &[u8]

  function ParseCommand(buf: seq<byte>): CommandResult
  {
    if |buf| == 0 || buf[0] != STAR then NoCommand
    else
      match ReadLine(buf, 1)
      case None => Invalid
      case Some(lineEnd) =>
        match ParseUsize(buf[1..lineEnd - 2])
        case None => Invalid
        case Some(count) =>
          match ParseBulk(buf, lineEnd)
          case NoBulk => Invalid
          case BulkOverflows => Overflows
          case Item(name, next) =>
            if count == 0 || (count - 1) * SLICE_SIZE > I64_MAX then Overflows
            else
              match ParseItems(buf, next, count - 1)
              case NoItems => Invalid
              case ItemsOverflow => Overflows
              case Items(args, _) => Command(name, args)
  }

  /** The loop of parse_command that collects the arguments. */
  method ParseArgs(buf: seq<byte>, start: nat, n: nat) returns (r: ItemsResult)
    ensures r == ParseItems(buf, start, n)
  {
    hide ParseBulk;
    var pos := start;
    var args: seq<seq<byte>> := [];
    ghost var all := ParseItems(buf, start, n);
    for k := 0 to n
      invariant all == Extended(args, ParseItems(buf, pos, n - k))
    {
      var arg := ParseBulk(buf, pos);
      ExtendedStep(args, buf, pos, n - k);
      if arg.NoBulk? {
        return NoItems;
      }
      if arg.BulkOverflows? {
        return ItemsOverflow;
      }
      args := args + [arg.data];
      pos := arg.next;
    }
    assert args + [] == args;
    return Items(args, pos);
  }

  ghost function Extended(args: seq<seq<byte>>, rest: ItemsResult): ItemsResult
  {
    if rest.Items? then Items(args + rest.items, rest.next) else rest
  }

  lemma ExtendedStep(args: seq<seq<byte>>, buf: seq<byte>, pos: nat, n: nat)
    requires n > 0
    ensures Extended(args, ParseItems(buf, pos, n)) ==
            match ParseBulk(buf, pos)
            case NoBulk => NoItems
            case BulkOverflows => ItemsOverflow
            case Item(data, next) => Extended(args + [data], ParseItems(buf, next, n - 1))
  {
    hide ParseBulk;
    var first := ParseBulk(buf, pos);
    if first.Item? {
      var rest := ParseItems(buf, first.next, n - 1);
      if rest.Items? {
        assert args + ([first.data] + rest.items) == args + [first.data] + rest.items;
      }
    }
  }

  method ParseCommandBuffer(buf: seq<byte>) returns (r: CommandResult)
    ensures r == ParseCommand(buf)
  {
    hide ReadLine, ParseUsize, ParseBulk, ParseItems;
    if |buf| == 0 || buf[0] != STAR {
      return NoCommand;
    }
    var lineEnd := ReadLineLoop(buf, 1);
    if lineEnd.None? {
      return Invalid;
    }
    var count := ParseUsize(buf[1..lineEnd.value - 2]);
    if count.None? {
      return Invalid;
    }
    var cmd := ParseBulk(buf, lineEnd.value);
    if !cmd.Item? {
      return if cmd.NoBulk? then Invalid else Overflows;
    }
    if count.value == 0 || (count.value - 1) * SLICE_SIZE > I64_MAX {
      return Overflows;
    }
    var args := ParseArgs(buf, cmd.next, count.value - 1);
    match args
    case NoItems => return Invalid;
    case ItemsOverflow => return Overflows;
    case Items(items, _) => return Command(cmd.data, items);
  }

  // ---- what is printed is parsed back ----

  lemma DigitsNoLineEnd(buf: seq<byte>, start: nat, n: nat)
    requires start + n <= |buf| && AllDigits(buf[start..start + n])
    ensures forall i :: start <= i < start + n ==> !LineEnd(buf, i)
  {
    forall i | start <= i < start + n ensures buf[i] != CR {
      assert buf[i] == buf[start..start + n][i - start];
    }
  }

  lemma UsizeParses(n: nat)
    requires n <= U64_MAX
    ensures ParseUsize(Digits(n)) == Some(n)
  {
    DigitsValue(n);
    assert IsDigit(Digits(n)[0]) && !IsDigit(PLUS);
  }

  /** A header line of digits is read up to its line end, and its number is recovered. */
  lemma HeaderLine(pre: seq<byte>, n: nat, post: seq<byte>)
    requires n <= U64_MAX
    ensures var buf := pre + Digits(n) + CRLF + post;
            var end := |pre| + |Digits(n)| + 2;
            ReadLine(buf, |pre|) == Some(end) && ParseUsize(buf[|pre|..end - 2]) == Some(n)
  {
    hide ReadLine, Digits, NumValue, ParseUsize;
    var d := Digits(n);
    var buf := pre + d + CRLF + post;
    assert buf[|pre|..|pre| + |d|] == d;
    DigitsNoLineEnd(buf, |pre|, |d|);
    assert LineEnd(buf, |pre| + |d|);
    UsizeParses(n);
  }

  lemma BulkStep(buf: seq<byte>, start: nat, lineEnd: nat, len: nat)
    requires start < |buf| && buf[start] == DOLLAR && ReadLine(buf, start + 1) == Some(lineEnd)
    requires ParseUsize(buf[start + 1..lineEnd - 2]) == Some(len) && lineEnd + len + 2 <= U64_MAX
    ensures ParseBulk(buf, start) ==
            if lineEnd + len + 2 > |buf| then NoBulk else Item(buf[lineEnd..lineEnd + len], lineEnd + len + 2)
  {
    hide ReadLine, ParseUsize;
  }

  lemma BulkParses(pre: seq<byte>, item: seq<byte>, post: seq<byte>)
    requires |pre| + |Bulk(item)| + |post| <= I64_MAX
    ensures ParseBulk(pre + Bulk(item) + post, |pre|) == Item(item, |pre| + |Bulk(item)|)
  {
    hide ReadLine, ParseUsize, ParseBulk, Digits;
    var buf := pre + Bulk(item) + post;
    var line := pre + [DOLLAR];
    var tail := item + CRLF + post;
    HeaderLine(line, |item|, tail);
    assert buf == line + Digits(|item|) + CRLF + tail;
    var end := |line| + |Digits(|item|)| + 2;
    assert buf[end..] == tail && buf[end..end + |item|] == tail[..|item|] == item;
    BulkStep(buf, |pre|, end, |item|);
  }

  lemma {:induction false} ItemsParse(pre: seq<byte>, items: seq<seq<byte>>, post: seq<byte>)
    requires |pre| + |Bulks(items)| + |post| <= I64_MAX
    ensures ParseItems(pre + Bulks(items) + post, |pre|, |items|) == Items(items, |pre| + |Bulks(items)|)
    decreases items
  {
    hide Bulk, ParseBulk;
    if |items| == 0 {
    } else {
      var b, rest := Bulk(items[0]), items[1..];
      var buf := pre + Bulks(items) + post;
      BulkParses(pre, items[0], Bulks(rest) + post);
      assert buf == pre + b + (Bulks(rest) + post);
      ItemsParse(pre + b, rest, post);
      assert buf == (pre + b) + Bulks(rest) + post;
    }
  }

  /** Every non-empty array a reply prints parses back to its items, whatever bytes the items hold
      and whatever follows. The bound on the count is that of any list held in memory. */
  lemma ArrayParses(items: seq<seq<byte>>, post: seq<byte>)
    requires |items| > 0 && |items| * SLICE_SIZE <= I64_MAX
    requires |PrintArray(items)| + |post| <= I64_MAX
    ensures ParseCommand(PrintArray(items) + post) == Command(items[0], items[1..])
  {
    hide Bulk, Bulks, ParseBulk, ParseUsize, ReadLine, Digits, ParseItems;
    var buf := PrintArray(items) + post;
    var header, b, rest := ArrayHeader(|items|), Bulk(items[0]), items[1..];
    BulksUnfold(items);
    HeaderLine([STAR], |items|, Bulks(items) + post);
    assert buf == [STAR] + Digits(|items|) + CRLF + (Bulks(items) + post);
    BulkParses(header, items[0], Bulks(rest) + post);
    assert buf == header + b + (Bulks(rest) + post);
    ItemsParse(header + b, rest, post);
    assert buf == (header + b) + Bulks(rest) + post;
  }

  lemma BulksUnfold(items: seq<seq<byte>>)
    requires |items| > 0
    ensures Bulks(items) == Bulk(items[0]) + Bulks(items[1..])
  {
  }

  // ---- nothing shorter parses ----

  /** A header line cut anywhere before its end is no line. */
  lemma CutHeader(pre: seq<byte>, n: nat, k: nat)
    requires k < |Digits(n)| + 2
    ensures ReadLine(pre + (Digits(n) + CRLF)[..k], |pre|) == None
  {
    hide ReadLine, Digits;
    var d := Digits(n);
    var cut := (d + CRLF)[..k];
    var buf := pre + cut;
    forall i | |pre| <= i ensures !LineEnd(buf, i) {
      if i + 1 < |buf| {
        assert buf[i] == cut[i - |pre|] == d[i - |pre|];
      }
    }
  }

  lemma CutBulk(pre: seq<byte>, item: seq<byte>, k: nat)
    requires k < |Bulk(item)| && |pre| + |Bulk(item)| <= I64_MAX
    ensures ParseBulk(pre + Bulk(item)[..k], |pre|) == NoBulk
  {
    hide ReadLine, ParseUsize, Digits;
    var buf := pre + Bulk(item)[..k];
    var line := pre + [DOLLAR];
    var d := Digits(|item|);
    if 0 < k {
      if k < |d| + 3 {
        CutHeader(line, |item|, k - 1);
        assert buf == line + (d + CRLF)[..k - 1];
      } else {
        var tail := (item + CRLF)[..k - |d| - 3];
        HeaderLine(line, |item|, tail);
        assert buf == line + d + CRLF + tail;
        BulkStep(buf, |pre|, |line| + |d| + 2, |item|);
      }
    }
  }

  lemma {:induction false} CutItems(pre: seq<byte>, items: seq<seq<byte>>, k: nat)
    requires k < |Bulks(items)| && |pre| + |Bulks(items)| <= I64_MAX
    ensures ParseItems(pre + Bulks(items)[..k], |pre|, |items|) == NoItems
    decreases items
  {
    hide Bulk, ParseBulk;
    var b, rest := Bulk(items[0]), items[1..];
    var buf := pre + Bulks(items)[..k];
    if k < |b| {
      CutBulk(pre, items[0], k);
      assert buf == pre + b[..k];
    } else {
      var tail := Bulks(rest)[..k - |b|];
      BulkParses(pre, items[0], tail);
      assert buf == pre + b + tail;
      CutItems(pre + b, rest, k - |b|);
      assert buf == (pre + b) + tail;
    }
  }

  /** No strict prefix of a printed array parses as a command, and none overflows. */
  lemma CutArray(items: seq<seq<byte>>, k: nat)
    requires |items| > 0 && |items| * SLICE_SIZE <= I64_MAX
    requires k < |PrintArray(items)| <= I64_MAX
    ensures var r := ParseCommand(PrintArray(items)[..k]);
            r.NoCommand? || r.Invalid?
  {
    hide Bulk, Bulks, ParseBulk, ParseUsize, ReadLine, Digits, ParseItems;
    var buf := PrintArray(items)[..k];
    var header, b, rest := ArrayHeader(|items|), Bulk(items[0]), items[1..];
    var d := Digits(|items|);
    BulksUnfold(items);
    if k < |header| {
      if k > 0 {
        CutHeader([STAR], |items|, k - 1);
        assert buf == [STAR] + (d + CRLF)[..k - 1];
      }
    } else {
      var tail := Bulks(items)[..k - |header|];
      HeaderLine([STAR], |items|, tail);
      assert buf == [STAR] + d + CRLF + tail;
      if |tail| < |b| {
        CutBulk(header, items[0], |tail|);
        assert buf == header + b[..|tail|];
      } else {
        var tail' := Bulks(rest)[..|tail| - |b|];
        BulkParses(header, items[0], tail');
        assert buf == header + b + tail';
        CutItems(header + b, rest, |tail| - |b|);
        assert buf == (header + b) + tail';
      }
    }
  }
}
