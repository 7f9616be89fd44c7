/** Exactly which buffers the parser takes for a command. */
module RespGrammar {
  import opened Bytes
  import opened Decimal
  import opened Resp

  /** An unsigned number is digits, with leading zeros allowed and one plus sign before them. */
  lemma UsizeExactly(s: seq<byte>, n: nat)
    ensures ParseUsize(s) == Some(n) <==>
            exists digits: seq<byte> :: (s == digits || s == [PLUS] + digits)
                                        && |digits| > 0 && AllDigits(digits) && NumValue(digits) == n <= U64_MAX
  {
    if |s| > 1 && s[0] == PLUS {
      assert s == [PLUS] + s[1..];
    }
    if digits: seq<byte> :| (s == digits || s == [PLUS] + digits)
                            && |digits| > 0 && AllDigits(digits) && NumValue(digits) == n <= U64_MAX
    {
      if s == digits {
        assert IsDigit(s[0]) && !IsDigit(PLUS);
      } else {
        assert s[1..] == digits;
      }
    }
  }

  // ---- bytes at a place ----

  predicate At(buf: seq<byte>, pos: nat, s: seq<byte>)
  {
    pos + |s| <= |buf| && buf[pos..pos + |s|] == s
  }

  lemma AtBoth(buf: seq<byte>, pos: nat, a: seq<byte>, b: seq<byte>)
    ensures At(buf, pos, a + b) <==> At(buf, pos, a) && At(buf, pos + |a|, b)
  {
    if pos + |a| + |b| <= |buf| {
      var x, y := buf[pos..pos + |a|], buf[pos + |a|..pos + |a| + |b|];
      assert buf[pos..pos + |a + b|] == x + y;
      assert (x + y)[..|a|] == x && (x + y)[|a|..] == y && (a + b)[..|a|] == a && (a + b)[|a|..] == b;
    }
  }

  lemma AtByte(buf: seq<byte>, pos: nat, c: byte)
    ensures At(buf, pos, [c]) <==> pos < |buf| && buf[pos] == c
  {
  }

  lemma AtLineEnd(buf: seq<byte>, pos: nat)
    ensures At(buf, pos, CRLF) <==> LineEnd(buf, pos)
  {
    if pos + 2 <= |buf| {
      assert buf[pos..pos + 2] == [buf[pos], buf[pos + 1]];
    }
  }

  // ---- what is accepted ----

  /** A bulk string as it is accepted: any text of its length, and any two bytes after the data. */
  datatype Frame = Frame(line: seq<byte>, data: seq<byte>, tail: seq<byte>)

  predicate Accepted(f: Frame)
  {
    ParseUsize(f.line) == Some(|f.data|) && |f.tail| == 2
  }

  function FrameBytes(f: Frame): seq<byte>
  {
    [DOLLAR] + (f.line + (CRLF + (f.data + f.tail)))
  }

  function FramesBytes(fs: seq<Frame>): seq<byte>
  {
    if |fs| == 0 then [] else FrameBytes(fs[0]) + FramesBytes(fs[1..])
  }

  function Datas(fs: seq<Frame>): (r: seq<seq<byte>>)
    ensures |r| == |fs|
  {
    if |fs| == 0 then [] else [fs[0].data] + Datas(fs[1..])
  }

  predicate AllAccepted(fs: seq<Frame>)
  {
    forall i :: 0 <= i < |fs| ==> Accepted(fs[i])
  }

  /** A buffer starts with a command: the text of a count, a line end, and that many bulk strings. */
  predicate StartsWith(buf: seq<byte>, line: seq<byte>, fs: seq<Frame>)
  {
    |fs| > 0 && ParseUsize(line) == Some(|fs|) && AllAccepted(fs)
    && At(buf, 0, [STAR] + (line + (CRLF + FramesBytes(fs))))
  }

  // ---- accepted bytes are parsed ----

  lemma NumberHasNoCr(line: seq<byte>, i: nat)
    requires ParseUsize(line).Some? && i < |line|
    ensures line[i] != CR
  {
    hide NumValue;
    var digits := if |line| > 1 && line[0] == PLUS then line[1..] else line;
    if i >= |line| - |digits| {
      assert IsDigit(digits[i - (|line| - |digits|)]);
    }
  }

  /** The text of a number has no line end in it, so the line it stands on is found. */
  lemma LineAt(buf: seq<byte>, pos: nat, line: seq<byte>)
    requires ParseUsize(line).Some? && At(buf, pos, line) && LineEnd(buf, pos + |line|)
    ensures ReadLine(buf, pos) == Some(pos + |line| + 2)
  {
    hide ParseUsize, ReadLine;
    forall i | pos <= i < pos + |line| ensures !LineEnd(buf, i) {
      NumberHasNoCr(line, i - pos);
      assert buf[i] == buf[pos..pos + |line|][i - pos];
    }
  }

  lemma FrameAt(buf: seq<byte>, pos: nat, f: Frame)
    requires Accepted(f) && At(buf, pos, FrameBytes(f)) && |buf| <= I64_MAX
    ensures ParseBulk(buf, pos) == Item(f.data, pos + |FrameBytes(f)|)
  {
    hide ReadLine, ParseUsize, ParseBulk, LineEnd;
    var lineEnd := pos + 1 + |f.line| + 2;
    AtBoth(buf, pos, [DOLLAR], f.line + (CRLF + (f.data + f.tail)));
    AtByte(buf, pos, DOLLAR);
    AtBoth(buf, pos + 1, f.line, CRLF + (f.data + f.tail));
    AtBoth(buf, pos + 1 + |f.line|, CRLF, f.data + f.tail);
    AtLineEnd(buf, pos + 1 + |f.line|);
    AtBoth(buf, lineEnd, f.data, f.tail);
    LineAt(buf, pos + 1, f.line);
    BulkStep(buf, pos, lineEnd, |f.data|);
  }

  lemma {:induction false} FramesAt(buf: seq<byte>, pos: nat, fs: seq<Frame>)
    requires AllAccepted(fs) && At(buf, pos, FramesBytes(fs)) && |buf| <= I64_MAX
    ensures ParseItems(buf, pos, |fs|) == Items(Datas(fs), pos + |FramesBytes(fs)|)
    decreases fs
  {
    hide Accepted, ParseBulk, FrameBytes, At;
    if |fs| == 0 {
    } else {
      AtBoth(buf, pos, FrameBytes(fs[0]), FramesBytes(fs[1..]));
      FrameAt(buf, pos, fs[0]);
      FramesAt(buf, pos + |FrameBytes(fs[0])|, fs[1..]);
    }
  }

  lemma CommandStep(buf: seq<byte>, lineEnd: nat, count: nat, name: seq<byte>, next: nat, args: seq<seq<byte>>,
                    end: nat)
    requires |buf| > 0 && buf[0] == STAR && ReadLine(buf, 1) == Some(lineEnd)
    requires ParseUsize(buf[1..lineEnd - 2]) == Some(count) && 0 < count && count * SLICE_SIZE <= I64_MAX
    requires ParseBulk(buf, lineEnd) == Item(name, next) && ParseItems(buf, next, count - 1) == Items(args, end)
    ensures ParseCommand(buf) == Command(name, args)
  {
    hide ReadLine, ParseUsize, ParseBulk, ParseItems;
  }

  lemma CommandAt(buf: seq<byte>, line: seq<byte>, fs: seq<Frame>)
    requires |buf| <= I64_MAX && |fs| * SLICE_SIZE <= I64_MAX && StartsWith(buf, line, fs)
    ensures ParseCommand(buf) == Command(fs[0].data, Datas(fs[1..]))
  {
    hide ReadLine, ParseUsize, ParseBulk, ParseItems, FrameBytes, Accepted, ParseCommand, Datas, LineEnd;
    var lineEnd := 1 + |line| + 2;
    AtBoth(buf, 0, [STAR], line + (CRLF + FramesBytes(fs)));
    AtByte(buf, 0, STAR);
    AtBoth(buf, 1, line, CRLF + FramesBytes(fs));
    AtBoth(buf, 1 + |line|, CRLF, FramesBytes(fs));
    AtLineEnd(buf, 1 + |line|);
    LineAt(buf, 1, line);
    AtBoth(buf, lineEnd, FrameBytes(fs[0]), FramesBytes(fs[1..]));
    FrameAt(buf, lineEnd, fs[0]);
    var next := lineEnd + |FrameBytes(fs[0])|;
    FramesAt(buf, next, fs[1..]);
    CommandStep(buf, lineEnd, |fs|, fs[0].data, next, Datas(fs[1..]), next + |FramesBytes(fs[1..])|);
  }

  /** A count of zero, or one past any memory, followed by a name, is not read: the program stops there. */
  lemma CountOverflows(buf: seq<byte>, line: seq<byte>, n: nat, f: Frame)
    requires |buf| <= I64_MAX && ParseUsize(line) == Some(n) && Accepted(f)
    requires At(buf, 0, [STAR] + (line + (CRLF + FrameBytes(f)))) && (n == 0 || (n - 1) * 16 > I64_MAX)
    ensures ParseCommand(buf).Overflows?
  {
    hide ReadLine, ParseUsize, ParseBulk, ParseItems, FrameBytes, Accepted, LineEnd;
    var lineEnd := 1 + |line| + 2;
    AtBoth(buf, 0, [STAR], line + (CRLF + FrameBytes(f)));
    AtByte(buf, 0, STAR);
    AtBoth(buf, 1, line, CRLF + FrameBytes(f));
    AtBoth(buf, 1 + |line|, CRLF, FrameBytes(f));
    AtLineEnd(buf, 1 + |line|);
    LineAt(buf, 1, line);
    FrameAt(buf, lineEnd, f);
  }

  // ---- what is parsed was accepted bytes ----

  lemma ParsedFrame(buf: seq<byte>, start: nat) returns (f: Frame)
    requires ParseBulk(buf, start).Item?
    ensures var r := ParseBulk(buf, start);
            Accepted(f) && f.data == r.data && r.next == start + |FrameBytes(f)| && At(buf, start, FrameBytes(f))
  {
    hide ReadLine, ParseUsize;
    var lineEnd := ReadLine(buf, start + 1).value;
    var r := ParseBulk(buf, start);
    var n := lineEnd + |r.data|;
    f := Frame(buf[start + 1..lineEnd - 2], r.data, buf[n..n + 2]);
    FrameFrom(buf, start, f);
  }

  lemma FrameFrom(buf: seq<byte>, start: nat, f: Frame)
    requires At(buf, start, [DOLLAR]) && At(buf, start + 1, f.line) && LineEnd(buf, start + 1 + |f.line|)
    requires At(buf, start + 1 + |f.line| + 2, f.data) && At(buf, start + 1 + |f.line| + 2 + |f.data|, f.tail)
    ensures At(buf, start, FrameBytes(f))
  {
    hide At, LineEnd;
    var lineEnd := start + 1 + |f.line| + 2;
    AtBoth(buf, lineEnd, f.data, f.tail);
    AtLineEnd(buf, start + 1 + |f.line|);
    AtBoth(buf, start + 1 + |f.line|, CRLF, f.data + f.tail);
    AtBoth(buf, start + 1, f.line, CRLF + (f.data + f.tail));
    AtBoth(buf, start, [DOLLAR], f.line + (CRLF + (f.data + f.tail)));
  }

  lemma {:induction false} ParsedFrames(buf: seq<byte>, pos: nat, n: nat) returns (fs: seq<Frame>)
    requires ParseItems(buf, pos, n).Items? && pos <= |buf|
    ensures |fs| == n && AllAccepted(fs) && Datas(fs) == ParseItems(buf, pos, n).items && At(buf, pos, FramesBytes(fs))
    decreases n
  {
    hide Accepted, ParseBulk, FrameBytes;
    if n == 0 {
      fs := [];
    } else {
      var f := ParsedFrame(buf, pos);
      var rest := ParsedFrames(buf, pos + |FrameBytes(f)|, n - 1);
      fs := [f] + rest;
      assert fs[1..] == rest;
      AtBoth(buf, pos, FrameBytes(f), FramesBytes(rest));
    }
  }

  lemma CommandParts(buf: seq<byte>) returns (line: seq<byte>, fs: seq<Frame>)
    requires ParseCommand(buf).Command?
    ensures StartsWith(buf, line, fs) && Datas(fs) == [ParseCommand(buf).name] + ParseCommand(buf).args
  {
    hide ReadLine, ParseUsize, ParseBulk, ParseItems, FrameBytes, Accepted;
    var lineEnd := ReadLine(buf, 1).value;
    line := buf[1..lineEnd - 2];
    var f := ParsedFrame(buf, lineEnd);
    var next := lineEnd + |FrameBytes(f)|;
    var rest := ParsedFrames(buf, next, ParseUsize(line).value - 1);
    fs := [f] + rest;
    assert fs[1..] == rest;
    AtBoth(buf, lineEnd, FrameBytes(f), FramesBytes(rest));
    CommandFrom(buf, line, fs);
  }

  lemma CommandFrom(buf: seq<byte>, line: seq<byte>, fs: seq<Frame>)
    requires At(buf, 0, [STAR]) && At(buf, 1, line) && LineEnd(buf, 1 + |line|)
    requires At(buf, 1 + |line| + 2, FramesBytes(fs))
    ensures At(buf, 0, [STAR] + (line + (CRLF + FramesBytes(fs))))
  {
    hide At, LineEnd;
    AtLineEnd(buf, 1 + |line|);
    AtBoth(buf, 1 + |line|, CRLF, FramesBytes(fs));
    AtBoth(buf, 1, line, CRLF + FramesBytes(fs));
    AtBoth(buf, 0, [STAR], line + (CRLF + FramesBytes(fs)));
  }

  /** A command is read from a buffer if and only if the buffer starts with one, and then it is that one;
      what follows does not matter. */
  lemma CommandIff(buf: seq<byte>, name: seq<byte>, args: seq<seq<byte>>)
    requires |buf| <= I64_MAX && (|args| + 1) * SLICE_SIZE <= I64_MAX
    ensures ParseCommand(buf) == Command(name, args) <==>
            exists line, fs :: StartsWith(buf, line, fs) && Datas(fs) == [name] + args
  {
    hide ParseCommand, StartsWith, Datas;
    if ParseCommand(buf) == Command(name, args) {
      var line, fs := CommandParts(buf);
    }
    if line, fs :| StartsWith(buf, line, fs) && Datas(fs) == [name] + args {
      CommandUnique(buf, line, fs, name, args);
    }
  }

  lemma CommandUnique(buf: seq<byte>, line: seq<byte>, fs: seq<Frame>, name: seq<byte>, args: seq<seq<byte>>)
    requires |buf| <= I64_MAX && (|args| + 1) * SLICE_SIZE <= I64_MAX
    requires StartsWith(buf, line, fs) && Datas(fs) == [name] + args
    ensures ParseCommand(buf) == Command(name, args)
  {
    hide ParseCommand, AllAccepted, FramesBytes, At, ParseUsize;
    CommandAt(buf, line, fs);
    assert Datas(fs) == [fs[0].data] + Datas(fs[1..]);
    assert Datas(fs[1..]) == Datas(fs)[1..] == args && fs[0].data == Datas(fs)[0] == name;
  }

  /** Anything that does not start with a star is no command at all. */
  lemma NoCommandIff(buf: seq<byte>)
    ensures ParseCommand(buf).NoCommand? <==> |buf| == 0 || buf[0] != 42
  {
    hide ReadLine, ParseUsize, ParseBulk, ParseItems;
  }
}
