/** What a client reads from the bytes of a reply. */
module Wire {
  import opened Bytes
  import opened Decimal
  import opened Keyspace
  import opened StreamId
  import Resp

  /** What a reply of one bulk string carries. */
  function Content(r: Reply): seq<byte>
    requires r.Text? || r.Popped? || r.AddedId?
  {
    match r
    case Text(text) => text
    case Popped(_, item) => item
    case AddedId(_, id) => IdText(id)
  }

  /** Text, a popped item and a new ID are read back as they were, whatever bytes they hold and whatever
      follows; and the ID's text names the ID. */
  lemma BulkReplyReads(r: Reply, post: seq<byte>, last: StreamID, now: u64)
    requires r.Text? || r.Popped? || r.AddedId?
    requires |ReplyBytes(r)| + |post| <= I64_MAX
    ensures Resp.ParseBulk(ReplyBytes(r) + post, 0) == Resp.Item(Content(r), |ReplyBytes(r)|)
    ensures r.Text? ==> Content(r) == r.text
    ensures r.Popped? ==> Content(r) == r.item
    ensures r.AddedId? ==> Parse(Content(r), last, now) == Good(r.id)
  {
    hide Resp.Bulk, Resp.ParseBulk, IdText, Parse;
    Resp.BulkParses([], Content(r), post);
    assert [] + Resp.Bulk(Content(r)) + post == ReplyBytes(r) + post;
    if r.AddedId? {
      IdTextParses(r.id, last, now);
    }
  }

  /** A length is read back from its line. */
  lemma CountReplyReads(n: nat, post: seq<byte>)
    requires n <= U64_MAX
    ensures var buf := ReplyBytes(Count(n)) + post;
            var end := |ReplyBytes(Count(n))|;
            buf[0] == 58 && Resp.ReadLine(buf, 1) == Some(end) && Resp.ParseUsize(buf[1..end - 2]) == Some(n)
  {
    hide Digits, Resp.ReadLine, Resp.ParseUsize;
    Resp.HeaderLine([58], n, post);
    assert [58] + Digits(n) + Resp.CRLF + post == ReplyBytes(Count(n)) + post;
  }

  /** Several popped items are read back as the array of these items. */
  lemma ArrayReplyReads(key: Key, items: seq<Item>, post: seq<byte>)
    requires |items| * 16 <= I64_MAX && |ReplyBytes(PoppedMany(key, items))| + |post| <= I64_MAX
    ensures var bytes := ReplyBytes(PoppedMany(key, items));
            if |items| == 0 then bytes == [42, 48, 13, 10]
            else Resp.ParseCommand(bytes + post) == Resp.Command(items[0], items[1..])
  {
    hide Resp.ParseCommand, Resp.Bulk;
    if |items| > 0 {
      Resp.ArrayParses(items, post);
    }
  }

  /** The replies without content: +OK, $-1 and *-1, each on a line. */
  lemma FixedReplies()
    ensures ReplyBytes(Fine) == [43, 79, 75, 13, 10]
    ensures ReplyBytes(Nil) == [36, 45, 49, 13, 10]
    ensures ReplyBytes(NilArray) == [42, 45, 49, 13, 10]
  {
  }

  lemma BulkOfOne(c: byte)
    ensures Resp.Bulk([c]) == [36, 49, 13, 10, c, 13, 10]
  {
  }

  lemma BulksOfTwo(a: seq<byte>, b: seq<byte>)
    ensures Resp.Bulks([a, b]) == Resp.Bulk(a) + Resp.Bulk(b)
  {
    hide Resp.Bulk;
    assert [a, b][1..] == [b];
    assert Resp.Bulks([b]) == Resp.Bulk(b) + Resp.Bulks([]);
  }

  /** Byte by byte: the item "b" of the list "a", handed to a client that waited. */
  lemma HandedExample()
    ensures ReplyBytes(Handed([97], [98])) ==
            [42, 50, 13, 10, 36, 49, 13, 10, 97, 13, 10, 36, 49, 13, 10, 98, 13, 10]
  {
    hide Resp.Bulk, Resp.Bulks;
    BulkOfOne(97);
    BulkOfOne(98);
    BulksOfTwo([97], [98]);
    assert Resp.ArrayHeader(2) == [42, 50, 13, 10];
  }

  /** And the ID 1-2, reported by XADD. */
  lemma AddedIdExample(key: Key)
    ensures ReplyBytes(AddedId(key, StreamID(1, 2))) == [36, 51, 13, 10, 49, 45, 50, 13, 10]
  {
    assert IdText(StreamID(1, 2)) == [49, 45, 50];
    assert Digits(3) == [51];
  }
}
