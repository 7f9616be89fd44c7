/** The keyspace: typed values with optional expiry, and what each command does to it. */
module Keyspace {
  import opened Bytes
  import opened Decimal
  import opened StreamId
  import opened StreamSpec
  import Resp

  type Key = seq<byte>
  type Item = seq<byte>

  /** Streams are kept by their chunks; module Stream ties these to the tree of listpacks. */
  type Chunks = c: seq<Chunk> | GoodChunks(c) ghost witness []

  datatype Value = VString(text: seq<byte>) | VList(items: seq<Item>) | VStream(chunks: Chunks)

  datatype Entry = Entry(value: Value, expiry: Option<int>)

  type DB = map<Key, Entry>

  datatype Failure = WrongType | WrongArgCount | ZeroId | BadStreamId | BadNumber | IdTooSmall

  /** Replies that hand out list items or report an added record also name the key, which is not printed
      except by Handed. */
  datatype Reply =
    | Fine
    | Nil
    | NilArray
    | Count(n: nat)
    | Text(text: seq<byte>)
    | Popped(key: Key, item: Item)
    | PoppedMany(key: Key, items: seq<Item>)
    | Handed(key: Key, item: Item)
    | AddedId(key: Key, id: StreamID)
    | Failed(failure: Failure)

  datatype Command =
    | Set(key: Key, text: seq<byte>, ttl: Option<nat>)
    | Get(key: Key)
    | RPush(key: Key, values: seq<Item>)
    | LPush(key: Key, values: seq<Item>)
    | LPop(key: Key, count: nat)
    | BLPop(key: Key, timeout: Option<nat>)
    | XAdd(key: Key, idText: seq<byte>, kv: seq<seq<byte>>, clock: u64)

  datatype Outcome = Done(db: DB, reply: Reply) | Blocks | Crashes

  /** An entry is past its time from its expiry instant on. */
  predicate Expired(e: Entry, now: int)
  {
    e.expiry.Some? && e.expiry.value <= now
  }

  function Reverse(items: seq<Item>): (r: seq<Item>)
    ensures |r| == |items| && forall i :: 0 <= i < |items| ==> r[i] == items[|items| - 1 - i]
  {
    if |items| == 0 then [] else Reverse(items[1..]) + [items[0]]
  }

  /** Pushing onto an existing list keeps its entry; anything else is replaced by a new list. */
  function Push(db: DB, key: Key, values: seq<Item>, front: bool): Outcome
  {
    if |values| == 0 then Done(db, Failed(WrongArgCount))
    else
      var held := ListAt(db, key);
      var items := if front then Reverse(values) + held else held + values;
      var expiry := if key in db && db[key].value.VList? then db[key].expiry else None;
      Done(db[key := Entry(VList(items), expiry)], Count(|items|))
  }

  function ListAt(db: DB, key: Key): seq<Item>
  {
    if key in db && db[key].value.VList? then db[key].value.items else []
  }

  function SetList(db: DB, key: Key, items: seq<Item>): DB
    requires key in db
  {
    db[key := db[key].(value := VList(items))]
  }

  function Pop(db: DB, key: Key, count: nat): Outcome
  {
    if key !in db then Done(db, Nil)
    else if !db[key].value.VList? then Done(db, Failed(WrongType))
    else
      var items := db[key].value.items;
      if |items| == 0 then Done(db, Nil)
      else if count == 1 then Done(SetList(db, key, items[1..]), Popped(key, items[0]))
      else
        var n := if count < |items| then count else |items|;
        Done(SetList(db, key, items[n..]), PoppedMany(key, items[..n]))
  }

  function BlockingPop(db: DB, key: Key): Outcome
  {
    var items := ListAt(db, key);
    if |items| > 0 then Done(SetList(db, key, items[1..]), Handed(key, items[0])) else Blocks
  }

  function GetText(db: DB, key: Key, now: int): Outcome
  {
    if key !in db then Done(db, Nil)
    else if Expired(db[key], now) then Done(db - {key}, Nil)
    else if db[key].value.VString? then Done(db, Text(db[key].value.text))
    else Done(db, Failed(WrongType))
  }

  function Pairs(kv: seq<seq<byte>>): Fields
  {
    if |kv| < 2 then [] else [(kv[0], kv[1])] + Pairs(kv[2..])
  }

  function StreamAt(db: DB, key: Key): (c: Chunks)
  {
    if key in db && db[key].value.VStream? then db[key].value.chunks else []
  }

  /** The last ID of a stream, 0-0 when it has none. */
  function TopId(chunks: Chunks): StreamID
  {
    if |chunks| == 0 then StreamID(0, 0)
    else
      assert Stored(chunks[|chunks| - 1]);
      Last(chunks[|chunks| - 1])
  }

  const ZERO_ID: seq<byte> := [48, 45, 48]  // b"0-0"

  function AddEntry(db: DB, key: Key, idText: seq<byte>, kv: seq<seq<byte>>, clock: u64): Outcome
  {
    if idText == ZERO_ID then Done(db, Failed(ZeroId))
    else if |kv| % 2 != 0 then Done(db, Failed(WrongArgCount))
    else
      var chunks := StreamAt(db, key);
      match Parse(idText, TopId(chunks), clock)
      case BadId => Done(db, Failed(BadStreamId))
      case BadInteger => Done(db, Failed(BadNumber))
      case TooSmall => Done(db, Failed(IdTooSmall))
      case Overflows => Crashes
      case Good(id) => AddRecord(db, key, Record(id, Pairs(kv)))
  }

  /** A rejected record leaves the keyspace alone; a stored one extends the stream in place or
      replaces whatever else the key held by a new stream without expiry. */
  function AddRecord(db: DB, key: Key, r: Record): Outcome
  {
    var chunks := StreamAt(db, key);
    match StreamSpec.Add(chunks, r)
    case Rejected => Done(db, Failed(IdTooSmall))
    case Panics => Crashes
    case Added(chunks') =>
      AddGood(chunks, r);
      var expiry := if key in db && db[key].value.VStream? then db[key].expiry else None;
      Done(db[key := Entry(VStream(chunks'), expiry)], AddedId(key, r.id))
  }

  function Exec(db: DB, cmd: Command, now: int): Outcome
  {
    match cmd
    case Set(key, text, ttl) => Done(db[key := Entry(VString(text), ExpiryAt(ttl, now))], Fine)
    case Get(key) => GetText(db, key, now)
    case RPush(key, values) => Push(db, key, values, false)
    case LPush(key, values) => Push(db, key, values, true)
    case LPop(key, count) => Pop(db, key, count)
    case BLPop(key, _) => BlockingPop(db, key)
    case XAdd(key, idText, kv, clock) => AddEntry(db, key, idText, kv, clock)
  }

  function ExpiryAt(ttl: Option<nat>, now: int): Option<int>
  {
    if ttl.Some? then Some(now + ttl.value) else None
  }

  // ---- the bytes of a reply ----

  function CrLf(s: seq<byte>): seq<byte>
  {
    s + Resp.CRLF
  }

  /** What is written to the socket, for the replies other than errors. */
  function ReplyBytes(r: Reply): seq<byte>
    requires !r.Failed?
  {
    match r
    case Fine => CrLf([43, 79, 75])
    case Nil => CrLf([36, 45, 49])
    case NilArray => CrLf([42, 45, 49])
    case Count(n) => CrLf([58] + Digits(n))
    case Text(text) => Resp.Bulk(text)
    case Popped(_, item) => Resp.Bulk(item)
    case PoppedMany(_, items) => Resp.PrintArray(items)
    case Handed(key, item) => Resp.PrintArray([key, item])
    case AddedId(_, id) => Resp.Bulk(IdText(id))
  }

  /** A reply that hands an item to a blocked client, read as a command, is the key and the item. */
  lemma HandedParses(key: Key, item: Item, post: seq<byte>)
    requires |ReplyBytes(Handed(key, item))| + |post| <= I64_MAX
    ensures Resp.ParseCommand(ReplyBytes(Handed(key, item)) + post) == Resp.Command(key, [item])
  {
    Resp.ArrayParses([key, item], post);
    assert [key, item][1..] == [item];
  }
}
