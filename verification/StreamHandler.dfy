/** XADD as the program runs it: on the stream objects the keyspace holds. */
module StreamHandler {
  import opened Bytes
  import opened Conservation
  import History
  import opened Keyspace
  import opened Server
  import opened StreamId
  import ListpackCodec
  import StreamSpec
  import opened Stream

  /** Exactly the keys that hold a stream have an object; it stores the stream's chunks, and no two
      objects share memory. */
  ghost predicate Mirrors(db: DB, streams: map<Key, Stream>)
    reads set k | k in streams :: streams[k]
    reads set k, o | k in streams && o in streams[k].Repr :: o
  {
    && (forall k :: k in streams <==> k in db && db[k].value.VStream?)
    && (forall k :: k in streams ==> streams[k].Valid() && db[k].value.chunks == streams[k].chunks)
    && (forall j, k :: j in streams && k in streams && j != k ==> streams[j].Repr !! streams[k].Repr)
  }

  lemma LastIdIsTop(s: Stream)
    requires s.Valid()
    ensures StreamSpec.GoodChunks(s.chunks) && StreamSpec.AllStored(s.chunks)
    ensures TopId(s.chunks) == if s.lastId.Some? then s.lastId.value else StreamID(0, 0)
  {
    hide StreamNode.Holds, Indexes, StreamSpec.Fits;
  }

  /** The part of the handler both branches share: parse against the stream's last ID, then add. */
  method AddTo(s: Stream, key: Key, idText: seq<byte>, kv: seq<seq<byte>>, clock: u64, ghost db: DB)
    returns (reply: Reply)
    requires s.Valid() && s.chunks == StreamAt(db, key)
    requires idText != ZERO_ID && |kv| % 2 == 0 && !AddEntry(db, key, idText, kv, clock).Crashes?
    modifies s.Repr
    ensures s.Valid() && fresh(s.Repr - old(s.Repr))
    ensures var out := AddEntry(db, key, idText, kv, clock);
            && out.Done? && reply == out.reply
            && (if reply.AddedId? then
                  key in out.db && out.db == db[key := out.db[key]] && out.db[key].value == VStream(s.chunks)
                else unchanged(old(s.Repr)) && out.db == db)
  {
    LastIdIsTop(s);
    hide Parse, Pairs, StreamSpec.Add, StreamSpec.GoodChunks, StreamSpec.AllStored, TopId, Stream.Valid;
    var last := if s.lastId.Some? then s.lastId.value else StreamID(0, 0);
    var parsed := Parse(idText, last, clock);
    match parsed
    case BadId => return Failed(BadStreamId);
    case BadInteger => return Failed(BadNumber);
    case TooSmall => return Failed(IdTooSmall);
    case Good(id) =>
      var added := s.Add(id, Pairs(kv));
      if !added {
        return Failed(IdTooSmall);
      }
      return AddedId(key, id);
  }

  lemma OwnsItself(s: Stream)
    requires s.Valid()
    ensures s in s.Repr
  {
  }

  lemma Refused(db: DB, key: Key, idText: seq<byte>, kv: seq<seq<byte>>, clock: u64)
    ensures idText == ZERO_ID ==> AddEntry(db, key, idText, kv, clock) == Done(db, Failed(ZeroId))
    ensures idText != ZERO_ID && |kv| % 2 != 0 ==>
              AddEntry(db, key, idText, kv, clock) == Done(db, Failed(WrongArgCount))
  {
  }

  /** A key with a stream has its object changed in place, any other key gets a new one. The reply and
      the stored chunks are those of the keyspace model, and no other stream is touched. */
  method XAdd(streams: map<Key, Stream>, key: Key, idText: seq<byte>, kv: seq<seq<byte>>, clock: u64, ghost db: DB)
    returns (reply: Reply, streams': map<Key, Stream>)
    requires Mirrors(db, streams) && !AddEntry(db, key, idText, kv, clock).Crashes?
    modifies if key in streams then streams[key].Repr else {}
    ensures var out := AddEntry(db, key, idText, kv, clock);
            out.Done? && reply == out.reply && Mirrors(out.db, streams')
    ensures streams' == streams || (key !in streams && key in streams' && streams' == streams[key := streams'[key]]
                                    && fresh(streams'[key].Repr))
    ensures key in streams ==> fresh(streams[key].Repr - old(streams[key].Repr))
  {
    hide AddEntry, Stream.Valid, StreamSpec.GoodChunks;
    Refused(db, key, idText, kv, clock);
    streams' := streams;
    if idText == ZERO_ID {
      return Failed(ZeroId), streams;
    }
    if |kv| % 2 != 0 {
      return Failed(WrongArgCount), streams;
    }
    if key in streams {
      reply := XAddHeld(streams, key, idText, kv, clock, db);
    } else {
      reply, streams' := XAddNew(streams, key, idText, kv, clock, db);
    }
  }

  /** The branch for a key that holds a stream. */
  method XAddHeld(streams: map<Key, Stream>, key: Key, idText: seq<byte>, kv: seq<seq<byte>>, clock: u64, ghost db: DB)
    returns (reply: Reply)
    requires Mirrors(db, streams) && !AddEntry(db, key, idText, kv, clock).Crashes?
    requires idText != ZERO_ID && |kv| % 2 == 0 && key in streams
    modifies streams[key].Repr
    ensures var out := AddEntry(db, key, idText, kv, clock);
            out.Done? && reply == out.reply && Mirrors(out.db, streams)
    ensures fresh(streams[key].Repr - old(streams[key].Repr))
  {
    hide AddEntry, Stream.Valid, StreamSpec.GoodChunks;
    forall k | k in streams ensures streams[k] in streams[k].Repr {
      OwnsItself(streams[k]);
    }
    reply := AddTo(streams[key], key, idText, kv, clock, db);
    assert forall k :: k in streams && k != key ==> streams[k].Valid();
  }

  /** The branch for a key that does not: a new object, kept only when the record is accepted. */
  method XAddNew(streams: map<Key, Stream>, key: Key, idText: seq<byte>, kv: seq<seq<byte>>, clock: u64, ghost db: DB)
    returns (reply: Reply, streams': map<Key, Stream>)
    requires Mirrors(db, streams) && !AddEntry(db, key, idText, kv, clock).Crashes?
    requires idText != ZERO_ID && |kv| % 2 == 0 && key !in streams
    ensures var out := AddEntry(db, key, idText, kv, clock);
            out.Done? && reply == out.reply && Mirrors(out.db, streams')
    ensures streams' == streams || (key in streams' && streams' == streams[key := streams'[key]]
                                    && fresh(streams'[key].Repr))
  {
    hide AddEntry, Stream.Valid, StreamSpec.GoodChunks;
    streams' := streams;
    var stream := new Stream();
    reply := AddTo(stream, key, idText, kv, clock, db);
    if reply.AddedId? {
      streams' := streams[key := stream];
    }
  }

  // ---- every other step ----

  /** The objects of the keys that still hold a stream. */
  function Held(db: DB, streams: map<Key, Stream>): map<Key, Stream>
  {
    map k | k in streams && k in db && db[k].value.VStream? :: streams[k]
  }

  /** Every step but XADD leaves all stream objects as they are, and drops those whose key no longer
      holds a stream. */
  lemma StepKeepsObjects(s: State, ev: Event, now: int, streams: map<Key, Stream>)
    requires Mirrors(s.db, streams) && !RunsXAdd(s, ev) && Step(s, ev, now).Some?
    ensures Mirrors(Step(s, ev, now).value.db, Held(Step(s, ev, now).value.db, streams))
  {
    hide Step, Stream.Valid, StreamSpec.GoodChunks;
    var db := Step(s, ev, now).value.db;
    forall k | k in db && db[k].value.VStream? ensures k in s.db && s.db[k].value == db[k].value {
      StepNoNewStream(s, ev, now, k);
    }
  }

  // ---- whole runs ----

  /** Any run of the server with its streams kept as objects, which XADD changes in place: at the end
      they hold, byte for byte, exactly the streams of the keyspace model. */
  method RunWithObjects(events: seq<(int, Event)>) returns (s: State, streams: map<Key, Stream>)
    requires Run(INITIAL, events).Some?
    ensures Run(INITIAL, events) == Some(s) && Mirrors(s.db, streams)
  {
    hide Step, AddEntry, Stream.Valid, StreamSpec.GoodChunks;
    s := INITIAL;
    streams := map[];
    var rest := events;
    while |rest| > 0
      invariant Run(s, rest) == Run(INITIAL, events)
      invariant Mirrors(s.db, streams) && forall k :: k in streams ==> fresh(streams[k].Repr)
      decreases |rest|
    {
      var (now, ev) := rest[0];
      var s' := Step(s, ev, now).value;
      if RunsXAdd(s, ev) {
        XAddStep(s, ev.tok, ev.cmd, now);
        forall k | k in streams ensures streams[k] in streams[k].Repr {
          OwnsItself(streams[k]);
        }
        var _, streams' := XAdd(streams, ev.cmd.key, ev.cmd.idText, ev.cmd.kv, ev.cmd.clock, s.db);
        streams := streams';
      } else {
        StepKeepsObjects(s, ev, now, streams);
        streams := Held(s'.db, streams);
      }
      s := s';
      rest := rest[1..];
    }
  }

  /** Any run from the empty server in which a key stays a stream, then a lookup in that stream's object,
      through index, tree and bytes: what is found under an ID are exactly the fields of the XADD that
      reported it, and every reported ID is found unless one of them is textual. */
  method RunThenLookUp(events: seq<(int, Event)>, key: Key, id: StreamID)
    returns (found: Option<seq<ListpackCodec.Elem>>)
    requires Run(INITIAL, events).Some? && AllStreamOnly(events, key)
    ensures var added := History.RecordsAdded(INITIAL, events, key);
            && (found.Some? ==>
                  exists k :: 0 <= k < |added| && added[k].id == id
                              && StreamSpec.ShownAll(found.value) == StreamSpec.Flat(added[k].fields))
            && (StreamSpec.NoneTextual(added) ==> forall k :: 0 <= k < |added| && added[k].id == id ==> found.Some?)
  {
    hide Run, Stream.Valid, StreamSpec.GoodChunks, StreamSpec.GetIn, History.RecordsAdded, StreamSpec.NoneTextual;
    hide StreamSpec.Flat, StreamSpec.AllStored;
    var s, streams := RunWithObjects(events);
    InitialInv();
    History.XAddThenRead(INITIAL, events, key);
    if key in streams {
      found := streams[key].Get(id);
    } else {
      NothingIn(id);
      found := None;
    }
  }

  lemma NothingIn(id: StreamID)
    ensures StreamSpec.AllStored([]) && StreamSpec.GetIn([], id) == None
  {
  }
}
