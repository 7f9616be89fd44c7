/** What XADD leaves in a stream: every accepted record, in order, with the fields of its request. */
module History {
  import opened Bytes
  import opened Heap
  import opened Conservation
  import ListpackCodec
  import opened Keyspace
  import opened Server
  import opened StreamId
  import opened StreamSpec

  /** The fields of a record are the arguments of its request, in their order. */
  lemma {:induction false} FlatPairs(kv: seq<seq<byte>>)
    requires |kv| % 2 == 0
    ensures Flat(Pairs(kv)) == kv
  {
    if |kv| == 0 {
    } else {
      FlatPairs(kv[2..]);
      assert Pairs(kv)[1..] == Pairs(kv[2..]);
      assert kv == [kv[0], kv[1]] + kv[2..];
    }
  }

  lemma AddRecordAdds(db: DB, key: Key, r: Record)
    requires AddRecord(db, key, r).Done? && AddRecord(db, key, r).reply.AddedId?
    ensures StreamSpec.Add(StreamAt(db, key), r) == Added(StreamAt(AddRecord(db, key, r).db, key))
    ensures AddRecord(db, key, r).reply == AddedId(key, r.id)
  {
    hide GoodChunks, Stored, StreamSpec.Add;
  }

  /** An accepted XADD adds one record at the end, under the ID it reports and with the request's fields. */
  lemma XAddStores(db: DB, key: Key, idText: seq<byte>, kv: seq<seq<byte>>, clock: u64)
    requires AddEntry(db, key, idText, kv, clock).Done? && AddEntry(db, key, idText, kv, clock).reply.AddedId?
    ensures var out := AddEntry(db, key, idText, kv, clock);
            |kv| % 2 == 0 && Flat(Pairs(kv)) == kv
            && Log(StreamAt(out.db, key)) == Log(StreamAt(db, key)) + [Record(out.reply.id, Pairs(kv))]
    ensures var out := AddEntry(db, key, idText, kv, clock);
            StreamSpec.Add(StreamAt(db, key), Record(out.reply.id, Pairs(kv))) == Added(StreamAt(out.db, key))
  {
    hide AddEntry, AddRecord, StreamSpec.Add, Log, Pairs, Flat, GoodChunks, Stored;
    var before := StreamAt(db, key);
    var r := Record(AddEntry(db, key, idText, kv, clock).reply.id, Pairs(kv));
    EntryIsRecord(db, key, idText, kv, clock);
    AddRecordAdds(db, key, r);
    FlatPairs(kv);
    GoodStored(before);
    AddLog(before, r);
  }

  lemma EntryIsRecord(db: DB, key: Key, idText: seq<byte>, kv: seq<seq<byte>>, clock: u64)
    requires AddEntry(db, key, idText, kv, clock).Done? && AddEntry(db, key, idText, kv, clock).reply.AddedId?
    ensures var out := AddEntry(db, key, idText, kv, clock);
            |kv| % 2 == 0 && out == AddRecord(db, key, Record(out.reply.id, Pairs(kv)))
  {
    hide Parse, TopId, StreamSpec.Add, Stored, GoodChunks, Pairs;
  }

  /** What looking IDs up gives after an accepted XADD: under the ID it reports the request's fields, if
      and only if neither the ID nor one before it in its chunk is textual; under any other ID what it gave
      before. */
  lemma XAddReadsBack(db: DB, key: Key, idText: seq<byte>, kv: seq<seq<byte>>, clock: u64)
    requires AddEntry(db, key, idText, kv, clock).Done? && AddEntry(db, key, idText, kv, clock).reply.AddedId?
    ensures var out := AddEntry(db, key, idText, kv, clock);
            var found := LookUp(StreamAt(out.db, key), out.reply.id);
            && (found.Some? <==> LastIsClear(StreamAt(out.db, key)))
            && (found.Some? ==> ShownAll(found.value) == kv)
    ensures var out := AddEntry(db, key, idText, kv, clock);
            forall other :: other != out.reply.id ==>
                              LookUp(StreamAt(out.db, key), other) == LookUp(StreamAt(db, key), other)
  {
    hide AddEntry, StreamSpec.Add, GetIn, GoodChunks, Stored, Pairs, Flat;
    XAddStores(db, key, idText, kv, clock);
    var out := AddEntry(db, key, idText, kv, clock);
    var before, after := StreamAt(db, key), StreamAt(out.db, key);
    var r := Record(out.reply.id, Pairs(kv));
    LastFound(before, r);
    forall other | other != r.id ensures LookUp(after, other) == LookUp(before, other) {
      AddKeepsOthersIf(before, r, other);
    }
  }

  function LookUp(chunks: Chunks, id: StreamID): Option<seq<ListpackCodec.Elem>>
  {
    GetIn(chunks, id)
  }

  /** No ID of the last chunk is textual. */
  ghost predicate LastIsClear(chunks: seq<Chunk>)
  {
    |chunks| > 0 && NoneTextual(chunks[|chunks| - 1])
  }

  lemma LastFound(chunks: seq<Chunk>, r: Record)
    requires GoodChunks(chunks) && StreamSpec.Add(chunks, r).Added?
    ensures var after := StreamSpec.Add(chunks, r).chunks;
            && GoodChunks(after) && AllStored(after)
            && (GetIn(after, r.id).Some? <==> LastIsClear(after))
            && (GetIn(after, r.id).Some? ==> ShownAll(GetIn(after, r.id).value) == Flat(r.fields))
  {
    hide StreamSpec.Add, Maximal, Bounded, Stored, GetIn, Textual;
    AddGood(chunks, r);
    LastRecord(chunks, r);
    var after := StreamSpec.Add(chunks, r).chunks;
    GetExact(after, |after| - 1, |after[|after| - 1]| - 1);
  }

  lemma AddKeepsOthersIf(chunks: seq<Chunk>, r: Record, target: StreamID)
    requires GoodChunks(chunks) && StreamSpec.Add(chunks, r).Added?
    ensures GoodChunks(StreamSpec.Add(chunks, r).chunks)
    ensures target != r.id ==> GetIn(StreamSpec.Add(chunks, r).chunks, target) == GetIn(chunks, target)
  {
    hide GetIn, StreamSpec.Add, Stored, Maximal, Bounded, Ascend;
    AddGood(chunks, r);
    if target != r.id {
      AddKeepsOthers(chunks, r, target);
    }
  }

  lemma LastRecord(chunks: seq<Chunk>, r: Record)
    requires GoodChunks(chunks) && StreamSpec.Add(chunks, r).Added?
    ensures var after := StreamSpec.Add(chunks, r).chunks;
            |after| > 0 && |after[|after| - 1]| > 0 && after[|after| - 1][|after[|after| - 1]| - 1] == r
  {
    hide Fits, Elems, RecordElems, CanAppend, Ascend, Maximal, Bounded;
  }

  /** When XADD fails, and how: in the order of its checks, on the literal text 0-0, on fields not in pairs,
      on a text that is no ID, and on an ID not above the last one. What remains is a bad number. */
  lemma XAddFails(db: DB, key: Key, idText: seq<byte>, kv: seq<seq<byte>>, clock: u64)
    requires AddEntry(db, key, idText, kv, clock).Done?
    ensures var reply := AddEntry(db, key, idText, kv, clock).reply;
            var chunks := StreamAt(db, key);
            var paired := idText != [48, 45, 48] && |kv| % 2 == 0;
            var parsed := Parse(idText, TopId(chunks), clock);
            && (reply.AddedId? || reply.Failed?)
            && (reply == Failed(ZeroId) <==> idText == [48, 45, 48])
            && (reply == Failed(WrongArgCount) <==> idText != [48, 45, 48] && |kv| % 2 != 0)
            && (reply == Failed(BadStreamId) <==> paired && DASH !in idText && idText != [STAR])
            && (reply == Failed(IdTooSmall) <==>
                  paired && (parsed.TooSmall? || (parsed.Good? && chunks != [] && !Less(TopId(chunks), parsed.value))))
            && (reply.AddedId? <==> paired && parsed.Good? && (chunks == [] || Less(TopId(chunks), parsed.value)))
            && (reply.Failed? ==> reply.failure != WrongType)
  {
    hide Parse, Pairs, TopId, AddRecord, StreamSpec.GoodChunks;
    var chunks := StreamAt(db, key);
    NotAnId(idText, TopId(chunks), clock);
    var parsed := Parse(idText, TopId(chunks), clock);
    if idText != ZERO_ID && |kv| % 2 == 0 && parsed.Good? {
      AddRecordFails(db, key, Record(parsed.value, Pairs(kv)));
    }
  }

  lemma NotAnId(text: seq<byte>, last: StreamID, clock: u64)
    ensures Parse(text, last, clock).BadId? <==> DASH !in text && text != [STAR]
  {
    hide ParseU64;
    if DASH !in text {
      ParseStar(text, last, clock);
    } else {
      var dash := FirstDash(text).value;
      assert text == text[..dash] + [DASH] + text[dash + 1..];
      ParseParts(text[..dash], text[dash + 1..], last, clock);
    }
  }

  lemma AddRecordFails(db: DB, key: Key, r: Record)
    requires AddRecord(db, key, r).Done?
    ensures var reply := AddRecord(db, key, r).reply;
            var chunks := StreamAt(db, key);
            if chunks == [] || Less(TopId(chunks), r.id) then reply == AddedId(key, r.id)
            else reply == Failed(IdTooSmall)
  {
    hide Stored, StreamSpec.Add, Maximal, Bounded, Ascend;
    GoodStored(StreamAt(db, key));
    hide Log;
    AddLog(StreamAt(db, key), r);
  }

  // ---- whole runs ----

  /** The record this step adds to the key's stream. */
  function RecordAdded(s: State, ev: Event, now: int, key: Key): seq<Record>
  {
    if !RunsXAdd(s, ev) || ev.cmd.key != key then []
    else
      var out := Exec(s.db, ev.cmd, now);
      if out.Done? && out.reply.AddedId? then [Record(out.reply.id, Pairs(ev.cmd.kv))] else []
  }

  function RecordsAdded(s: State, events: seq<(int, Event)>, key: Key): seq<Record>
    decreases events
  {
    if |events| == 0 then []
    else
      var (now, ev) := events[0];
      match Step(s, ev, now)
      case None => []
      case Some(s') => RecordAdded(s, ev, now, key) + RecordsAdded(s', events[1..], key)
  }

  lemma ExecLog(db: DB, cmd: Command, now: int, key: Key)
    requires OnlyStringsExpire(db) && StreamOrAbsent(db, key) && Exec(db, cmd, now).Done?
    requires cmd.key == key ==> !cmd.Set? && !cmd.RPush? && !cmd.LPush?
    ensures var out := Exec(db, cmd, now);
            && StreamOrAbsent(out.db, key)
            && Log(StreamAt(out.db, key)) == Log(StreamAt(db, key))
               + if cmd.XAdd? && cmd.key == key && out.reply.AddedId? then [Record(out.reply.id, Pairs(cmd.kv))] else []
  {
    hide AddEntry, Reverse, TopId, GoodChunks, Log, GetIn, Flat;
    ExecTop(db, cmd, now, key);
    var log := Log(StreamAt(db, key));
    assert log + [] == log;
    if cmd.XAdd? && cmd.key == key && Exec(db, cmd, now).reply.AddedId? {
      XAddStores(db, key, cmd.idText, cmd.kv, cmd.clock);
    } else if cmd.XAdd? {
      XAddEffect(db, cmd.key, cmd.idText, cmd.kv, cmd.clock);
    }
  }

  lemma StepLog(s: State, ev: Event, now: int, key: Key)
    requires Inv(s) && StreamOrAbsent(s.db, key) && StreamOnly(ev, key) && Step(s, ev, now).Some?
    ensures var s' := Step(s, ev, now).value;
            && StreamOrAbsent(s'.db, key)
            && Log(StreamAt(s'.db, key)) == Log(StreamAt(s.db, key)) + RecordAdded(s, ev, now, key)
  {
    hide Exec, WakeClient, PushHeap, GoodChunks, Log, StreamAt, StreamOrAbsent, OnlyStringsExpire;
    var s' := Step(s, ev, now).value;
    var log := Log(StreamAt(s.db, key));
    assert log + [] == log;
    if Runs(s, ev) {
      var out := Exec(s.db, ev.cmd, now);
      if out.Done? {
        ExecLog(s.db, ev.cmd, now, key);
        WakeKeepsStream(WrittenReply(s, ev.tok, ev.cmd, out.db, out.reply, now), ev.cmd.key, key);
      }
    } else {
      OtherStreams(s, ev, now, key);
    }
  }

  lemma OtherStreams(s: State, ev: Event, now: int, key: Key)
    requires Inv(s) && StreamOrAbsent(s.db, key) && !Runs(s, ev)
    ensures Step(s, ev, now).Some?
    ensures StreamOrAbsent(Step(s, ev, now).value.db, key)
    ensures StreamAt(Step(s, ev, now).value.db, key) == StreamAt(s.db, key)
  {
    hide Step, GoodChunks, Inv;
    OtherSteps(s, ev, now, key);
  }

  /** Over any run in which a key stays a stream, no record is lost, changed or moved, and exactly the
      accepted ones are added at the end, with the fields of their requests. */
  lemma {:induction false} RunHistory(s: State, events: seq<(int, Event)>, key: Key)
    requires Inv(s) && StreamOrAbsent(s.db, key) && AllStreamOnly(events, key) && Server.Run(s, events).Some?
    ensures var s' := Server.Run(s, events).value;
            Log(StreamAt(s'.db, key)) == Log(StreamAt(s.db, key)) + RecordsAdded(s, events, key)
    decreases events
  {
    hide Step, Inv, StreamOrAbsent, StreamOnly, Log, StreamAt, RecordAdded;
    if |events| == 0 {
      assert Log(StreamAt(s.db, key)) + [] == Log(StreamAt(s.db, key));
    } else {
      var (now, ev) := events[0];
      assert StreamOnly(ev, key);
      var s1 := Step(s, ev, now).value;
      StepInv(s, ev, now);
      StepLog(s, ev, now, key);
      RunHistory(s1, events[1..], key);
      var log, one, more := Log(StreamAt(s.db, key)), RecordAdded(s, ev, now, key), RecordsAdded(s1, events[1..], key);
      assert (log + one) + more == log + (one + more);
    }
  }

  /** So a key that starts without records and stays a stream is a map from reported IDs to the fields of
      their requests: all are found, with exactly these fields, if and only if none of the IDs is textual. */
  lemma XAddThenRead(s: State, events: seq<(int, Event)>, key: Key)
    requires Inv(s) && StreamOrAbsent(s.db, key) && StreamAt(s.db, key) == []
    requires AllStreamOnly(events, key) && Server.Run(s, events).Some?
    ensures var chunks, added := StreamAt(Server.Run(s, events).value.db, key), RecordsAdded(s, events, key);
            && AllStored(chunks)
            && ((forall k :: 0 <= k < |added| ==> GetIn(chunks, added[k].id).Some?) <==> NoneTextual(added))
            && (forall k :: 0 <= k < |added| && GetIn(chunks, added[k].id).Some? ==>
                              ShownAll(GetIn(chunks, added[k].id).value) == Flat(added[k].fields))
            && (forall id :: (forall k :: 0 <= k < |added| ==> added[k].id != id) ==> GetIn(chunks, id) == None)
  {
    hide Server.Run, Inv, GetIn, Textual, Flat, RecordsAdded;
    var chunks, added := StreamAt(Server.Run(s, events).value.db, key), RecordsAdded(s, events, key);
    RunHistory(s, events, key);
    assert Log(chunks) == added;
    GoodStored(chunks);
    ChunksAreMap(chunks);
    forall id | forall k :: 0 <= k < |added| ==> added[k].id != id ensures GetIn(chunks, id) == None {
      if Holds(chunks, id) {
        var i, j :| 0 <= i < |chunks| && 0 <= j < |chunks[i]| && chunks[i][j].id == id;
        MemberLog(chunks, i, j);
      }
      GetAbsent(chunks, id);
    }
  }
}
