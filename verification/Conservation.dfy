/** What whole runs keep: list items are neither lost nor made up, and stream IDs only grow. */
module Conservation {
  import opened Bytes
  import opened Decimal
  import opened Heap
  import opened Keyspace
  import opened StreamId
  import opened Server
  import StreamSpec

  // ---- steps as seen from one key ----

  /** The command a connection gets to run in this step. */
  predicate Runs(s: State, ev: Event)
  {
    ev.Request? && ev.tok in s.conns && !s.conns[ev.tok].blocked
  }

  /** Sweeps, timeouts, connections coming and going do not touch a key that holds no string. */
  lemma OtherSteps(s: State, ev: Event, now: int, key: Key)
    requires Inv(s) && !Runs(s, ev)
    ensures Step(s, ev, now).Some?
    ensures var s' := Step(s, ev, now).value;
            && (key in s.db && !s.db[key].value.VString? ==> key in s'.db && s'.db[key] == s.db[key])
            && (key !in s.db ==> key !in s'.db)
            && s.log <= s'.log
            && (forall i :: |s.log| <= i < |s'.log| ==> s'.log[i].1 == NilArray)
  {
    if ev.Sweep? {
      SweepExact(s, now);
    }
    if ev.Timeouts? {
      var n := Due(s.timeouts, now);
      TimeOutLog(s.(timeouts := s.timeouts[n..]), s.timeouts[..n]);
    }
  }

  lemma {:induction false} TimeOutLog(s: State, popped: seq<(int, Token)>)
    ensures var s' := TimeOutAll(s, popped);
            s'.db == s.db && s.log <= s'.log && forall i :: |s.log| <= i < |s'.log| ==> s'.log[i].1 == NilArray
    decreases popped
  {
    if |popped| == 0 {
    } else {
      TimeOutLog(TimeOut(s, popped[0].1), popped[1..]);
    }
  }

  // ---- lists ----

  /** The event does not turn the key into something other than a list. */
  predicate ListOnly(ev: Event, key: Key)
  {
    ev.Request? && ev.cmd.key == key ==> !ev.cmd.Set? && !ev.cmd.XAdd?
  }

  predicate ListOrAbsent(db: DB, key: Key)
  {
    key in db ==> db[key].value.VList?
  }

  /** The items a reply hands out from the key's list, in order. */
  function Delivered(r: Reply, key: Key): seq<Item>
  {
    match r
    case Popped(k, item) => if k == key then [item] else []
    case PoppedMany(k, items) => if k == key then items else []
    case Handed(k, item) => if k == key then [item] else []
    case _ => []
  }

  function AllDelivered(log: seq<(Token, Reply)>, key: Key): seq<Item>
  {
    if |log| == 0 then []
    else AllDelivered(log[..|log| - 1], key) + Delivered(log[|log| - 1].1, key)
  }

  /** The items this step pushes onto the key's list. */
  function PushedBy(s: State, ev: Event, key: Key): seq<Item>
  {
    if !Runs(s, ev) || ev.cmd.key != key then []
    else
      match ev.cmd
      case RPush(_, values) => values
      case LPush(_, values) => values
      case _ => []
  }

  function AllPushed(s: State, events: seq<(int, Event)>, key: Key): seq<Item>
    decreases events
  {
    if |events| == 0 then []
    else
      var (now, ev) := events[0];
      match Step(s, ev, now)
      case None => []
      case Some(s') => PushedBy(s, ev, key) + AllPushed(s', events[1..], key)
  }

  lemma DeliveredSnoc(log: seq<(Token, Reply)>, tok: Token, r: Reply, key: Key)
    ensures AllDelivered(log + [(tok, r)], key) == AllDelivered(log, key) + Delivered(r, key)
  {
    assert (log + [(tok, r)])[..|log|] == log;
  }

  lemma {:induction false} NoneDelivered(log: seq<(Token, Reply)>, longer: seq<(Token, Reply)>, key: Key)
    requires log <= longer && forall i :: |log| <= i < |longer| ==> longer[i].1 == NilArray
    ensures AllDelivered(longer, key) == AllDelivered(log, key)
    decreases longer
  {
    if |log| < |longer| {
      NoneDelivered(log, longer[..|longer| - 1], key);
    } else {
      assert log == longer;
    }
  }

  lemma {:induction false} ReverseSame(items: seq<Item>)
    ensures multiset(Reverse(items)) == multiset(items)
  {
    if |items| == 0 {
    } else {
      ReverseSame(items[1..]);
      assert items == [items[0]] + items[1..];
    }
  }

  lemma PopElsewhere(db: DB, from: Key, count: nat, key: Key)
    requires from != key
    ensures var out := Pop(db, from, count);
            (key in out.db <==> key in db) && (key in db ==> out.db[key] == db[key]) && Delivered(out.reply, key) == []
  {
    hide StreamSpec.GoodChunks;
  }

  /** A pop cuts the list in two: the front is replied, the back stays. */
  lemma PopSplits(db: DB, from: Key, count: nat, key: Key) returns (n: nat)
    requires ListOrAbsent(db, key)
    ensures n <= |ListAt(db, key)|
    ensures var out := Pop(db, from, count);
            && ListOrAbsent(out.db, key)
            && Delivered(out.reply, key) == ListAt(db, key)[..n] && ListAt(out.db, key) == ListAt(db, key)[n..]
  {
    hide StreamSpec.GoodChunks;
    var items := ListAt(db, key);
    if from != key {
      n := 0;
      PopElsewhere(db, from, count, key);
    } else if |items| == 0 {
      n := 0;
    } else if count == 1 {
      n := 1;
      assert items[..1] == [items[0]];
    } else {
      n := if count < |items| then count else |items|;
    }
  }

  lemma PopBalance(db: DB, from: Key, count: nat, key: Key)
    requires ListOrAbsent(db, key)
    ensures var out := Pop(db, from, count);
            ListOrAbsent(out.db, key) && Delivered(out.reply, key) + ListAt(out.db, key) == ListAt(db, key)
  {
    hide Pop;
    var n := PopSplits(db, from, count, key);
    assert ListAt(db, key) == ListAt(db, key)[..n] + ListAt(db, key)[n..];
  }

  lemma BlockingPopBalance(db: DB, from: Key, key: Key)
    requires ListOrAbsent(db, key)
    ensures var out := BlockingPop(db, from);
            out.Done? ==>
              ListOrAbsent(out.db, key) && Delivered(out.reply, key) + ListAt(out.db, key) == ListAt(db, key)
  {
    hide StreamSpec.GoodChunks;
    var items := ListAt(db, key);
    var out := BlockingPop(db, from);
    if from == key && |items| > 0 {
      assert [items[0]] + items[1..] == items;
    } else if out.Done? {
      assert ListAt(out.db, key) == items && Delivered(out.reply, key) == [];
      assert [] + items == items;
    }
  }

  lemma PushBalance(db: DB, onto: Key, values: seq<Item>, front: bool, key: Key)
    requires ListOrAbsent(db, key)
    ensures var out := Push(db, onto, values, front);
            && ListOrAbsent(out.db, key) && Delivered(out.reply, key) == []
            && ListAt(out.db, key) == if onto != key then ListAt(db, key)
                                      else if front then Reverse(values) + ListAt(db, key) else ListAt(db, key) + values
  {
  }

  /** What a command does to the key's list: items pushed come in, items in its reply go out. */
  lemma ExecBalance(db: DB, cmd: Command, now: int, key: Key)
    requires OnlyStringsExpire(db) && ListOrAbsent(db, key) && Exec(db, cmd, now).Done?
    requires cmd.key == key ==> !cmd.Set? && !cmd.XAdd?
    ensures var out := Exec(db, cmd, now);
            var given := Delivered(out.reply, key);
            var items, items' := ListAt(db, key), ListAt(out.db, key);
            && ListOrAbsent(out.db, key)
            && (if cmd.key == key && cmd.RPush? then given == [] && items' == items + cmd.values
                else if cmd.key == key && cmd.LPush? then given == [] && items' == Reverse(cmd.values) + items
                else given + items' == items)
  {
    hide Reverse, AddEntry, Push, Pop, BlockingPop;
    match cmd
    case Set(_, _, _) =>
    case Get(_) =>
    case RPush(onto, values) => PushBalance(db, onto, values, false, key);
    case LPush(onto, values) => PushBalance(db, onto, values, true, key);
    case LPop(from, count) => PopBalance(db, from, count, key);
    case BLPop(from, _) => BlockingPopBalance(db, from, key);
    case XAdd(_, _, _, _) => AddElsewhere(db, cmd, key);
  }

  lemma AddElsewhere(db: DB, cmd: Command, key: Key)
    requires cmd.XAdd? && cmd.key != key && AddEntry(db, cmd.key, cmd.idText, cmd.kv, cmd.clock).Done?
    ensures var out := AddEntry(db, cmd.key, cmd.idText, cmd.kv, cmd.clock);
            && (key in out.db <==> key in db) && (key in db ==> out.db[key] == db[key])
            && Delivered(out.reply, key) == []
  {
    hide StreamSpec.Add, Parse, Pairs, TopId;
  }

  lemma WakeBalance(s: State, woken: Key, key: Key)
    requires ListOrAbsent(s.db, key)
    ensures var s' := WakeClient(s, woken);
            && ListOrAbsent(s'.db, key)
            && AllDelivered(s'.log, key) + ListAt(s'.db, key) == AllDelivered(s.log, key) + ListAt(s.db, key)
  {
    hide AllDelivered, FirstBlocked;
    var s' := WakeClient(s, woken);
    if s'.log != s.log {
      var queue := s.queues[woken];
      var items := ListAt(s.db, woken);
      var w := queue[FirstBlocked(queue, s.conns)];
      DeliveredSnoc(s.log, w, Handed(woken, items[0]), key);
      if woken == key {
        assert items == [items[0]] + items[1..];
      }
    }
  }

  /** The key's list with what a command pushes onto it. */
  function WithPushed(db: DB, cmd: Command, key: Key): seq<Item>
  {
    if cmd.key == key && cmd.RPush? then ListAt(db, key) + cmd.values
    else if cmd.key == key && cmd.LPush? then Reverse(cmd.values) + ListAt(db, key)
    else ListAt(db, key)
  }

  lemma WrittenBalance(s: State, tok: Token, cmd: Command, now: int, key: Key)
    requires OnlyStringsExpire(s.db) && ListOrAbsent(s.db, key) && Exec(s.db, cmd, now).Done?
    requires cmd.key == key ==> !cmd.Set? && !cmd.XAdd?
    ensures var out := Exec(s.db, cmd, now);
            var s1 := WrittenReply(s, tok, cmd, out.db, out.reply, now);
            && ListOrAbsent(s1.db, key)
            && AllDelivered(s1.log, key) + ListAt(s1.db, key) == AllDelivered(s.log, key) + WithPushed(s.db, cmd, key)
  {
    hide AllDelivered, Reverse, Exec, PushHeap, Delivered, ListAt, ListOrAbsent, OnlyStringsExpire;
    var out := Exec(s.db, cmd, now);
    ExecBalance(s.db, cmd, now, key);
    DeliveredSnoc(s.log, tok, out.reply, key);
    var had, given, items := AllDelivered(s.log, key), Delivered(out.reply, key), ListAt(out.db, key);
    assert (had + given) + items == had + (given + items);
    assert [] + items == items;
  }

  lemma ReplyBalance(s: State, tok: Token, cmd: Command, now: int, key: Key)
    requires OnlyStringsExpire(s.db) && ListOrAbsent(s.db, key) && Exec(s.db, cmd, now).Done?
    requires cmd.key == key ==> !cmd.Set? && !cmd.XAdd?
    ensures var out := Exec(s.db, cmd, now);
            var s' := Replied(s, tok, cmd, out.db, out.reply, now);
            && ListOrAbsent(s'.db, key)
            && AllDelivered(s'.log, key) + ListAt(s'.db, key) == AllDelivered(s.log, key) + WithPushed(s.db, cmd, key)
  {
    hide AllDelivered, Exec, WakeClient, WrittenReply, ListAt, ListOrAbsent, OnlyStringsExpire, WithPushed;
    var out := Exec(s.db, cmd, now);
    WrittenBalance(s, tok, cmd, now, key);
    WakeBalance(WrittenReply(s, tok, cmd, out.db, out.reply, now), cmd.key, key);
  }

  /** One step: what has been delivered, followed by what is still in the list, grows by exactly
      what is pushed, at the end for RPUSH and before the list for LPUSH. */
  lemma StepBalance(s: State, ev: Event, now: int, key: Key)
    requires Inv(s) && ListOrAbsent(s.db, key) && ListOnly(ev, key) && Step(s, ev, now).Some?
    ensures var s' := Step(s, ev, now).value;
            var had, has := AllDelivered(s.log, key), AllDelivered(s'.log, key) + ListAt(s'.db, key);
            && ListOrAbsent(s'.db, key)
            && (if Runs(s, ev) && ev.cmd.key == key && ev.cmd.LPush?
                then has == had + (Reverse(ev.cmd.values) + ListAt(s.db, key))
                else has == had + (ListAt(s.db, key) + PushedBy(s, ev, key)))
  {
    hide AllDelivered, Reverse, Exec, Replied;
    if Runs(s, ev) {
      if Exec(s.db, ev.cmd, now).Done? {
        ReplyBalance(s, ev.tok, ev.cmd, now, key);
      } else {
        BlocksOnlyOnBlpop(s.db, ev.cmd, now);
      }
    } else {
      OtherSteps(s, ev, now, key);
      NoneDelivered(s.log, Step(s, ev, now).value.log, key);
    }
    assert ListAt(s.db, key) + [] == ListAt(s.db, key);
  }

  lemma BlocksOnlyOnBlpop(db: DB, cmd: Command, now: int)
    ensures Exec(db, cmd, now).Blocks? ==> cmd.BLPop?
  {
    hide StreamSpec.Add, Parse, Pairs, TopId, Reverse;
  }

  predicate AllListOnly(events: seq<(int, Event)>, key: Key)
  {
    forall i :: 0 <= i < |events| ==> ListOnly(events[i].1, key)
  }

  predicate NoLPush(events: seq<(int, Event)>, key: Key)
  {
    forall i :: 0 <= i < |events| ==> (events[i].1.Request? && events[i].1.cmd.key == key ==> !events[i].1.cmd.LPush?)
  }

  /** Over any run in which the key is not overwritten, the items delivered to clients and the items
      still in the list are together the items that were there and the items pushed. */
  lemma {:induction false} ItemsConserved(s: State, events: seq<(int, Event)>, key: Key)
    requires Inv(s) && ListOrAbsent(s.db, key) && AllListOnly(events, key) && Run(s, events).Some?
    ensures var s' := Run(s, events).value;
            multiset(AllDelivered(s'.log, key)) + multiset(ListAt(s'.db, key)) ==
            multiset(AllDelivered(s.log, key)) + multiset(ListAt(s.db, key)) + multiset(AllPushed(s, events, key))
    decreases events
  {
    hide AllDelivered, ListAt, Step, Inv, ListOrAbsent, Reverse, PushedBy, ListOnly;
    if |events| == 0 {
    } else {
      var (now, ev) := events[0];
      assert ListOnly(ev, key);
      var s1 := Step(s, ev, now).value;
      StepInv(s, ev, now);
      StepBalance(s, ev, now, key);
      var has := AllDelivered(s1.log, key) + ListAt(s1.db, key);
      StepMultiset(s, ev, key, AllDelivered(s.log, key), ListAt(s.db, key), has);
      ItemsConserved(s1, events[1..], key);
    }
  }

  lemma StepMultiset(s: State, ev: Event, key: Key, had: seq<Item>, items: seq<Item>, has: seq<Item>)
    requires if Runs(s, ev) && ev.cmd.key == key && ev.cmd.LPush? then has == had + (Reverse(ev.cmd.values) + items)
             else has == had + (items + PushedBy(s, ev, key))
    ensures multiset(has) == multiset(had) + multiset(items) + multiset(PushedBy(s, ev, key))
  {
    if Runs(s, ev) && ev.cmd.LPush? {
      ReverseSame(ev.cmd.values);
    }
  }

  /** When the key is only pushed at the back, clients receive its items in the order of the pushes. */
  lemma {:induction false} FirstInFirstOut(s: State, events: seq<(int, Event)>, key: Key)
    requires Inv(s) && ListOrAbsent(s.db, key) && AllListOnly(events, key) && Run(s, events).Some?
    requires NoLPush(events, key)
    ensures var s' := Run(s, events).value;
            AllDelivered(s'.log, key) + ListAt(s'.db, key) ==
            AllDelivered(s.log, key) + ListAt(s.db, key) + AllPushed(s, events, key)
    decreases events
  {
    hide AllDelivered, ListAt, Step, Inv, ListOrAbsent, Reverse, PushedBy, ListOnly;
    if |events| > 0 {
      var (now, ev) := events[0];
      assert ListOnly(ev, key);
      var s1 := Step(s, ev, now).value;
      StepInv(s, ev, now);
      StepBalance(s, ev, now, key);
      FirstInFirstOut(s1, events[1..], key);
      var had, items := AllDelivered(s.log, key), ListAt(s.db, key);
      var pushed, rest := PushedBy(s, ev, key), AllPushed(s1, events[1..], key);
      assert (had + (items + pushed)) + rest == had + items + (pushed + rest);
    } else {
      var had, items := AllDelivered(s.log, key), ListAt(s.db, key);
      assert had + items + [] == had + items;
    }
  }

  // ---- streams ----

  /** The event is an XADD that gets to run. */
  predicate RunsXAdd(s: State, ev: Event)
  {
    ev.Request? && ev.cmd.XAdd? && ev.tok in s.conns && !s.conns[ev.tok].blocked
  }

  lemma XAddStep(s: State, tok: Token, cmd: Command, now: int)
    requires RunsXAdd(s, Request(tok, cmd)) && Step(s, Request(tok, cmd), now).Some?
    ensures var out := AddEntry(s.db, cmd.key, cmd.idText, cmd.kv, cmd.clock);
            out.Done? && Step(s, Request(tok, cmd), now).value.db == out.db
  {
    hide AddEntry, PushHeap, StreamSpec.GoodChunks;
    BlocksOnlyOnBlpop(s.db, cmd, now);
  }

  /** Any stream under k was there before, the same. */
  predicate NoNewStream(db: DB, db': DB, k: Key)
  {
    k in db' && db'[k].value.VStream? ==> k in db && db[k].value == db'[k].value
  }

  lemma ExecNoNewStream(db: DB, cmd: Command, now: int, k: Key)
    requires !cmd.XAdd? && Exec(db, cmd, now).Done?
    ensures NoNewStream(db, Exec(db, cmd, now).db, k)
  {
    hide Reverse, StreamSpec.GoodChunks;
  }

  lemma WakeNoNewStream(s: State, key: Key, k: Key)
    ensures NoNewStream(s.db, WakeClient(s, key).db, k)
  {
    hide FirstBlocked, StreamSpec.GoodChunks;
  }

  /** Only XADD makes or changes a stream. */
  lemma StepNoNewStream(s: State, ev: Event, now: int, k: Key)
    requires !RunsXAdd(s, ev) && Step(s, ev, now).Some?
    ensures NoNewStream(s.db, Step(s, ev, now).value.db, k)
  {
    hide Exec, WakeClient, PushHeap, TimeOutAll, StreamSpec.GoodChunks;
    match ev
    case Accept(_) =>
    case Close(_) =>
    case Sweep =>
    case Timeouts =>
      var n := Due(s.timeouts, now);
      TimeOutAllEffect(s.(timeouts := s.timeouts[n..]), s.timeouts[..n], 0);
    case Request(tok, cmd) =>
      if tok in s.conns && !s.conns[tok].blocked && Exec(s.db, cmd, now).Done? {
        var out := Exec(s.db, cmd, now);
        ExecNoNewStream(s.db, cmd, now, k);
        WakeNoNewStream(WrittenReply(s, tok, cmd, out.db, out.reply, now), cmd.key, k);
      }
  }

  predicate StreamOnly(ev: Event, key: Key)
  {
    ev.Request? && ev.cmd.key == key ==> !ev.cmd.Set? && !ev.cmd.RPush? && !ev.cmd.LPush?
  }

  predicate StreamOrAbsent(db: DB, key: Key)
  {
    key in db ==> db[key].value.VStream?
  }

  function IdsOf(r: Reply, key: Key): seq<StreamID>
  {
    if r.AddedId? && r.key == key then [r.id] else []
  }

  /** The IDs reported for a key, in order. */
  function AddedIds(log: seq<(Token, Reply)>, key: Key): seq<StreamID>
  {
    if |log| == 0 then [] else AddedIds(log[..|log| - 1], key) + IdsOf(log[|log| - 1].1, key)
  }

  lemma IdsSnoc(log: seq<(Token, Reply)>, tok: Token, r: Reply, key: Key)
    ensures AddedIds(log + [(tok, r)], key) == AddedIds(log, key) + IdsOf(r, key)
  {
    assert (log + [(tok, r)])[..|log|] == log;
  }

  lemma {:induction false} NoneAdded(log: seq<(Token, Reply)>, longer: seq<(Token, Reply)>, key: Key)
    requires log <= longer && forall i :: |log| <= i < |longer| ==> !longer[i].1.AddedId?
    ensures AddedIds(longer, key) == AddedIds(log, key)
    decreases longer
  {
    if |log| < |longer| {
      NoneAdded(log, longer[..|longer| - 1], key);
    } else {
      assert log == longer;
    }
  }

  /** The last ID of the key's stream, if it has a stream. */
  function Top(db: DB, key: Key): Option<StreamID>
  {
    if |StreamAt(db, key)| == 0 then None else Some(TopId(StreamAt(db, key)))
  }

  predicate Above(top: Option<StreamID>, id: StreamID)
  {
    top.Some? ==> Less(top.value, id)
  }

  lemma AddTop(db: DB, key: Key, r: StreamSpec.Record)
    requires AddRecord(db, key, r).Done?
    ensures var out := AddRecord(db, key, r);
            if out.reply.AddedId? then
              out.reply == AddedId(key, r.id) && Top(out.db, key) == Some(r.id) && Above(Top(db, key), r.id)
              && StreamOrAbsent(out.db, key)
            else out.db == db && out.reply.Failed?
  {
    hide StreamSpec.GoodChunks, StreamSpec.AllStored, StreamSpec.Stored, StreamSpec.Add, StreamSpec.Last;
    StreamSpec.AddLastId(StreamAt(db, key), r);
  }

  /** XADD either fails and leaves the keyspace unchanged, or reports an ID above the stream's last
      one that parses from the request, and makes it the last one. */
  lemma XAddEffect(db: DB, key: Key, idText: seq<byte>, kv: seq<seq<byte>>, clock: u64)
    requires AddEntry(db, key, idText, kv, clock).Done?
    ensures var out := AddEntry(db, key, idText, kv, clock);
            if out.reply.AddedId? then
              out.reply.key == key && Top(out.db, key) == Some(out.reply.id) && Above(Top(db, key), out.reply.id)
              && Parse(idText, TopId(StreamAt(db, key)), clock) == Good(out.reply.id)
              && StreamOrAbsent(out.db, key)
              && (forall k :: k != key ==> (k in out.db <==> k in db) && (k in db ==> out.db[k] == db[k]))
            else out.db == db && out.reply.Failed?
  {
    hide Parse, Pairs, StreamSpec.Add, TopId, Top;
    var parsed := Parse(idText, TopId(StreamAt(db, key)), clock);
    if idText != ZERO_ID && |kv| % 2 == 0 && parsed.Good? {
      AddTop(db, key, StreamSpec.Record(parsed.value, Pairs(kv)));
    }
  }

  /** What a command does to the key's last ID. */
  lemma ExecTop(db: DB, cmd: Command, now: int, key: Key)
    requires OnlyStringsExpire(db) && StreamOrAbsent(db, key) && Exec(db, cmd, now).Done?
    requires cmd.key == key ==> !cmd.Set? && !cmd.RPush? && !cmd.LPush?
    ensures var out := Exec(db, cmd, now);
            && StreamOrAbsent(out.db, key)
            && (if out.reply.AddedId? && out.reply.key == key
                then Top(out.db, key) == Some(out.reply.id) && Above(Top(db, key), out.reply.id)
                else StreamAt(out.db, key) == StreamAt(db, key))
  {
    hide AddEntry, Reverse, TopId, StreamSpec.GoodChunks;
    if cmd.XAdd? {
      XAddEffect(db, cmd.key, cmd.idText, cmd.kv, cmd.clock);
    }
  }

  lemma WakeKeepsStream(s: State, woken: Key, key: Key)
    requires StreamOrAbsent(s.db, key)
    ensures var s' := WakeClient(s, woken);
            && StreamOrAbsent(s'.db, key) && StreamAt(s'.db, key) == StreamAt(s.db, key)
            && AddedIds(s'.log, key) == AddedIds(s.log, key)
  {
    hide AddedIds, FirstBlocked;
    var s' := WakeClient(s, woken);
    if s'.log != s.log {
      var w := s.queues[woken][FirstBlocked(s.queues[woken], s.conns)];
      IdsSnoc(s.log, w, Handed(woken, ListAt(s.db, woken)[0]), key);
    }
  }

  lemma ReplyTop(s: State, tok: Token, cmd: Command, now: int, key: Key)
    requires OnlyStringsExpire(s.db) && StreamOrAbsent(s.db, key) && Exec(s.db, cmd, now).Done?
    requires cmd.key == key ==> !cmd.Set? && !cmd.RPush? && !cmd.LPush?
    ensures var out := Exec(s.db, cmd, now);
            var s' := Replied(s, tok, cmd, out.db, out.reply, now);
            && StreamOrAbsent(s'.db, key)
            && AddedIds(s'.log, key) == AddedIds(s.log, key) + IdsOf(out.reply, key)
            && (if out.reply.AddedId? && out.reply.key == key
                then Top(s'.db, key) == Some(out.reply.id) && Above(Top(s.db, key), out.reply.id)
                else Top(s'.db, key) == Top(s.db, key))
  {
    hide Exec, WakeClient, AddedIds, PushHeap, StreamAt, StreamOrAbsent, TopId, OnlyStringsExpire;
    var out := Exec(s.db, cmd, now);
    ExecTop(s.db, cmd, now, key);
    IdsSnoc(s.log, tok, out.reply, key);
    WakeKeepsStream(WrittenReply(s, tok, cmd, out.db, out.reply, now), cmd.key, key);
  }

  /** One step reports at most one ID for the key; it is above the old last ID and becomes the new one. */
  lemma StepTop(s: State, ev: Event, now: int, key: Key)
    requires Inv(s) && StreamOrAbsent(s.db, key) && StreamOnly(ev, key) && Step(s, ev, now).Some?
    ensures var s' := Step(s, ev, now).value;
            var before, after := AddedIds(s.log, key), AddedIds(s'.log, key);
            && StreamOrAbsent(s'.db, key)
            && (|| (after == before && Top(s'.db, key) == Top(s.db, key))
                || (exists id :: after == before + [id] && Above(Top(s.db, key), id) && Top(s'.db, key) == Some(id)))
  {
    hide AddedIds, Exec, Replied, TopId;
    var s' := Step(s, ev, now).value;
    if Runs(s, ev) {
      if Exec(s.db, ev.cmd, now).Done? {
        ReplyTop(s, ev.tok, ev.cmd, now, key);
        var reply := Exec(s.db, ev.cmd, now).reply;
        if IdsOf(reply, key) == [] {
          assert AddedIds(s.log, key) + [] == AddedIds(s.log, key);
        } else {
          assert AddedIds(s'.log, key) == AddedIds(s.log, key) + [reply.id];
        }
      }
    } else {
      OtherSteps(s, ev, now, key);
      NoneAdded(s.log, s'.log, key);
    }
  }

  predicate AllStreamOnly(events: seq<(int, Event)>, key: Key)
  {
    forall i :: 0 <= i < |events| ==> StreamOnly(events[i].1, key)
  }

  predicate IdsAscend(ids: seq<StreamID>)
  {
    forall i, j :: 0 <= i < j < |ids| ==> Less(ids[i], ids[j])
  }

  /** While a key stays a stream, the IDs of successful XADDs strictly increase from the stream's last
      ID on, and the last one reported is the stream's last ID. */
  lemma {:induction false} XAddIdsIncrease(s: State, events: seq<(int, Event)>, key: Key) returns (ids: seq<StreamID>)
    requires Inv(s) && StreamOrAbsent(s.db, key) && AllStreamOnly(events, key) && Run(s, events).Some?
    ensures var s' := Run(s, events).value;
            && AddedIds(s'.log, key) == AddedIds(s.log, key) + ids
            && IdsAscend(ids) && (forall i :: 0 <= i < |ids| ==> Above(Top(s.db, key), ids[i]))
            && Top(s'.db, key) == if |ids| == 0 then Top(s.db, key) else Some(ids[|ids| - 1])
    decreases events
  {
    hide AddedIds, Step, Inv, StreamOrAbsent, StreamOnly, Top;
    if |events| == 0 {
      ids := [];
      assert AddedIds(s.log, key) + [] == AddedIds(s.log, key);
    } else {
      var (now, ev) := events[0];
      assert StreamOnly(ev, key);
      var s1 := Step(s, ev, now).value;
      StepInv(s, ev, now);
      StepTop(s, ev, now, key);
      var rest := XAddIdsIncrease(s1, events[1..], key);
      var before, mid := AddedIds(s.log, key), AddedIds(s1.log, key);
      if mid == before && Top(s1.db, key) == Top(s.db, key) {
        ids := rest;
      } else {
        var id :| mid == before + [id] && Above(Top(s.db, key), id) && Top(s1.db, key) == Some(id);
        ids := [id] + rest;
        assert before + ids == mid + rest;
      }
    }
  }

  // ---- the ID 0-0 ----

  predicate Zeros(s: seq<byte>)
  {
    |s| > 0 && forall i :: 0 <= i < |s| ==> s[i] == ZERO
  }

  /** Zeros, a dash, zeros. */
  predicate SpellsZeroId(text: seq<byte>)
  {
    exists n :: 0 <= n < |text| && text[n] == DASH && Zeros(text[..n]) && Zeros(text[n + 1..])
  }

  lemma {:induction false} ValueZero(s: seq<byte>)
    requires AllDigits(s)
    ensures NumValue(s) == 0 <==> forall i :: 0 <= i < |s| ==> s[i] == ZERO
  {
    if |s| == 0 {
    } else {
      var init := s[..|s| - 1];
      ValueZero(init);
      assert forall i :: 0 <= i < |init| ==> init[i] == s[i];
      assert forall i :: 0 <= i < |s| ==> i == |s| - 1 || s[i] == init[i];
    }
  }

  lemma ParsesToZero(s: seq<byte>)
    ensures ParseU64(s) == Good(0) <==> Zeros(s)
  {
    if AllDigits(s) {
      ValueZero(s);
    }
  }

  /** The texts that give a key without a stream the ID 0-0: no automatic ID is among them. */
  lemma ZeroIdTexts(text: seq<byte>, clock: u64)
    ensures Parse(text, StreamID(0, 0), clock) == Good(StreamID(0, 0)) <==> SpellsZeroId(text)
  {
    hide ParseU64;
    if n :| 0 <= n < |text| && text[n] == DASH && Zeros(text[..n]) && Zeros(text[n + 1..]) {
      assert text == text[..n] + [DASH] + text[n + 1..];
      FirstDashAt(text[..n], text[n + 1..]);
      ParsesToZero(text[..n]);
      ParsesToZero(text[n + 1..]);
      assert text[0] == text[..n][0] == ZERO && text[n + 1..][0] == ZERO;
    } else if FirstDash(text).Some? {
      var dash := FirstDash(text).value;
      ParsesToZero(text[..dash]);
      ParsesToZero(text[dash + 1..]);
    }
  }

  /** The text "0-0" is refused, but the ID 0-0 is not: it is accepted exactly by a key with no record
      yet, under any other text of zeros around a dash, such as "00-0", when the record fits. */
  lemma ZeroIdSlipsIn(db: DB, key: Key, idText: seq<byte>, kv: seq<seq<byte>>, clock: u64)
    ensures var out := AddEntry(db, key, idText, kv, clock);
            out.Done? && out.reply == AddedId(key, StreamID(0, 0)) <==>
            && StreamAt(db, key) == [] && idText != ZERO_ID && SpellsZeroId(idText) && |kv| % 2 == 0
            && StreamSpec.Fits(StreamSpec.RecordElems(StreamSpec.Record(StreamID(0, 0), Pairs(kv))))
  {
    hide Parse, Pairs, TopId, AddRecord, StreamSpec.Fits, StreamSpec.RecordElems, SpellsZeroId, StreamAt;
    ZeroIdTexts(idText, clock);
    var parsed := Parse(idText, TopId(StreamAt(db, key)), clock);
    assert StreamAt(db, key) == [] ==> TopId(StreamAt(db, key)) == StreamID(0, 0) by { NoTopId(); }
    if parsed.Good? {
      AddZeroRecord(db, key, StreamSpec.Record(parsed.value, Pairs(kv)));
    }
  }

  lemma NoTopId()
    ensures TopId([]) == StreamID(0, 0)
  {
  }

  lemma AddZeroRecord(db: DB, key: Key, r: StreamSpec.Record)
    ensures var out := AddRecord(db, key, r);
            && (out.Done? && out.reply.AddedId? ==> out.reply == AddedId(key, r.id))
            && (r.id == StreamID(0, 0) ==>
                  (out.Done? && out.reply == AddedId(key, r.id) <==>
                   StreamAt(db, key) == [] && StreamSpec.Fits(StreamSpec.RecordElems(r))))
  {
    hide StreamSpec.Fits, StreamSpec.RecordElems, StreamSpec.Bounded, StreamSpec.Ascend, StreamSpec.Maximal,
      StreamSpec.Stored, StreamSpec.CanAppend, StreamSpec.Elems;
    StreamSpec.AddLastId(StreamAt(db, key), r);
  }

  /** On the empty keyspace, with the text "00-0" and no fields. */
  lemma ZeroIdExample(key: Key, clock: u64)
    ensures var out := AddEntry(map[], key, [48, 48, 45, 48], [], clock);
            out.Done? && out.reply == AddedId(key, StreamID(0, 0))
  {
    hide AddEntry, StreamSpec.RecordElems, StreamSpec.Fits;
    var text: seq<byte> := [48, 48, 45, 48];
    assert SpellsZeroId(text) by { assert text[2] == DASH && Zeros(text[..2]) && Zeros(text[3..]); }
    StreamSpec.SmallWithAnyId(StreamID(0, 0), []);
    ZeroIdSlipsIn(map[], key, text, [], clock);
  }
}
