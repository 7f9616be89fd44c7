/** Expiry cleanup cannot be observed: lazy expiry and the sweep agree on every reply. */
module Invisible {
  import opened Bytes
  import opened Heap
  import opened Keyspace
  import opened StreamId
  import opened Server
  import StreamSpec

  /** The entry under a key, unless its time has passed. */
  function LiveAt(db: DB, key: Key, now: int): Option<Entry>
  {
    if key in db && !Expired(db[key], now) then Some(db[key]) else None
  }

  /** Keyspaces that differ at most in entries whose time has passed. */
  ghost predicate SameLive(a: DB, b: DB, now: int)
  {
    forall k :: LiveAt(a, k, now) == LiveAt(b, k, now)
  }

  /** The commands for which the sweep is invisible; LPOP does not look at expiries. */
  predicate Oblivious(ev: Event)
  {
    ev.Request? ==> !ev.cmd.LPop?
  }

  lemma SameLiveLater(a: DB, b: DB, now: int, later: int)
    requires SameLive(a, b, now) && now <= later
    ensures SameLive(a, b, later)
  {
    forall k ensures LiveAt(a, k, later) == LiveAt(b, k, later) {
      assert LiveAt(a, k, now) == LiveAt(b, k, now);
    }
  }

  /** Lists and streams never expire, so they are the same in both keyspaces. */
  lemma SameValues(a: DB, b: DB, now: int, key: Key)
    requires SameLive(a, b, now) && OnlyStringsExpire(a) && OnlyStringsExpire(b)
    ensures key in a && !a[key].value.VString? ==> key in b && b[key] == a[key] && a[key].expiry == None
    ensures key in b && !b[key].value.VString? ==> key in a && b[key] == a[key]
    ensures ListAt(a, key) == ListAt(b, key) && StreamAt(a, key) == StreamAt(b, key)
  {
    assert LiveAt(a, key, now) == LiveAt(b, key, now);
  }

  /** Writing the same entry under the same key keeps keyspaces alike. */
  lemma SameUpdate(a: DB, b: DB, now: int, key: Key, e: Entry)
    requires SameLive(a, b, now)
    ensures SameLive(a[key := e], b[key := e], now)
  {
    var a', b' := a[key := e], b[key := e];
    forall k ensures LiveAt(a', k, now) == LiveAt(b', k, now) {
      assert LiveAt(a, k, now) == LiveAt(b, k, now);
    }
  }

  ghost predicate SameOutcome(x: Outcome, y: Outcome, now: int)
  {
    match x
    case Crashes => y.Crashes?
    case Blocks => y.Blocks?
    case Done(db, reply) => y.Done? && y.reply == reply && SameLive(db, y.db, now)
  }

  lemma GetSame(a: DB, b: DB, key: Key, now: int)
    requires SameLive(a, b, now)
    ensures SameOutcome(GetText(a, key, now), GetText(b, key, now), now)
  {
    assert LiveAt(a, key, now) == LiveAt(b, key, now);
    var x, y := GetText(a, key, now), GetText(b, key, now);
    forall k ensures LiveAt(x.db, k, now) == LiveAt(y.db, k, now) {
      assert LiveAt(a, k, now) == LiveAt(b, k, now);
    }
  }

  lemma PushSame(a: DB, b: DB, key: Key, values: seq<Item>, front: bool, now: int)
    requires SameLive(a, b, now) && OnlyStringsExpire(a) && OnlyStringsExpire(b)
    ensures SameOutcome(Push(a, key, values, front), Push(b, key, values, front), now)
  {
    hide Reverse;
    SameValues(a, b, now, key);
    var x := Push(a, key, values, front);
    if |values| > 0 {
      SameUpdate(a, b, now, key, x.db[key]);
    }
  }

  lemma BlockingPopSame(a: DB, b: DB, key: Key, now: int)
    requires SameLive(a, b, now) && OnlyStringsExpire(a) && OnlyStringsExpire(b)
    ensures SameOutcome(BlockingPop(a, key), BlockingPop(b, key), now)
  {
    SameValues(a, b, now, key);
    if |ListAt(a, key)| > 0 {
      SameUpdate(a, b, now, key, BlockingPop(a, key).db[key]);
    }
  }

  lemma AddSame(a: DB, b: DB, key: Key, idText: seq<byte>, kv: seq<seq<byte>>, clock: u64, now: int)
    requires SameLive(a, b, now) && OnlyStringsExpire(a) && OnlyStringsExpire(b)
    ensures SameOutcome(AddEntry(a, key, idText, kv, clock), AddEntry(b, key, idText, kv, clock), now)
  {
    hide Parse, Pairs, StreamSpec.Add, TopId;
    SameValues(a, b, now, key);
    var x := AddEntry(a, key, idText, kv, clock);
    if x.Done? && x.reply.AddedId? {
      SameUpdate(a, b, now, key, x.db[key]);
    }
  }

  lemma SetSame(a: DB, b: DB, key: Key, text: seq<byte>, ttl: Option<nat>, now: int)
    requires SameLive(a, b, now)
    ensures SameOutcome(Exec(a, Set(key, text, ttl), now), Exec(b, Set(key, text, ttl), now), now)
  {
    SameUpdate(a, b, now, key, Entry(VString(text), ExpiryAt(ttl, now)));
  }

  /** A command other than LPOP has the same outcome on keyspaces that agree on live entries. */
  lemma ExecSame(a: DB, b: DB, cmd: Command, now: int)
    requires SameLive(a, b, now) && OnlyStringsExpire(a) && OnlyStringsExpire(b) && !cmd.LPop?
    ensures SameOutcome(Exec(a, cmd, now), Exec(b, cmd, now), now)
  {
    hide GetText, Push, Pop, BlockingPop, AddEntry, SameOutcome, StreamSpec.GoodChunks;
    match cmd
    case Set(key, text, ttl) => SetSame(a, b, key, text, ttl, now);
    case Get(key) => GetSame(a, b, key, now);
    case RPush(key, values) => PushSame(a, b, key, values, false, now);
    case LPush(key, values) => PushSame(a, b, key, values, true, now);
    case BLPop(key, _) => BlockingPopSame(a, b, key, now);
    case XAdd(key, idText, kv, clock) => AddSame(a, b, key, idText, kv, clock, now);
  }

  // ---- the simulation ----

  /** Servers that differ only in expired entries and in their expiry heaps. */
  ghost predicate Similar(s: State, t: State, now: int)
  {
    && Inv(s) && Inv(t) && SameLive(s.db, t.db, now)
    && Visible(s, t)
  }

  predicate Visible(s: State, t: State)
  {
    s.conns == t.conns && s.queues == t.queues && s.timeouts == t.timeouts && s.log == t.log
  }

  lemma SweepSimilar(s: State, t: State, now: int)
    requires Similar(s, t, now)
    ensures Similar(CleanupExpired(s, now), t, now)
  {
    SweepInv(s, now);
    SweepExact(s, now);
    var s' := CleanupExpired(s, now);
    forall k ensures LiveAt(s'.db, k, now) == LiveAt(t.db, k, now) {
      assert LiveAt(s.db, k, now) == LiveAt(t.db, k, now);
    }
  }

  lemma {:induction false} TimeOutAllSame(s: State, t: State, popped: seq<(int, Token)>)
    requires Visible(s, t)
    ensures Visible(TimeOutAll(s, popped), TimeOutAll(t, popped))
    ensures TimeOutAll(s, popped).db == s.db && TimeOutAll(t, popped).db == t.db
    decreases popped
  {
    if |popped| == 0 {
    } else {
      TimeOutAllSame(TimeOut(s, popped[0].1), TimeOut(t, popped[0].1), popped[1..]);
    }
  }

  lemma WakeSame(s: State, t: State, key: Key, now: int)
    requires Visible(s, t) && SameLive(s.db, t.db, now) && OnlyStringsExpire(s.db) && OnlyStringsExpire(t.db)
    ensures Visible(WakeClient(s, key), WakeClient(t, key))
    ensures SameLive(WakeClient(s, key).db, WakeClient(t, key).db, now)
  {
    SameValues(s.db, t.db, now, key);
    if |ListAt(s.db, key)| > 0 {
      var items := ListAt(s.db, key);
      SameUpdate(s.db, t.db, now, key, SetList(s.db, key, items[1..])[key]);
    }
  }

  lemma RequestSimilar(s: State, t: State, tok: Token, cmd: Command, now: int)
    requires Similar(s, t, now) && !cmd.LPop?
    ensures Handle(s, tok, cmd, now).Some? <==> Handle(t, tok, cmd, now).Some?
    ensures Handle(s, tok, cmd, now).Some? ==>
              Similar(Handle(s, tok, cmd, now).value, Handle(t, tok, cmd, now).value, now)
  {
    hide WakeClient, Exec, PushHeap, SameLive, OnlyStringsExpire, ByTime, ExpiriesCovered, StreamSpec.GoodChunks;
    ExecSame(s.db, t.db, cmd, now);
    if tok in s.conns && !s.conns[tok].blocked {
      var x, y := Exec(s.db, cmd, now), Exec(t.db, cmd, now);
      if x.Done? {
        RepliedInv(s, tok, cmd, now);
        RepliedInv(t, tok, cmd, now);
        ExecKeeps(s.db, cmd, now);
        ExecKeeps(t.db, cmd, now);
        var s1 := WrittenReply(s, tok, cmd, x.db, x.reply, now);
        var t1 := WrittenReply(t, tok, cmd, y.db, y.reply, now);
        WakeSame(s1, t1, cmd.key, now);
      } else if x.Blocks? {
        RegisterInv(s, tok, cmd.key, if cmd.BLPop? then cmd.timeout else None, now);
        RegisterInv(t, tok, cmd.key, if cmd.BLPop? then cmd.timeout else None, now);
      }
    }
  }

  lemma ExecKeeps(db: DB, cmd: Command, now: int)
    requires OnlyStringsExpire(db) && Exec(db, cmd, now).Done?
    ensures OnlyStringsExpire(Exec(db, cmd, now).db)
  {
    hide Exec;
    forall k | k in Exec(db, cmd, now).db && Exec(db, cmd, now).db[k].expiry.Some?
      ensures Exec(db, cmd, now).db[k].value.VString?
    {
      ExecExpiries(db, cmd, now, k);
    }
  }

  /** One event other than a sweep keeps similar servers similar, or both panic. */
  lemma StepSimilar(s: State, t: State, ev: Event, now: int)
    requires Similar(s, t, now) && Oblivious(ev) && !ev.Sweep?
    ensures Step(s, ev, now).Some? <==> Step(t, ev, now).Some?
    ensures Step(s, ev, now).Some? ==> Similar(Step(s, ev, now).value, Step(t, ev, now).value, now)
  {
    hide Handle, TimeOutAll;
    if ev.Request? {
      RequestSimilar(s, t, ev.tok, ev.cmd, now);
    } else {
      StepInv(s, ev, now);
      StepInv(t, ev, now);
      if ev.Timeouts? {
        var n := Due(s.timeouts, now);
        TimeOutAllSame(s.(timeouts := s.timeouts[n..]), t.(timeouts := t.timeouts[n..]), s.timeouts[..n]);
      }
    }
  }

  /** The same run without its sweeps. */
  function Unswept(events: seq<(int, Event)>): seq<(int, Event)>
  {
    if |events| == 0 then []
    else if events[0].1.Sweep? then Unswept(events[1..])
    else [events[0]] + Unswept(events[1..])
  }

  lemma {:induction false} RunSimilar(s: State, t: State, events: seq<(int, Event)>, start: int)
    requires Similar(s, t, start) && InOrder(events, start)
    requires forall i :: 0 <= i < |events| ==> Oblivious(events[i].1)
    ensures Run(s, events).Some? <==> Run(t, Unswept(events)).Some?
    ensures Run(s, events).Some? ==> Visible(Run(s, events).value, Run(t, Unswept(events)).value)
    decreases events
  {
    hide Step, Inv, SameLive;
    if |events| == 0 {
    } else {
      var (now, ev) := events[0];
      SameLiveLater(s.db, t.db, start, now);
      assert Oblivious(ev);
      if ev.Sweep? {
        SweepSimilar(s, t, now);
        StepSweep(s, now);
        RunSimilar(CleanupExpired(s, now), t, events[1..], now);
      } else {
        StepSimilar(s, t, ev, now);
        assert Unswept(events)[1..] == Unswept(events[1..]);
        if Step(s, ev, now).Some? {
          RunSimilar(Step(s, ev, now).value, Step(t, ev, now).value, events[1..], now);
        }
      }
    }
  }

  lemma StepSweep(s: State, now: int)
    ensures Step(s, Sweep, now) == Some(CleanupExpired(s, now))
  {
  }

  /** In any run from any reachable state, of any clients, sweeps can be put in or left out at any
      point without changing a single reply, the order of replies, or who is blocked. */
  lemma CleanupInvisible(s: State, events: seq<(int, Event)>, start: int)
    requires Inv(s) && InOrder(events, start)
    requires forall i :: 0 <= i < |events| ==> Oblivious(events[i].1)
    ensures Run(s, events).Some? <==> Run(s, Unswept(events)).Some?
    ensures Run(s, events).Some? ==> Visible(Run(s, events).value, Run(s, Unswept(events)).value)
  {
    RunSimilar(s, s, events, start);
  }

  /** The sweep pops the heap entry that carries the key's current expiry. */
  predicate SweptAway(s: State, key: Key, now: int)
  {
    && key in s.db && s.db[key].expiry.Some?
    && (s.db[key].expiry.value, key) in s.expiries[..SweepCount(s.expiries, now)]
  }

  /** LPOP is left out because it does see the sweep: its reply changes exactly when the key's heap entry
      is among those the sweep pops, which with no more than 170 entries due means that the key's time
      has passed. */
  lemma LPopSeesSweep(s: State, key: Key, count: nat, now: int)
    requires Inv(s)
    ensures Exec(s.db, LPop(key, count), now).reply != Exec(CleanupExpired(s, now).db, LPop(key, count), now).reply
            <==> SweptAway(s, key, now)
    ensures Due(s.expiries, now) <= 170 ==>
              (SweptAway(s, key, now) <==> key in s.db && Expired(s.db[key], now))
  {
    var n := SweepCount(s.expiries, now);
    if key in s.db && s.db[key].expiry.Some? {
      var e := (s.db[key].expiry.value, key);
      if e in s.expiries[..n] {
        var i :| 0 <= i < n && s.expiries[i] == e;
      }
      if Expired(s.db[key], now) {
        DueAll(s.expiries, now, e);
      }
    }
  }

  /** A string with a time to live, after SET. */
  function Stored(key: Key, text: seq<byte>): State
  {
    State(map[key := Entry(VString(text), Some(5))], [(5, key)], map[1 := FREE], map[], [], [(1, Fine)])
  }

  /** A string set for 5 ms and asked for as a list at 5: without a sweep the reply is a type error, with
      one it is nil. */
  lemma LPopSweepRun(key: Key, text: seq<byte>)
    ensures var setup := [(0, Accept(1)), (0, Request(1, Set(key, text, Some(5))))];
            var ask := [(5, Request(1, LPop(key, 1)))];
            var sweep := [(5, Sweep)];
            && InOrder(setup + ask, 0) && InOrder(setup + sweep + ask, 0)
            && Run(INITIAL, setup + ask).Some? && Run(INITIAL, setup + sweep + ask).Some?
            && Run(INITIAL, setup + ask).value.log == [(1, Fine), (1, Failed(WrongType))]
            && Run(INITIAL, setup + sweep + ask).value.log == [(1, Fine), (1, Nil)]
  {
    hide Step, Run;
    var kept, swept := Stored(key, text), Stored(key, text).(db := map[], expiries := []);
    var s1 := INITIAL.(conns := map[1 := FREE]);
    var setup := [(0, Accept(1)), (0, Request(1, Set(key, text, Some(5))))];
    var ask := [(5, Request(1, LPop(key, 1)))];
    var sweep := [(5, Sweep)];
    LPopSweepSteps(key, text);
    TimesAscend(setup + ask, 0);
    TimesAscend(setup + sweep + ask, 0);
    RunThrough([INITIAL, s1, kept, kept.(log := kept.log + [(1, Failed(WrongType))])], setup + ask);
    RunThrough([INITIAL, s1, kept, swept, swept.(log := swept.log + [(1, Nil)])], setup + sweep + ask);
  }

  lemma LPopSweepSteps(key: Key, text: seq<byte>)
    ensures var kept, swept := Stored(key, text), Stored(key, text).(db := map[], expiries := []);
            var s1 := INITIAL.(conns := map[1 := FREE]);
            var ask := Request(1, LPop(key, 1));
            && Step(INITIAL, Accept(1), 0) == Some(s1)
            && Step(s1, Request(1, Set(key, text, Some(5))), 0) == Some(kept)
            && Step(kept, Sweep, 5) == Some(swept)
            && Step(kept, ask, 5) == Some(kept.(log := kept.log + [(1, Failed(WrongType))]))
            && Step(swept, ask, 5) == Some(swept.(log := swept.log + [(1, Nil)]))
  {
    var kept, swept := Stored(key, text), Stored(key, text).(db := map[], expiries := []);
    var s1 := INITIAL.(conns := map[1 := FREE]);
    var set5, ask := Set(key, text, Some(5)), Request(1, LPop(key, 1));
    assert Exec(s1.db, set5, 0) == Done(kept.db, Fine);
    assert WrittenReply(s1, 1, set5, kept.db, Fine, 0) == kept by {
      var none: seq<(int, Key)> := [];
      assert PushHeap(none, (5, key), GreaterKey) == [(5, key)] + none == [(5, key)];
    }
    assert Step(kept, Sweep, 5) == Some(swept) by {
      assert kept.expiries[1..] == [] && kept.expiries[..1] == kept.expiries;
      assert Due(kept.expiries, 5) == 1 + Due(kept.expiries[1..], 5);
      assert kept.expiries[0] in kept.expiries;
      assert Swept(kept.db, kept.expiries) == map[];
    }
    assert Step(kept, ask, 5) == Some(kept.(log := kept.log + [(1, Failed(WrongType))]));
    assert Step(swept, ask, 5) == Some(swept.(log := swept.log + [(1, Nil)]));
  }
}
