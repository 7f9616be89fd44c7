/** SET and GET: a string is read back until its time has passed, whatever happens to other keys. */
module Strings {
  import opened Bytes
  import opened Heap
  import opened Effects
  import opened Keyspace
  import opened Server
  import opened StreamId
  import StreamSpec

  /** A request that may write to the key. GET, LPOP and BLPOP leave a string alone. */
  predicate Writes(ev: Event, key: Key)
  {
    ev.Request? && ev.cmd.key == key && (ev.cmd.Set? || ev.cmd.RPush? || ev.cmd.LPush? || ev.cmd.XAdd?)
  }

  /** The key holds the string, or held it until a time that has passed. */
  predicate Kept(s: State, key: Key, text: seq<byte>, expiry: Option<int>, now: int)
  {
    if key in s.db then s.db[key] == Entry(VString(text), expiry) else expiry.Some? && expiry.value <= now
  }

  /** SET replaces whatever the key held and answers with a fixed text. */
  lemma SetEffect(s: State, tok: Token, key: Key, text: seq<byte>, ttl: Option<nat>, now: int)
    requires tok in s.conns && !s.conns[tok].blocked
    ensures Step(s, Request(tok, Set(key, text, ttl)), now).Some?
    ensures var s' := Step(s, Request(tok, Set(key, text, ttl)), now).value;
            && key in s'.db && s'.conns == s.conns && s'.log == s.log + [(tok, Fine)]
            && s'.db[key] == Entry(VString(text), if ttl.Some? then Some(now + ttl.value) else None)
  {
    hide PushHeap;
  }

  lemma ExecKept(db: DB, cmd: Command, now: int, key: Key)
    requires cmd.key == key && (cmd.Get? || cmd.LPop? || cmd.BLPop?)
    requires key in db ==> db[key].value.VString?
    ensures Exec(db, cmd, now).Done? ==>
              if cmd.Get? && key in db && Expired(db[key], now) then Exec(db, cmd, now).db == db - {key}
              else Exec(db, cmd, now).db == db
  {
  }

  lemma StepKept(s: State, ev: Event, start: int, now: int, key: Key, text: seq<byte>, expiry: Option<int>)
    requires Inv(s) && Kept(s, key, text, expiry, start) && start <= now
    requires !Writes(ev, key) && Step(s, ev, now).Some?
    ensures Kept(Step(s, ev, now).value, key, text, expiry, now)
  {
    hide Exec, WakeClient, PushHeap, CleanupExpired, TimeOutAll, StreamSpec.GoodChunks;
    match ev
    case Accept(_) =>
    case Close(_) =>
    case Sweep => SweepExact(s, now);
    case Timeouts =>
      TimeOutAllEffect(s.(timeouts := s.timeouts[Due(s.timeouts, now)..]), s.timeouts[..Due(s.timeouts, now)], 0);
    case Request(tok, cmd) =>
      if tok in s.conns && !s.conns[tok].blocked && Exec(s.db, cmd, now).Done? {
        var out := Exec(s.db, cmd, now);
        if cmd.key == key {
          ExecKept(s.db, cmd, now, key);
        } else {
          ExecFrame(s.db, cmd, now, key);
          WakeFrame(WrittenReply(s, tok, cmd, out.db, out.reply, now), cmd.key, key);
        }
      }
  }

  lemma {:induction false} RunKept(s: State, events: seq<(int, Event)>, start: int, key: Key, text: seq<byte>,
                                   expiry: Option<int>) returns (end: int)
    requires Inv(s) && Kept(s, key, text, expiry, start) && InOrder(events, start) && Run(s, events).Some?
    requires forall i :: 0 <= i < |events| ==> !Writes(events[i].1, key)
    ensures end == if |events| == 0 then start else events[|events| - 1].0
    ensures start <= end && Kept(Run(s, events).value, key, text, expiry, end)
    decreases events
  {
    hide Step, Inv, Kept;
    if |events| == 0 {
      end := start;
    } else {
      var (now, ev) := events[0];
      StepInv(s, ev, now);
      StepKept(s, ev, start, now, key, text, expiry);
      end := RunKept(Step(s, ev, now).value, events[1..], now, key, text, expiry);
    }
  }

  /** GET answers with the string, or with nil once its time has passed, and with nothing else. */
  lemma GetKept(s: State, tok: Token, key: Key, text: seq<byte>, expiry: Option<int>, start: int, now: int)
    requires Kept(s, key, text, expiry, start) && start <= now && tok in s.conns && !s.conns[tok].blocked
    ensures Step(s, Request(tok, Get(key)), now).Some?
    ensures Step(s, Request(tok, Get(key)), now).value.log ==
            s.log + [(tok, if expiry.None? || now < expiry.value then Text(text) else Nil)]
  {
    hide PushHeap;
  }

  /** After a SET, through any run in which nothing writes the key, sweeps included anywhere, a GET is
      answered with the text that was set as long as no time to live was given or it has not passed, and
      with nil from then on. */
  lemma SetThenGet(s: State, tok: Token, key: Key, text: seq<byte>, ttl: Option<nat>, now: int, s1: State,
                   events: seq<(int, Event)>, s2: State, asker: Token, t: int)
    requires Inv(s) && tok in s.conns && !s.conns[tok].blocked
    requires Step(s, Request(tok, Set(key, text, ttl)), now) == Some(s1)
    requires Run(s1, events) == Some(s2) && forall i :: 0 <= i < |events| ==> !Writes(events[i].1, key)
    requires asker in s2.conns && !s2.conns[asker].blocked
    requires InOrder(events + [(t, Request(asker, Get(key)))], now)
    ensures Step(s2, Request(asker, Get(key)), t).Some?
    ensures Step(s2, Request(asker, Get(key)), t).value.log ==
            s2.log + [(asker, if ttl.None? || t < now + ttl.value then Text(text) else Nil)]
  {
    hide Step, Inv;
    var expiry := if ttl.Some? then Some(now + ttl.value) else None;
    SetEffect(s, tok, key, text, ttl, now);
    StepInv(s, Request(tok, Set(key, text, ttl)), now);
    LaterLast(events, (t, Request(asker, Get(key))), now);
    var end := RunKept(s1, events, now, key, text, expiry);
    GetKept(s2, asker, key, text, expiry, end, t);
  }

  lemma {:induction false} LaterLast(events: seq<(int, Event)>, last: (int, Event), start: int)
    requires InOrder(events + [last], start)
    ensures InOrder(events, start) && (if |events| == 0 then start else events[|events| - 1].0) <= last.0
    decreases events
  {
    if |events| == 0 {
      assert events + [last] == [last];
    } else {
      assert (events + [last])[1..] == events[1..] + [last];
      LaterLast(events[1..], last, events[0].0);
    }
  }

  /** GET in general: a live string is shown, a live list or stream is a type error, anything else is nil. */
  lemma GetReplies(s: State, tok: Token, key: Key, now: int)
    requires Inv(s) && tok in s.conns && !s.conns[tok].blocked
    ensures Step(s, Request(tok, Get(key)), now).Some?
    ensures var s' := Step(s, Request(tok, Get(key)), now).value;
            && |s'.log| == |s.log| + 1 && s'.log[..|s.log|] == s.log && s'.log[|s.log|].0 == tok
            && var reply := s'.log[|s.log|].1;
            && (forall text :: reply == Text(text) <==>
                  key in s.db && s.db[key].value == VString(text)
                  && (s.db[key].expiry.None? || now < s.db[key].expiry.value))
            && (reply == Failed(WrongType) <==> key in s.db && !s.db[key].value.VString?)
            && (reply == Nil <==>
                  key !in s.db || (s.db[key].expiry.Some? && s.db[key].expiry.value <= now))
  {
    hide PushHeap, StreamSpec.GoodChunks;
  }
}
