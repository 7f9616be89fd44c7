/** Whether a client is woken by the key it waits for: not always, because queue entries go stale. */
module Waiting {
  import opened Bytes
  import opened Heap
  import opened Keyspace
  import opened Server
  import opened StreamId
  import StreamSpec

  /** A queue entry does no harm: if its client is blocked, it waits for the queue's own key. */
  predicate Loyal(conns: map<Token, Conn>, tok: Token, key: Key)
  {
    Blocked(conns, tok) ==> conns[tok].blockKey == Some(key)
  }

  ghost predicate Settled(s: State)
  {
    forall k, i :: k in s.queues && 0 <= i < |s.queues[k]| ==> Loyal(s.conns, s.queues[k][i], k)
  }

  /** A free client asks for an item of a list that has none, so it starts to wait. */
  predicate Waits(s: State, ev: Event)
  {
    && ev.Request? && ev.cmd.BLPop? && ev.tok in s.conns && !s.conns[ev.tok].blocked
    && |ListAt(s.db, ev.cmd.key)| == 0
  }

  /** A client starts to wait for one key while a queue entry of its token is left under another. */
  ghost predicate StaleBlock(s: State, ev: Event)
  {
    Waits(s, ev) && exists k :: k in s.queues && k != ev.cmd.key && ev.tok in s.queues[k]
  }

  /** Some client is freed by a push onto a key it does not wait for. */
  ghost predicate WrongWake(s: State, ev: Event, now: int)
  {
    && ev.Request? && (ev.cmd.RPush? || ev.cmd.LPush?) && Step(s, ev, now).Some?
    && exists tok :: Freed(s, Step(s, ev, now).value, tok) && s.conns[tok].blockKey != Some(ev.cmd.key)
  }

  predicate Freed(s: State, s': State, tok: Token)
  {
    Blocked(s.conns, tok) && tok in s'.conns && !s'.conns[tok].blocked
  }

  // ---- one step ----

  lemma BlocksWhen(db: DB, cmd: Command, now: int)
    ensures Exec(db, cmd, now).Blocks? <==> cmd.BLPop? && |ListAt(db, cmd.key)| == 0
  {
    hide StreamSpec.Add, Parse, Pairs, TopId, Reverse;
  }

  /** Waking changes one connection, the first blocked one of the key's queue. */
  lemma WakeEffect(s: State, key: Key)
    ensures var s' := WakeClient(s, key);
            if key !in s.queues then s'.conns == s.conns && s'.queues == s.queues
            else
              var queue := s.queues[key];
              var i := FirstBlocked(queue, s.conns);
              if i == |queue| then s'.conns == s.conns && s'.queues == s.queues[key := []]
              else s'.conns == s.conns[queue[i] := FREE] && s'.queues == s.queues[key := queue[i + 1..]]
  {
    hide FirstBlocked;
  }

  lemma WakeSettled(s: State, key: Key)
    requires Settled(s)
    ensures Settled(WakeClient(s, key))
    ensures forall tok :: Freed(s, WakeClient(s, key), tok) ==> s.conns[tok].blockKey == Some(key)
  {
    hide FirstBlocked, WakeClient;
    WakeEffect(s, key);
    var s' := WakeClient(s, key);
    if key in s.queues {
      var queue := s.queues[key];
      var f := FirstBlocked(queue, s.conns);
      if f < |queue| {
        assert Loyal(s.conns, queue[f], key);
      }
      forall k, i | k in s'.queues && 0 <= i < |s'.queues[k]| ensures Loyal(s'.conns, s'.queues[k][i], k) {
        if k == key {
          assert Loyal(s.conns, queue[f + 1 + i], k);
        } else {
          assert Loyal(s.conns, s.queues[k][i], k);
        }
      }
    }
  }

  lemma TimeoutsSettled(s: State, now: int)
    requires Settled(s)
    ensures Settled(CleanupBlocked(s, now))
  {
    var s' := CleanupBlocked(s, now);
    var n := Due(s.timeouts, now);
    TimeOutAllEffect(s.(timeouts := s.timeouts[n..]), s.timeouts[..n], 0);
    forall k, i | k in s'.queues && 0 <= i < |s'.queues[k]| ensures Loyal(s'.conns, s'.queues[k][i], k) {
      TimeOutAllEffect(s.(timeouts := s.timeouts[n..]), s.timeouts[..n], s.queues[k][i]);
      assert Loyal(s.conns, s.queues[k][i], k);
    }
  }

  /** Starting to wait keeps queues settled exactly when no other queue names the client. */
  lemma RegisterSettled(s: State, tok: Token, key: Key, timeout: Option<nat>, now: int)
    requires Settled(s) && tok in s.conns && !s.conns[tok].blocked
    ensures Settled(Register(s, tok, key, timeout, now)) <==>
            forall k :: k in s.queues && k != key ==> tok !in s.queues[k]
    ensures forall t :: Blocked(s.conns, t) ==> Blocked(Register(s, tok, key, timeout, now).conns, t)
  {
    hide PushHeap;
    var s' := Register(s, tok, key, timeout, now);
    if k :| k in s.queues && k != key && tok in s.queues[k] {
      var i :| 0 <= i < |s.queues[k]| && s.queues[k][i] == tok;
      assert !Loyal(s'.conns, s'.queues[k][i], k);
    } else {
      forall k, i | k in s'.queues && 0 <= i < |s'.queues[k]| ensures Loyal(s'.conns, s'.queues[k][i], k) {
        if k in s.queues && i < |s.queues[k]| {
          assert Loyal(s.conns, s.queues[k][i], k);
        }
      }
    }
  }

  /** Whatever the event, timeouts and disconnects included: queues stay settled exactly when the event
      is no stale block, and a client is only freed by a push onto its own key or by a timeout event.
      Whether that timeout is its own is the subject of module Deadlines. */
  lemma StepSettled(s: State, ev: Event, now: int)
    requires Settled(s) && Step(s, ev, now).Some?
    ensures Settled(Step(s, ev, now).value) <==> !StaleBlock(s, ev)
    ensures forall tok :: Freed(s, Step(s, ev, now).value, tok) ==>
                            || ev.Timeouts?
                            || (ev.Request? && (ev.cmd.RPush? || ev.cmd.LPush?)
                                && s.conns[tok].blockKey == Some(ev.cmd.key))
  {
    hide Exec, WakeClient, Register;
    match ev
    case Accept(tok) =>
      forall k, i | k in s.queues && 0 <= i < |s.queues[k]| ensures Loyal(s.conns, s.queues[k][i], k) {}
    case Close(tok) =>
      forall k, i | k in s.queues && 0 <= i < |s.queues[k]| ensures Loyal(s.conns - {tok}, s.queues[k][i], k) {
        assert Loyal(s.conns, s.queues[k][i], k);
      }
    case Request(tok, cmd) =>
      BlocksWhen(s.db, cmd, now);
      if tok in s.conns && !s.conns[tok].blocked {
        var out := Exec(s.db, cmd, now);
        if out.Done? {
          WrittenSettled(s, tok, cmd, out.db, out.reply, now);
          WakeSettled(WrittenReply(s, tok, cmd, out.db, out.reply, now), cmd.key);
        } else {
          RegisterSettled(s, tok, cmd.key, cmd.timeout, now);
        }
      }
    case Sweep =>
      forall k, i | k in s.queues && 0 <= i < |s.queues[k]| ensures Loyal(s.conns, s.queues[k][i], k) {}
    case Timeouts => TimeoutsSettled(s, now);
  }

  lemma WrittenSettled(s: State, tok: Token, cmd: Command, db: DB, reply: Reply, now: int)
    requires Settled(s)
    ensures Settled(WrittenReply(s, tok, cmd, db, reply, now))
  {
    hide PushHeap;
    forall k, i | k in s.queues && 0 <= i < |s.queues[k]| ensures Loyal(s.conns, s.queues[k][i], k) {}
  }

  lemma InitialSettled()
    ensures Settled(INITIAL)
  {
  }

  // ---- whole runs ----

  /** No step of the run is a stale block. */
  ghost predicate NoStaleBlock(s: State, events: seq<(int, Event)>)
    decreases events
  {
    |events| == 0
    || (!StaleBlock(s, events[0].1)
        && (Step(s, events[0].1, events[0].0).Some? ==>
              NoStaleBlock(Step(s, events[0].1, events[0].0).value, events[1..])))
  }

  /** No step of the run frees a client by a push onto a key it does not wait for. */
  ghost predicate OwnKeyOnly(s: State, events: seq<(int, Event)>)
    decreases events
  {
    |events| == 0
    || (!WrongWake(s, events[0].1, events[0].0)
        && (Step(s, events[0].1, events[0].0).Some? ==>
              OwnKeyOnly(Step(s, events[0].1, events[0].0).value, events[1..])))
  }

  lemma {:induction false} RunSettled(s: State, events: seq<(int, Event)>)
    requires Settled(s) && NoStaleBlock(s, events)
    ensures OwnKeyOnly(s, events)
    ensures Run(s, events).Some? ==> Settled(Run(s, events).value)
    decreases events
  {
    hide Step, Settled, StaleBlock;
    if |events| == 0 {
    } else if Step(s, events[0].1, events[0].0).Some? {
      StepSettled(s, events[0].1, events[0].0);
      RunSettled(Step(s, events[0].1, events[0].0).value, events[1..]);
    }
  }

  // ---- the condition is exact ----

  /** From here on, as long as nobody waits with a stale entry elsewhere, pushes only free clients
      that wait for their key. */
  ghost predicate Harmless(s: State, now: int)
  {
    forall events :: InOrder(events, now) && NoStaleBlock(s, events) ==> OwnKeyOnly(s, events)
  }

  /** Pushing the item n times, one request after another. */
  function Pushes(p: Token, key: Key, x: Item, now: int, n: nat): seq<(int, Event)>
  {
    if n == 0 then [] else [(now, Request(p, RPush(key, [x])))] + Pushes(p, key, x, now, n - 1)
  }

  /** What a push by a free client does to connections and queues. */
  lemma PushStep(s: State, p: Token, key: Key, x: Item, now: int)
    requires p in s.conns && !s.conns[p].blocked
    ensures var push := Request(p, RPush(key, [x]));
            && Step(s, push, now).Some?
            && var s' := Step(s, push, now).value;
            && s'.conns == WakeClient(s, key).conns && s'.queues == WakeClient(s, key).queues
  {
    hide FirstBlocked, WakeClient, PushHeap;
    var out := Push(s.db, key, [x], false);
    var s1 := WrittenReply(s, p, RPush(key, [x]), out.db, out.reply, now);
    WakeEffect(s, key);
    WakeEffect(s1, key);
  }

  /** Behind an entry whose client waits for another key, enough pushes free that client, or another
      one that does not wait for the key either. */
  lemma {:induction false} PushesReach(s: State, p: Token, key: Key, i: nat, x: Item, now: int) returns (n: nat)
    requires p in s.conns && !s.conns[p].blocked
    requires key in s.queues && i < |s.queues[key]| && !Loyal(s.conns, s.queues[key][i], key)
    ensures var events := Pushes(p, key, x, now, n);
            InOrder(events, now) && NoStaleBlock(s, events) && !OwnKeyOnly(s, events)
    decreases i
  {
    hide Step, WakeClient, FirstBlocked;
    var queue := s.queues[key];
    var push := Request(p, RPush(key, [x]));
    var f := FirstBlocked(queue, s.conns);
    assert f <= i;
    PushStep(s, p, key, x, now);
    WakeEffect(s, key);
    var s' := Step(s, push, now).value;
    var m: nat := 0;
    if Loyal(s.conns, queue[f], key) {
      assert f < i && queue[f] != queue[i];
      assert s'.queues[key][i - f - 1] == queue[i];
      m := PushesReach(s', p, key, i - f - 1, x, now);
    } else {
      assert Freed(s, s', queue[f]);
      assert WrongWake(s, push, now);
    }
    n := m + 1;
    var events := Pushes(p, key, x, now, n);
    assert events[0] == (now, push) && events[1..] == Pushes(p, key, x, now, m);
  }

  lemma {:induction false} FreshToken(conns: set<Token>) returns (p: Token)
    ensures forall t :: t in conns ==> t < p
  {
    if conns == {} {
      p := 0;
    } else {
      var t :| t in conns;
      var rest := FreshToken(conns - {t});
      p := if t < rest then rest else t + 1;
      assert forall u :: u in conns ==> u == t || u in conns - {t};
    }
  }

  /** Settled queues are exactly what keeps later pushes from freeing a client that waits for another
      key: otherwise a new connection and a few pushes are enough. */
  lemma SettledIffHarmless(s: State, now: int)
    ensures Settled(s) <==> Harmless(s, now)
  {
    if Settled(s) {
      forall events | InOrder(events, now) && NoStaleBlock(s, events) ensures OwnKeyOnly(s, events) {
        RunSettled(s, events);
      }
    } else {
      var key, i :| key in s.queues && 0 <= i < |s.queues[key]| && !Loyal(s.conns, s.queues[key][i], key);
      var p := FreshToken(s.conns.Keys);
      var s1 := s.(conns := s.conns[p := FREE]);
      assert Step(s, Accept(p), now) == Some(s1);
      assert !Loyal(s1.conns, s1.queues[key][i], key);
      var n := PushesReach(s1, p, key, i, [], now);
      hide Step, Settled;
      var events := [(now, Accept(p))] + Pushes(p, key, [], now, n);
      assert events[1..] == Pushes(p, key, [], now, n);
      assert InOrder(events, now) && NoStaleBlock(s, events) && !OwnKeyOnly(s, events);
    }
  }

  /** Every state the run passes through is harmless. */
  ghost predicate AlwaysHarmless(s: State, events: seq<(int, Event)>, now: int)
    decreases events
  {
    && Harmless(s, now)
    && (|events| == 0
        || (Step(s, events[0].1, events[0].0).Some? ==>
              AlwaysHarmless(Step(s, events[0].1, events[0].0).value, events[1..], events[0].0)))
  }

  /** A run of the server can never be led to free a client by a push onto a key it does not wait for
      if and only if no client of the run ever waits while another key's queue still names it. */
  lemma {:induction false} WokenByOwnKey(s: State, events: seq<(int, Event)>, now: int)
    requires Settled(s) && Run(s, events).Some?
    ensures AlwaysHarmless(s, events, now) <==> NoStaleBlock(s, events)
    decreases events
  {
    hide Step, Settled, StaleBlock, Harmless;
    SettledIffHarmless(s, now);
    if |events| == 0 {
    } else {
      var s' := Step(s, events[0].1, events[0].0).value;
      StepSettled(s, events[0].1, events[0].0);
      SettledIffHarmless(s', events[0].0);
      if Settled(s') {
        WokenByOwnKey(s', events[1..], events[0].0);
      }
    }
  }

  /** What this says of the program, which starts empty. */
  lemma WokenByOwnKeyFromStart(events: seq<(int, Event)>, now: int)
    requires Run(INITIAL, events).Some?
    ensures AlwaysHarmless(INITIAL, events, now) <==> NoStaleBlock(INITIAL, events)
    ensures NoStaleBlock(INITIAL, events) ==> OwnKeyOnly(INITIAL, events)
  {
    InitialSettled();
    WokenByOwnKey(INITIAL, events, now);
    if NoStaleBlock(INITIAL, events) {
      RunSettled(INITIAL, events);
    }
  }

  // ---- a stale block in a run of the program ----

  predicate WaitsFor(conns: map<Token, Conn>, tok: Token, key: Key)
  {
    Blocked(conns, tok) && conns[tok].blockKey == Some(key)
  }

  /** A server with an empty keyspace and one connection. */
  function Queued(queues: map<Key, seq<Token>>, conn: Conn, timeouts: seq<(int, Token)>,
                  log: seq<(Token, Reply)>): State
  {
    State(map[], [], map[1 := conn], queues, timeouts, log)
  }

  function WaitingFirst(a: Key): State
  {
    Queued(map[a := [1]], Conn(true, Some(a), Some(5)), [(5, 1)], [])
  }

  function TimedOut(a: Key): State
  {
    Queued(map[a := [1]], FREE, [], [(1, NilArray)])
  }

  function WaitingSecond(a: Key, b: Key): State
  {
    Queued(map[a := [1], b := [1]], Conn(true, Some(b), None), [], [(1, NilArray)])
  }

  lemma FirstWait(a: Key)
    ensures Step(Queued(map[], FREE, [], []), Request(1, BLPop(a, Some(5))), 0) == Some(WaitingFirst(a))
  {
    var r := Register(Queued(map[], FREE, [], []), 1, a, Some(5), 0);
    var none: seq<Token> := [];
    assert none + [1] == [1];
    assert r.timeouts == [(5, 1)];
    assert r.conns == WaitingFirst(a).conns;
  }

  lemma ThenTimeout(a: Key)
    ensures Step(WaitingFirst(a), Timeouts, 5) == Some(TimedOut(a))
  {
    var heap: seq<(int, Token)> := [(5, 1)];
    assert heap[1..] == [] && Due(heap, 5) == 1 && heap[..1] == heap;
    var s := WaitingFirst(a).(timeouts := []);
    assert TimeOutAll(s, heap) == TimeOutAll(TimeOut(s, 1), []);
    assert TimeOut(s, 1) == TimedOut(a);
  }

  /** Closing the connection and accepting the next one under its token leaves the queue entry. */
  lemma ThenReconnect(a: Key)
    ensures var gone := TimedOut(a).(conns := map[]);
            Step(TimedOut(a), Close(1), 5) == Some(gone) && Step(gone, Accept(1), 5) == Some(TimedOut(a))
  {
    var none: map<Token, Conn> := map[];
    assert TimedOut(a).conns - {1} == none && none[1 := FREE] == TimedOut(a).conns;
  }

  lemma ThenOtherWait(a: Key, b: Key)
    requires a != b
    ensures Step(TimedOut(a), Request(1, BLPop(b, None)), 6) == Some(WaitingSecond(a, b))
  {
    var r := Register(TimedOut(a), 1, b, None, 6);
    var none: seq<Token> := [];
    assert none + [1] == [1];
    assert r.conns == WaitingSecond(a, b).conns;
  }

  lemma ThenPush(s: State, a: Key, x: Item)
    requires s.db == map[] && a in s.queues && s.queues[a] == [1] && Blocked(s.conns, 1)
    requires 2 in s.conns && !s.conns[2].blocked
    ensures Step(s, Request(2, RPush(a, [x])), 7).Some?
    ensures var s' := Step(s, Request(2, RPush(a, [x])), 7).value;
            !Blocked(s'.conns, 1) && s'.log == s.log + [(2, Count(1)), (1, Handed(a, x))]
  {
    var out := Push(map[], a, [x], false);
    assert out == Done(map[a := Entry(VList([x]), None)], Count(1)) by { assert [] + [x] == [x]; }
    assert FirstBlocked([1], s.conns) == 0;
    var s1 := WrittenReply(s, 2, RPush(a, [x]), out.db, out.reply, 7);
    var s' := WakeClient(s1, a);
    assert s'.log == s1.log + [(1, Handed(a, x))];
  }

  /** A client blocks on a key and times out; its connection closes, and the next one is given its
      token and waits for another key: a push onto the first key wakes it and hands it that item. */
  lemma StaleTokenWakes(a: Key, b: Key, x: Item)
    requires a != b
    ensures var setup := [(0, Accept(1)), (0, Request(1, BLPop(a, Some(5)))), (5, Timeouts), (5, Close(1)),
                          (5, Accept(1)), (6, Request(1, BLPop(b, None))), (6, Accept(2))];
            && InOrder(setup, 0) && Run(INITIAL, setup).Some?
            && var s := Run(INITIAL, setup).value;
            && WaitsFor(s.conns, 1, b)
            && Step(s, Request(2, RPush(a, [x])), 7).Some?
            && var s' := Step(s, Request(2, RPush(a, [x])), 7).value;
            && !Blocked(s'.conns, 1)
            && s'.log == s.log + [(2, Count(1)), (1, Handed(a, x))]
  {
    hide Handle, Run, CleanupBlocked;
    var setup := [(0, Accept(1)), (0, Request(1, BLPop(a, Some(5)))), (5, Timeouts), (5, Close(1)),
                  (5, Accept(1)), (6, Request(1, BLPop(b, None))), (6, Accept(2))];
    FirstWait(a);
    ThenTimeout(a);
    ThenReconnect(a);
    ThenOtherWait(a, b);
    var s1, s6 := Queued(map[], FREE, [], []), WaitingSecond(a, b);
    var gone := TimedOut(a).(conns := map[]);
    var s7 := s6.(conns := s6.conns[2 := FREE]);
    var states := [INITIAL, s1, WaitingFirst(a), TimedOut(a), gone, TimedOut(a), s6, s7];
    TimesAscend(setup, 0);
    RunThrough(states, setup);
    ThenPush(s7, a, x);
  }
}
