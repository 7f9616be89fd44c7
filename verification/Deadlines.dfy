/** Whether a client is timed out at its own deadline: not always, because timeout entries go stale. */
module Deadlines {
  import opened Bytes
  import opened Heap
  import opened Keyspace
  import opened Server
  import opened Waiting

  /** No deadline is never over. */
  predicate Over(deadline: Option<int>, t: int)
  {
    deadline.Some? && deadline.value <= t
  }

  /** A timeout entry does no harm from now on: whenever it is popped, its client is free or overdue. */
  predicate OnTime(s: State, e: (int, Token), now: int)
  {
    Blocked(s.conns, e.1) ==> Over(s.conns[e.1].deadline, e.0) || Over(s.conns[e.1].deadline, now)
  }

  ghost predicate Timely(s: State, now: int)
  {
    forall e :: e in s.timeouts ==> OnTime(s, e, now)
  }

  function DeadlineOf(cmd: Command, now: int): Option<int>
    requires cmd.BLPop?
  {
    if cmd.timeout.Some? then Some(now + cmd.timeout.value) else None
  }

  /** A client starts to wait while the heap holds an entry of its token that comes due before its new
      deadline, or ever if it has none. */
  ghost predicate StaleTimer(s: State, ev: Event, now: int)
  {
    Waits(s, ev) && !Over(DeadlineOf(ev.cmd, now), now)
    && exists t :: (t, ev.tok) in s.timeouts && !Over(DeadlineOf(ev.cmd, now), t)
  }

  /** Some client is timed out although its deadline is not over. */
  ghost predicate Early(s: State, ev: Event, now: int)
  {
    ev.Timeouts? && exists tok :: Freed(s, CleanupBlocked(s, now), tok) && !Over(s.conns[tok].deadline, now)
  }

  // ---- one step ----

  /** What a drain does: it frees exactly the blocked clients with an entry that has come due. */
  lemma DrainEffect(s: State, now: int, tok: Token)
    ensures var s' := CleanupBlocked(s, now);
            && s'.timeouts == s.timeouts[Due(s.timeouts, now)..]
            && (tok in s'.conns <==> tok in s.conns)
            && (tok in s.conns ==>
                  s'.conns[tok] ==
                  if s.conns[tok].blocked && (exists t :: (t, tok) in s.timeouts[..Due(s.timeouts, now)]) then FREE
                  else s.conns[tok])
  {
    var n := Due(s.timeouts, now);
    TimeOutAllEffect(s.(timeouts := s.timeouts[n..]), s.timeouts[..n], tok);
  }

  lemma DrainTimely(s: State, start: int, now: int)
    requires Timely(s, start) && start <= now
    ensures Timely(CleanupBlocked(s, now), now)
    ensures !Early(s, Timeouts, now)
  {
    hide CleanupBlocked;
    var s' := CleanupBlocked(s, now);
    var n := Due(s.timeouts, now);
    DrainEffect(s, now, 0);
    forall e | e in s'.timeouts ensures OnTime(s', e, now) {
      DrainEffect(s, now, e.1);
      assert e in s.timeouts && OnTime(s, e, start);
    }
    forall tok | Freed(s, s', tok) ensures Over(s.conns[tok].deadline, now) {
      DrainEffect(s, now, tok);
      var t :| (t, tok) in s.timeouts[..n];
      var i :| 0 <= i < n && s.timeouts[i] == (t, tok);
      assert OnTime(s, s.timeouts[i], start);
    }
  }

  lemma RegisterTimely(s: State, ev: Event, start: int, now: int)
    requires Inv(s) && Timely(s, start) && start <= now && Waits(s, ev)
    ensures Timely(Register(s, ev.tok, ev.cmd.key, ev.cmd.timeout, now), now) <==> !StaleTimer(s, ev, now)
  {
    hide PushHeap, ByTime, OnlyStringsExpire, ExpiriesCovered;
    assert ConnOk(s, ev.tok);
    var s' := Register(s, ev.tok, ev.cmd.key, ev.cmd.timeout, now);
    var deadline := DeadlineOf(ev.cmd, now);
    if deadline.Some? {
      PushKeepsOrder(s.timeouts, (deadline.value, ev.tok), GreaterToken);
    }
    if t :| (t, ev.tok) in s.timeouts && !Over(deadline, t) && !Over(deadline, now) {
      assert (t, ev.tok) in s'.timeouts && !OnTime(s', (t, ev.tok), now);
    } else {
      forall e | e in s'.timeouts ensures OnTime(s', e, now) {
        assert e in s.timeouts ==> OnTime(s, e, start);
        assert e == (e.0, e.1);
      }
    }
  }

  /** Entries stay timely when clients are freed, closed or accepted and entries are dropped. */
  lemma FewerTimely(s: State, s': State, start: int, now: int)
    requires Timely(s, start) && start <= now && s'.timeouts == s.timeouts
    requires forall tok :: Blocked(s'.conns, tok) ==> Blocked(s.conns, tok) && s'.conns[tok] == s.conns[tok]
    ensures Timely(s', now)
  {
    forall e | e in s'.timeouts ensures OnTime(s', e, now) {
      assert OnTime(s, e, start);
    }
  }

  /** Whatever the event: entries stay timely exactly when the event is no stale timer, and no client is
      timed out before its deadline. */
  lemma StepTimely(s: State, ev: Event, start: int, now: int)
    requires Inv(s) && Timely(s, start) && start <= now && Step(s, ev, now).Some?
    ensures Timely(Step(s, ev, now).value, now) <==> !StaleTimer(s, ev, now)
    ensures !Early(s, ev, now)
  {
    hide Exec, WakeClient, Register, Timely, CleanupBlocked, Inv, PushHeap;
    var s' := Step(s, ev, now).value;
    if ev.Timeouts? {
      DrainTimely(s, start, now);
    } else if Waits(s, ev) {
      BlocksWhen(s.db, ev.cmd, now);
      RegisterTimely(s, ev, start, now);
    } else {
      if ev.Request? {
        BlocksWhen(s.db, ev.cmd, now);
        if Exec(s.db, ev.cmd, now).Done? {
          var out := Exec(s.db, ev.cmd, now);
          WakeFrees(WrittenReply(s, ev.tok, ev.cmd, out.db, out.reply, now), ev.cmd.key);
        }
      }
      FewerTimely(s, s', start, now);
    }
  }

  lemma WakeFrees(s: State, key: Key)
    ensures var s' := WakeClient(s, key);
            && s'.timeouts == s.timeouts
            && forall tok :: Blocked(s'.conns, tok) ==> Blocked(s.conns, tok) && s'.conns[tok] == s.conns[tok]
  {
    hide FirstBlocked;
    WakeEffect(s, key);
  }

  lemma InitialTimely(now: int)
    ensures Timely(INITIAL, now)
  {
  }

  /** With neither kind of stale entry, a client is freed for one of the two right reasons: a push onto
      the key it waits for, or the end of its own deadline. */
  lemma FreedForAReason(s: State, ev: Event, start: int, now: int, tok: Token)
    requires Inv(s) && Settled(s) && Timely(s, start) && start <= now && Step(s, ev, now).Some?
    requires Freed(s, Step(s, ev, now).value, tok)
    ensures || (ev.Timeouts? && Over(s.conns[tok].deadline, now))
            || (ev.Request? && (ev.cmd.RPush? || ev.cmd.LPush?) && s.conns[tok].blockKey == Some(ev.cmd.key))
  {
    hide Inv, Settled, Timely, Exec, Handle, CleanupBlocked, CleanupExpired;
    StepSettled(s, ev, now);
    StepTimely(s, ev, start, now);
  }

  // ---- whole runs ----

  /** No step of the run is a stale timer. */
  ghost predicate NoStaleTimer(s: State, events: seq<(int, Event)>)
    decreases events
  {
    |events| == 0
    || (!StaleTimer(s, events[0].1, events[0].0)
        && (Step(s, events[0].1, events[0].0).Some? ==>
              NoStaleTimer(Step(s, events[0].1, events[0].0).value, events[1..])))
  }

  /** No step of the run times a client out before its deadline. */
  ghost predicate NeverEarly(s: State, events: seq<(int, Event)>)
    decreases events
  {
    |events| == 0
    || (!Early(s, events[0].1, events[0].0)
        && (Step(s, events[0].1, events[0].0).Some? ==>
              NeverEarly(Step(s, events[0].1, events[0].0).value, events[1..])))
  }

  lemma {:induction false} RunTimely(s: State, events: seq<(int, Event)>, start: int)
    requires Inv(s) && Timely(s, start) && InOrder(events, start) && NoStaleTimer(s, events)
    ensures NeverEarly(s, events)
    decreases events
  {
    hide Step, Inv, Timely, StaleTimer, Early;
    if |events| == 0 {
    } else {
      var (now, ev) := events[0];
      if Step(s, ev, now).Some? {
        StepTimely(s, ev, start, now);
        StepInv(s, ev, now);
        RunTimely(Step(s, ev, now).value, events[1..], now);
      } else {
        assert !Early(s, ev, now) by { TimeoutsNeverPanic(s, ev, now); }
      }
    }
  }

  lemma TimeoutsNeverPanic(s: State, ev: Event, now: int)
    requires Step(s, ev, now).None?
    ensures !Early(s, ev, now)
  {
  }

  // ---- the condition is exact ----

  /** From here on, as long as nobody waits with a stale entry in the heap, nobody is timed out early. */
  ghost predicate Punctual(s: State, now: int)
  {
    forall events :: InOrder(events, now) && NoStaleTimer(s, events) ==> NeverEarly(s, events)
  }

  lemma EarlyDrain(s: State, now: int, e: (int, Token), t: int)
    requires Inv(s) && e in s.timeouts && !OnTime(s, e, now)
    requires t == if e.0 < now then now else e.0
    ensures Early(s, Timeouts, t)
  {
    DueAll(s.timeouts, t, e);
    DrainEffect(s, t, e.1);
    assert (e.0, e.1) == e;
    assert Freed(s, CleanupBlocked(s, t), e.1);
  }

  lemma EarlyAtOnce(s: State, events: seq<(int, Event)>)
    requires |events| == 1 && Early(s, events[0].1, events[0].0)
    ensures NoStaleTimer(s, events) && !NeverEarly(s, events)
  {
    hide Step, Early;
    assert events[0].1.Timeouts? by { EarlyIsTimeouts(s, events[0].1, events[0].0); }
  }

  lemma EarlyIsTimeouts(s: State, ev: Event, now: int)
    requires Early(s, ev, now)
    ensures ev.Timeouts?
  {
  }

  /** Timely entries are exactly what keeps later drains from timing a client out early: otherwise the
      drain at the time of the entry does. */
  lemma TimelyIffPunctual(s: State, now: int)
    requires Inv(s)
    ensures Timely(s, now) <==> Punctual(s, now)
  {
    if Timely(s, now) {
      forall events | InOrder(events, now) && NoStaleTimer(s, events) ensures NeverEarly(s, events) {
        RunTimely(s, events, now);
      }
    } else {
      var e :| e in s.timeouts && !OnTime(s, e, now);
      var t := if e.0 < now then now else e.0;
      EarlyDrain(s, now, e, t);
      var events := [(t, Timeouts)];
      EarlyAtOnce(s, events);
      assert InOrder(events, now) && !NeverEarly(s, events);
    }
  }

  /** Every state the run passes through is punctual. */
  ghost predicate AlwaysPunctual(s: State, events: seq<(int, Event)>, now: int)
    decreases events
  {
    && Punctual(s, now)
    && (|events| == 0
        || (Step(s, events[0].1, events[0].0).Some? ==>
              AlwaysPunctual(Step(s, events[0].1, events[0].0).value, events[1..], events[0].0)))
  }

  /** A run of the server can never be led to time a client out early if and only if no client of the run
      starts to wait while the heap holds an entry of its token that comes due before its deadline. */
  lemma {:induction false} TimedOutOnTime(s: State, events: seq<(int, Event)>, start: int)
    requires Inv(s) && Timely(s, start) && InOrder(events, start) && Run(s, events).Some?
    ensures AlwaysPunctual(s, events, start) <==> NoStaleTimer(s, events)
    decreases events
  {
    hide Step, Inv, Timely, StaleTimer, Punctual, Early;
    TimelyIffPunctual(s, start);
    if |events| == 0 {
    } else {
      var (now, ev) := events[0];
      var s' := Step(s, ev, now).value;
      StepInv(s, ev, now);
      StepTimely(s, ev, start, now);
      TimelyIffPunctual(s', now);
      if Timely(s', now) {
        TimedOutOnTime(s', events[1..], now);
      }
    }
  }

  /** What this says of the program, which starts empty. */
  lemma TimedOutOnTimeFromStart(events: seq<(int, Event)>, start: int)
    requires InOrder(events, start) && Run(INITIAL, events).Some?
    ensures AlwaysPunctual(INITIAL, events, start) <==> NoStaleTimer(INITIAL, events)
    ensures NoStaleTimer(INITIAL, events) ==> NeverEarly(INITIAL, events)
  {
    InitialInv();
    InitialTimely(start);
    TimedOutOnTime(INITIAL, events, start);
    if NoStaleTimer(INITIAL, events) {
      RunTimely(INITIAL, events, start);
    }
  }

  // ---- a stale timer in a run of the program ----

  /** A server with two connections, the second one free. */
  function Two(db: DB, first: Conn, queues: map<Key, seq<Token>>, timeouts: seq<(int, Token)>,
               log: seq<(Token, Reply)>): State
  {
    State(db, [], map[1 := first, 2 := FREE], queues, timeouts, log)
  }

  function Asked(a: Key): State
  {
    Two(map[], Conn(true, Some(a), Some(5)), map[a := [1]], [(5, 1)], [])
  }

  function Served(a: Key, x: Item): State
  {
    Two(map[a := Entry(VList([]), None)], FREE, map[a := []], [(5, 1)], [(2, Count(1)), (1, Handed(a, x))])
  }

  function AskedAgain(a: Key, x: Item): State
  {
    Served(a, x).(conns := map[1 := Conn(true, Some(a), Some(7)), 2 := FREE], queues := map[a := [1]],
                  timeouts := [(5, 1), (7, 1)])
  }

  lemma TwoAccepted()
    ensures Step(INITIAL, Accept(1), 0) == Some(INITIAL.(conns := map[1 := FREE]))
    ensures Step(INITIAL.(conns := map[1 := FREE]), Accept(2), 0) == Some(Two(map[], FREE, map[], [], []))
  {
  }

  lemma ThenAsks(a: Key)
    ensures Step(Two(map[], FREE, map[], [], []), Request(1, BLPop(a, Some(5))), 0) == Some(Asked(a))
  {
    var r := Register(Two(map[], FREE, map[], [], []), 1, a, Some(5), 0);
    var none: seq<Token> := [];
    assert none + [1] == [1];
    assert r.timeouts == [(5, 1)];
    assert r.conns == Asked(a).conns;
  }

  lemma ThenServed(a: Key, x: Item)
    ensures Step(Asked(a), Request(2, RPush(a, [x])), 1) == Some(Served(a, x))
  {
    hide WakeClient;
    var out := Push(map[], a, [x], false);
    assert out == Done(map[a := Entry(VList([x]), None)], Count(1)) by { assert [] + [x] == [x]; }
    var s1 := WrittenReply(Asked(a), 2, RPush(a, [x]), out.db, out.reply, 1);
    assert s1 == Asked(a).(db := map[a := Entry(VList([x]), None)], log := [(2, Count(1))]);
    ThenHanded(a, x);
  }

  lemma ThenHanded(a: Key, x: Item)
    ensures WakeClient(Asked(a).(db := map[a := Entry(VList([x]), None)], log := [(2, Count(1))]), a) == Served(a, x)
  {
    var s := Asked(a).(db := map[a := Entry(VList([x]), None)], log := [(2, Count(1))]);
    var queue: seq<Token> := [1];
    assert FirstBlocked(queue, s.conns) == 0 && queue[1..] == [];
    assert [x][1..] == [];
    var s' := WakeClient(s, a);
    assert s'.db == Served(a, x).db && s'.conns == Served(a, x).conns && s'.queues == Served(a, x).queues;
    assert s'.log == Served(a, x).log;
  }

  lemma ThenAsksAgain(a: Key, x: Item)
    ensures Step(Served(a, x), Request(1, BLPop(a, Some(5))), 2) == Some(AskedAgain(a, x))
  {
    var r := Register(Served(a, x), 1, a, Some(5), 2);
    var none: seq<Token> := [];
    var heap: seq<(int, Token)> := [(5, 1)];
    assert none + [1] == [1];
    assert heap[1..] == [];
    assert PushHeap(heap[1..], (7, 1), GreaterToken) == [(7, 1)];
    assert r.timeouts == [(5, 1)] + [(7, 1)];
    assert r.conns == AskedAgain(a, x).conns;
    assert r.queues == AskedAgain(a, x).queues;
    assert r == AskedAgain(a, x);
    assert BlockingPop(Served(a, x).db, a) == Blocks;
  }

  /** A client blocks on a key for 5 ms, is served after 1, and sends the same command again after 2: at 5,
      although its new deadline is 7, it is freed and told that nothing came. */
  lemma StaleTimerFires(a: Key, x: Item)
    ensures var ask := Request(1, BLPop(a, Some(5)));
            var setup := [(0, Accept(1)), (0, Accept(2)), (0, ask), (1, Request(2, RPush(a, [x]))), (2, ask)];
            && InOrder(setup, 0) && Run(INITIAL, setup).Some?
            && var s := Run(INITIAL, setup).value;
            && Blocked(s.conns, 1) && s.conns[1].deadline == Some(7)
            && Early(s, Timeouts, 5)
            && var s' := CleanupBlocked(s, 5);
            && !Blocked(s'.conns, 1) && s'.log == s.log + [(1, NilArray)]
  {
    hide Handle, Run, CleanupBlocked, Early;
    var ask := Request(1, BLPop(a, Some(5)));
    var setup := [(0, Accept(1)), (0, Accept(2)), (0, ask), (1, Request(2, RPush(a, [x]))), (2, ask)];
    TwoAccepted();
    ThenAsks(a);
    ThenServed(a, x);
    ThenAsksAgain(a, x);
    var states := [INITIAL, INITIAL.(conns := map[1 := FREE]), Two(map[], FREE, map[], [], []), Asked(a),
                   Served(a, x), AskedAgain(a, x)];
    TimesAscend(setup, 0);
    RunThrough(states, setup);
    ThenFires(a, x);
  }

  lemma ThenFires(a: Key, x: Item)
    ensures var s := AskedAgain(a, x);
            var s' := CleanupBlocked(s, 5);
            Early(s, Timeouts, 5) && !Blocked(s'.conns, 1) && s'.log == s.log + [(1, NilArray)]
  {
    var s := AskedAgain(a, x);
    var first: seq<(int, Token)> := [(5, 1)];
    assert s.timeouts[1..][0] == (7, 1) && Due(s.timeouts[1..], 5) == 0;
    assert Due(s.timeouts, 5) == 1 && s.timeouts[..1] == first && first[1..] == [];
    var s1 := s.(timeouts := s.timeouts[1..]);
    assert TimeOutAll(s1, first) == TimeOutAll(TimeOut(s1, 1), []);
    assert Freed(s, CleanupBlocked(s, 5), 1);
  }
}
