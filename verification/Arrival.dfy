/** Clients that wait for the same key are served in the order in which they began to wait. */
module Arrival {
  import opened Bytes
  import opened Heap
  import opened Keyspace
  import opened Server
  import opened Waiting

  // ---- beginning to wait ----

  function QueueOf(s: State, key: Key): seq<Token>
  {
    if key in s.queues then s.queues[key] else []
  }

  /** A client that begins to wait is marked with its key and deadline and goes to the end of the key's
      queue, behind all that are there; nothing else in the server changes but the timeout heap. */
  lemma WaitEffect(s: State, ev: Event, now: int)
    requires Inv(s) && Waits(s, ev)
    ensures Step(s, ev, now).Some?
    ensures var s' := Step(s, ev, now).value;
            var timeout := ev.cmd.timeout;
            && QueueOf(s', ev.cmd.key) == QueueOf(s, ev.cmd.key) + [ev.tok]
            && (forall k :: k != ev.cmd.key ==> QueueOf(s', k) == QueueOf(s, k))
            && s'.conns == s.conns[ev.tok := s'.conns[ev.tok]]
            && s'.conns[ev.tok].blocked && s'.conns[ev.tok].blockKey == Some(ev.cmd.key)
            && s'.conns[ev.tok].deadline == (if timeout.Some? then Some(now + timeout.value) else None)
            && s'.db == s.db && s'.expiries == s.expiries && s'.log == s.log
            && (forall e :: e in s'.timeouts <==>
                              e in s.timeouts || (timeout.Some? && e == (now + timeout.value, ev.tok)))
  {
    hide PushHeap, Exec, OnlyStringsExpire, ExpiriesCovered;
    BlocksWhen(s.db, ev.cmd, now);
    assert ConnOk(s, ev.tok);
    if ev.cmd.timeout.Some? {
      PushKeepsOrder(s.timeouts, (now + ev.cmd.timeout.value, ev.tok), GreaterToken);
    }
  }

  // ---- first come, first served ----

  /** In the key's queue the first client stands before any entry of the second. */
  predicate Ahead(s: State, key: Key, first: Token, second: Token)
  {
    exists i :: 0 <= i < |QueueOf(s, key)| && QueueOf(s, key)[i] == first && second !in QueueOf(s, key)[..i + 1]
  }

  /** A push does not free the second client while the first is blocked. */
  lemma WakeAhead(s: State, key: Key, woken: Key, first: Token, second: Token)
    requires Ahead(s, key, first, second) && Blocked(s.conns, first)
    ensures var s' := WakeClient(s, woken);
            && (woken == key ==> !Freed(s, s', second))
            && (Blocked(s'.conns, first) ==> Ahead(s', key, first, second))
  {
    hide FirstBlocked, WakeClient;
    WakeEffect(s, woken);
    var s' := WakeClient(s, woken);
    var queue := QueueOf(s, key);
    var i :| 0 <= i < |queue| && queue[i] == first && second !in queue[..i + 1];
    if woken == key {
      var f := FirstBlocked(queue, s.conns);
      assert f <= i && queue[f] == queue[..i + 1][f];
      if f < i && queue[f] != first {
        var rest := QueueOf(s', key);
        assert rest == queue[f + 1..];
        assert rest[i - f - 1] == first;
        assert forall j :: 0 <= j < i - f ==> rest[j] == queue[..i + 1][f + 1 + j];
      }
    } else {
      assert QueueOf(s', key) == queue;
    }
  }

  lemma RegisterAhead(s: State, tok: Token, asked: Key, timeout: Option<nat>, now: int, key: Key, first: Token,
                      second: Token)
    requires Ahead(s, key, first, second) && tok in s.conns
    ensures Ahead(Register(s, tok, asked, timeout, now), key, first, second)
  {
    hide PushHeap;
    var s' := Register(s, tok, asked, timeout, now);
    var queue := QueueOf(s, key);
    var i :| 0 <= i < |queue| && queue[i] == first && second !in queue[..i + 1];
    assert queue <= QueueOf(s', key);
    assert QueueOf(s', key)[..i + 1] == queue[..i + 1];
  }

  lemma SameQueue(s: State, s': State, key: Key, first: Token, second: Token)
    requires Ahead(s, key, first, second) && s'.queues == s.queues
    ensures Ahead(s', key, first, second)
  {
    assert QueueOf(s', key) == QueueOf(s, key);
  }

  predicate PushOnto(ev: Event, key: Key)
  {
    ev.Request? && (ev.cmd.RPush? || ev.cmd.LPush?) && ev.cmd.key == key
  }

  /** Whatever the step, the order stands as long as the first client is blocked, and no push onto the
      key frees the second one. */
  lemma StepAhead(s: State, ev: Event, now: int, key: Key, first: Token, second: Token)
    requires Ahead(s, key, first, second) && Blocked(s.conns, first) && Step(s, ev, now).Some?
    ensures var s' := Step(s, ev, now).value;
            && (PushOnto(ev, key) ==> !Freed(s, s', second))
            && (Blocked(s'.conns, first) ==> Ahead(s', key, first, second))
  {
    hide Exec, WakeClient, Register, Ahead, PushHeap;
    var s' := Step(s, ev, now).value;
    match ev
    case Accept(_) => SameQueue(s, s', key, first, second);
    case Close(_) => SameQueue(s, s', key, first, second);
    case Sweep => SameQueue(s, s', key, first, second);
    case Timeouts =>
      TimeOutAllEffect(s.(timeouts := s.timeouts[Due(s.timeouts, now)..]), s.timeouts[..Due(s.timeouts, now)], 0);
      SameQueue(s, s', key, first, second);
    case Request(tok, cmd) =>
      if tok in s.conns && !s.conns[tok].blocked {
        var out := Exec(s.db, cmd, now);
        if out.Done? {
          var s1 := WrittenReply(s, tok, cmd, out.db, out.reply, now);
          SameQueue(s, s1, key, first, second);
          WakeAhead(s1, key, cmd.key, first, second);
          assert Freed(s, s', second) ==> Freed(s1, s', second);
        } else {
          RegisterAhead(s, tok, cmd.key, if cmd.BLPop? then cmd.timeout else None, now, key, first, second);
          RegisterBlocks(s, tok, cmd.key, if cmd.BLPop? then cmd.timeout else None, now);
        }
      }
  }

  lemma RegisterBlocks(s: State, tok: Token, key: Key, timeout: Option<nat>, now: int)
    requires tok in s.conns && !s.conns[tok].blocked
    ensures forall t :: Blocked(s.conns, t) ==> Blocked(Register(s, tok, key, timeout, now).conns, t)
  {
    hide PushHeap;
  }

  /** The client is blocked at every point of the run but perhaps after its last step. */
  predicate StaysBlocked(s: State, events: seq<(int, Event)>, tok: Token)
    decreases events
  {
    |events| == 0
    || (Blocked(s.conns, tok)
        && (Step(s, events[0].1, events[0].0).Some? ==>
              StaysBlocked(Step(s, events[0].1, events[0].0).value, events[1..], tok)))
  }

  /** No step of the run frees the client by a push onto the key. */
  predicate NotServed(s: State, events: seq<(int, Event)>, key: Key, tok: Token)
    decreases events
  {
    |events| == 0
    || (Step(s, events[0].1, events[0].0).Some? ==>
          && (PushOnto(events[0].1, key) ==> !Freed(s, Step(s, events[0].1, events[0].0).value, tok))
          && NotServed(Step(s, events[0].1, events[0].0).value, events[1..], key, tok))
  }

  lemma {:induction false} RunAhead(s: State, events: seq<(int, Event)>, key: Key, first: Token, second: Token)
    requires |events| > 0 ==> Ahead(s, key, first, second)
    requires StaysBlocked(s, events, first)
    ensures NotServed(s, events, key, second)
    decreases events
  {
    hide Step, Ahead;
    if |events| == 0 {
    } else {
      var (now, ev) := events[0];
      if Step(s, ev, now).Some? {
        StepAhead(s, ev, now, key, first, second);
        RunAhead(Step(s, ev, now).value, events[1..], key, first, second);
      }
    }
  }

  /** First come, first served: when a client begins to wait for a key whose queue does not name another
      client, then through any events, as long as the first is blocked, no push onto the key serves the
      other, however and whenever that one begins to wait. */
  lemma FirstComeFirstServed(s: State, ask: Event, now: int, events: seq<(int, Event)>, other: Token)
    requires Inv(s) && Waits(s, ask) && other != ask.tok && other !in QueueOf(s, ask.cmd.key)
    requires Step(s, ask, now).Some? && StaysBlocked(Step(s, ask, now).value, events, ask.tok)
    ensures NotServed(Step(s, ask, now).value, events, ask.cmd.key, other)
  {
    hide Step, Inv;
    WaitEffect(s, ask, now);
    var s' := Step(s, ask, now).value;
    var queue := QueueOf(s', ask.cmd.key);
    var i := |queue| - 1;
    assert queue[i] == ask.tok && queue[..i + 1] == queue;
    assert Ahead(s', ask.cmd.key, ask.tok, other);
    RunAhead(s', events, ask.cmd.key, ask.tok, other);
  }
}
