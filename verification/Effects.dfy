/** What one command and one step leave alone, and who is written to. */
module Effects {
  import opened Bytes
  import opened Heap
  import opened Keyspace
  import opened Server
  import opened StreamId
  import opened Waiting
  import StreamSpec

  // ---- other keys ----

  predicate SameAt(db: DB, db': DB, k: Key)
  {
    (k in db' <==> k in db) && (k in db ==> db'[k] == db[k])
  }

  /** A command touches no key but its own. */
  lemma ExecFrame(db: DB, cmd: Command, now: int, k: Key)
    requires k != cmd.key && Exec(db, cmd, now).Done?
    ensures SameAt(db, Exec(db, cmd, now).db, k)
  {
    hide Reverse, Parse, Pairs, TopId, StreamSpec.Add, StreamSpec.GoodChunks;
  }

  /** Waking touches no key but its own, and that one only when it holds a list. */
  lemma WakeFrame(s: State, key: Key, k: Key)
    requires k != key || (k in s.db ==> !s.db[k].value.VList?)
    ensures SameAt(s.db, WakeClient(s, key).db, k)
  {
    hide FirstBlocked, StreamSpec.GoodChunks;
  }

  /** A command that fails changes nothing. */
  lemma FailedChangesNothing(db: DB, cmd: Command, now: int)
    requires Exec(db, cmd, now).Done? && Exec(db, cmd, now).reply.Failed?
    ensures Exec(db, cmd, now).db == db
  {
    hide Reverse, Parse, Pairs, TopId, StreamSpec.Add, StreamSpec.GoodChunks;
  }

  // ---- connections coming and going ----

  /** A new connection is free; a token in use is not given out again. */
  lemma AcceptEffect(s: State, tok: Token, now: int)
    ensures Step(s, Accept(tok), now).Some?
    ensures var s' := Step(s, Accept(tok), now).value;
            && tok in s'.conns && (tok in s.conns ==> s' == s)
            && (tok !in s.conns ==> s' == s.(conns := s'.conns) && s'.conns[tok] == Conn(false, None, None))
            && (forall t :: t != tok ==>
                  (t in s'.conns <==> t in s.conns) && (t in s.conns ==> s'.conns[t] == s.conns[t]))
  {
  }

  // ---- who hears what ----

  /** What a step appends to the log. */
  function News(s: State, s': State): seq<(Token, Reply)>
    requires s.log <= s'.log
  {
    s'.log[|s.log|..]
  }

  /** Exactly the freed clients are told, once each, that nothing came, and nobody is told anything else. */
  ghost predicate NilForEachFreed(s: State, s': State)
  {
    && s.log <= s'.log
    && var news := News(s, s');
    && (forall i :: 0 <= i < |news| ==> news[i].1 == NilArray && Freed(s, s', news[i].0))
    && (forall i, j :: 0 <= i < j < |news| ==> news[i].0 != news[j].0)
    && (forall tok :: Freed(s, s', tok) ==> Hears(news, tok))
  }

  predicate Hears(news: seq<(Token, Reply)>, tok: Token)
  {
    exists i :: 0 <= i < |news| && news[i].0 == tok
  }

  lemma DrainReplies(s: State, now: int)
    ensures NilForEachFreed(s, CleanupBlocked(s, now))
  {
    var n := Due(s.timeouts, now);
    var s1 := s.(timeouts := s.timeouts[n..]);
    var s' := CleanupBlocked(s, now);
    TimeOutReplies(s1, s.timeouts[..n]);
    assert News(s1, s') == News(s, s');
    forall tok | Freed(s, s', tok) ensures Freed(s1, s', tok) {}
  }

  lemma {:induction false} TimeOutReplies(s: State, popped: seq<(int, Token)>)
    ensures NilForEachFreed(s, TimeOutAll(s, popped))
    decreases popped
  {
    if |popped| == 0 {
    } else {
      var tok := popped[0].1;
      var s1 := TimeOut(s, tok);
      var s' := TimeOutAll(s1, popped[1..]);
      TimeOutReplies(s1, popped[1..]);
      TimeOutAllEffect(s1, popped[1..], tok);
      if Blocked(s.conns, tok) {
        OneMoreFreed(s, s1, s', tok);
      }
    }
  }

  lemma OneMoreFreed(s: State, s1: State, s': State, tok: Token)
    requires NilForEachFreed(s1, s') && Blocked(s.conns, tok)
    requires s1.log == s.log + [(tok, NilArray)] && s1.conns == s.conns[tok := FREE]
    requires tok in s'.conns && s'.conns[tok] == FREE
    ensures NilForEachFreed(s, s')
  {
    var later, news := News(s1, s'), News(s, s');
    assert news == [(tok, NilArray)] + later;
    forall t | Freed(s, s', t) ensures Hears(news, t) {
      if t == tok {
        assert news[0].0 == t;
      } else {
        assert Freed(s1, s', t);
        var i :| 0 <= i < |later| && later[i].0 == t;
        assert news[i + 1].0 == t;
      }
    }
    forall i | 0 <= i < |later| ensures later[i].0 != tok && Freed(s, s', later[i].0) {
      assert Freed(s1, s', later[i].0);
    }
  }

  /** What waking tells: the client freed gets the head of the list, and nobody else hears anything. */
  lemma WakeReplies(s: State, key: Key)
    ensures var s' := WakeClient(s, key);
            var items := ListAt(s.db, key);
            && s.log <= s'.log
            && (|items| == 0 ==> News(s, s') == [])
            && (|items| > 0 ==>
                  && (forall tok: Token :: Freed(s, s', tok) ==> News(s, s') == [(tok, Handed(key, items[0]))])
                  && (News(s, s') != [] ==> Freed(s, s', News(s, s')[0].0)))
  {
    hide FirstBlocked, StreamSpec.GoodChunks;
  }

  /** A request: ignored when its connection is gone or blocked; answered first and once when its command
      replies, and then, only after a push that succeeded, a client may be woken; not answered when it
      has to wait. */
  lemma RequestReplies(s: State, tok: Token, cmd: Command, now: int)
    requires Step(s, Request(tok, cmd), now).Some?
    ensures var s' := Step(s, Request(tok, cmd), now).value;
            var out := Exec(s.db, cmd, now);
            && s.log <= s'.log
            && (tok !in s.conns || s.conns[tok].blocked ==> s' == s)
            && (tok in s.conns && !s.conns[tok].blocked && out.Blocks? ==> s'.log == s.log && s'.db == s.db)
            && (tok in s.conns && !s.conns[tok].blocked && out.Done? ==>
                  && |News(s, s')| >= 1 && News(s, s')[0] == (tok, out.reply)
                  && (!(cmd.RPush? || cmd.LPush?) || out.reply.Failed? ==>
                        News(s, s') == [(tok, out.reply)] && s'.conns == s.conns && s'.db == out.db)
                  && (forall i :: 1 <= i < |News(s, s')| ==> Freed(s, s', News(s, s')[i].0)))
  {
    hide Exec, WakeClient, PushHeap, StreamSpec.GoodChunks;
    if tok in s.conns && !s.conns[tok].blocked && Exec(s.db, cmd, now).Done? {
      var out := Exec(s.db, cmd, now);
      WakeReplies(WrittenReply(s, tok, cmd, out.db, out.reply, now), cmd.key);
    }
  }

  /** Only live connections are written to. */
  lemma StepHears(s: State, ev: Event, now: int)
    requires Step(s, ev, now).Some?
    ensures var s' := Step(s, ev, now).value;
            s.log <= s'.log && forall i :: 0 <= i < |News(s, s')| ==> News(s, s')[i].0 in s.conns
  {
    hide Exec, WakeClient, PushHeap, Handle, CleanupBlocked;
    if ev.Request? {
      RequestReplies(s, ev.tok, ev.cmd, now);
      if ev.tok in s.conns && !s.conns[ev.tok].blocked {
        assert Exec(s.db, ev.cmd, now).Done? || Exec(s.db, ev.cmd, now).Blocks? by { RunsDone(s, ev, now); }
      }
    } else if ev.Timeouts? {
      DrainReplies(s, now);
    }
  }

  lemma RunsDone(s: State, ev: Event, now: int)
    requires ev.Request? && ev.tok in s.conns && !s.conns[ev.tok].blocked && Step(s, ev, now).Some?
    ensures !Exec(s.db, ev.cmd, now).Crashes?
  {
    hide Exec;
  }

  lemma StepGone(s: State, ev: Event, now: int, tok: Token)
    requires tok !in s.conns && ev != Accept(tok) && Step(s, ev, now).Some?
    ensures tok !in Step(s, ev, now).value.conns
  {
    hide Exec, PushHeap, WakeClient;
    if ev.Timeouts? {
      var n := Due(s.timeouts, now);
      TimeOutAllEffect(s.(timeouts := s.timeouts[n..]), s.timeouts[..n], tok);
    }
    if ev.Request? && Exec(s.db, ev.cmd, now).Done? {
      var out := Exec(s.db, ev.cmd, now);
      WakeEffect(WrittenReply(s, ev.tok, ev.cmd, out.db, out.reply, now), ev.cmd.key);
    }
  }

  /** Until its token is accepted again, a connection that is gone stays gone and hears nothing, whatever
      queue and heap entries it left. */
  lemma {:induction false} GoneHearsNothing(s: State, events: seq<(int, Event)>, tok: Token)
    requires tok !in s.conns && Run(s, events).Some?
    requires forall i :: 0 <= i < |events| ==> events[i].1 != Accept(tok)
    ensures var s' := Run(s, events).value;
            && tok !in s'.conns && s.log <= s'.log
            && forall i :: 0 <= i < |News(s, s')| ==> News(s, s')[i].0 != tok
    decreases events
  {
    hide Step;
    if |events| == 0 {
    } else {
      var (now, ev) := events[0];
      var s1 := Step(s, ev, now).value;
      StepHears(s, ev, now);
      StepGone(s, ev, now, tok);
      GoneHearsNothing(s1, events[1..], tok);
      var s' := Run(s1, events[1..]).value;
      var now1, later, news := News(s, s1), News(s1, s'), News(s, s');
      assert news == now1 + later;
      forall i | 0 <= i < |news| ensures news[i].0 != tok {
        assert news[i] == if i < |now1| then now1[i] else later[i - |now1|];
      }
    }
  }

  /** Closing a connection does that. */
  lemma ClosedHearsNothing(s: State, tok: Token, now: int, events: seq<(int, Event)>)
    requires Run(s, [(now, Close(tok))] + events).Some?
    requires forall i :: 0 <= i < |events| ==> events[i].1 != Accept(tok)
    ensures var s' := Run(s, [(now, Close(tok))] + events).value;
            && tok !in s'.conns && s.log <= s'.log
            && forall i :: 0 <= i < |News(s, s')| ==> News(s, s')[i].0 != tok
  {
    var all := [(now, Close(tok))] + events;
    assert all[1..] == events;
    var s1 := Step(s, Close(tok), now).value;
    GoneHearsNothing(s1, events, tok);
    assert News(s1, Run(s1, events).value) == News(s, Run(s, all).value);
  }

  // ---- the heaps ----

  lemma {:induction false} LexAsymmetric(a: seq<byte>, b: seq<byte>)
    requires LexLess(a, b)
    ensures !LexLess(b, a)
  {
    if LexLess(b, a) {
      LexTransitive(a, b, a);
      LexIrreflexive(a);
    }
  }

  lemma HeapOrders()
    ensures StrictOrder(GreaterToken) && StrictOrder(GreaterKey)
  {
    forall a: Key, b: Key | GreaterKey(a, b) ensures !GreaterKey(b, a) {
      LexAsymmetric(b, a);
    }
    forall a: Key, b: Key, c: Key | GreaterKey(a, b) && GreaterKey(b, c) ensures GreaterKey(a, c) {
      LexTransitive(c, b, a);
    }
  }

  /** Both heaps pop the earliest entry first, and of those at one time the greatest. */
  ghost predicate HeapsInOrder(s: State)
  {
    InPopOrder(s.timeouts, GreaterToken) && InPopOrder(s.expiries, GreaterKey)
  }

  lemma StepHeaps(s: State, ev: Event, now: int)
    requires HeapsInOrder(s) && Step(s, ev, now).Some?
    ensures HeapsInOrder(Step(s, ev, now).value)
  {
    hide Exec, WakeClient, PushHeap, TimeOutAll, StrictOrder;
    HeapOrders();
    match ev
    case Accept(_) =>
    case Close(_) =>
    case Sweep =>
    case Timeouts =>
      TimeOutAllEffect(s.(timeouts := s.timeouts[Due(s.timeouts, now)..]), s.timeouts[..Due(s.timeouts, now)], 0);
    case Request(tok, cmd) =>
      if tok in s.conns && !s.conns[tok].blocked {
        var out := Exec(s.db, cmd, now);
        if out.Done? {
          if cmd.Set? && cmd.ttl.Some? {
            PushKeepsPopOrder(s.expiries, (now + cmd.ttl.value, cmd.key), GreaterKey);
          }
          WakeKeepsHeaps(WrittenReply(s, tok, cmd, out.db, out.reply, now), cmd.key);
        } else if cmd.BLPop? && cmd.timeout.Some? {
          PushKeepsPopOrder(s.timeouts, (now + cmd.timeout.value, tok), GreaterToken);
        }
      }
  }

  lemma WakeKeepsHeaps(s: State, key: Key)
    ensures WakeClient(s, key).timeouts == s.timeouts && WakeClient(s, key).expiries == s.expiries
  {
  }

  /** So they do in every reachable state. */
  lemma {:induction false} RunHeaps(s: State, events: seq<(int, Event)>)
    requires HeapsInOrder(s) && Run(s, events).Some?
    ensures HeapsInOrder(Run(s, events).value)
    decreases events
  {
    hide Step, HeapsInOrder;
    if |events| == 0 {
    } else {
      StepHeaps(s, events[0].1, events[0].0);
      RunHeaps(Step(s, events[0].1, events[0].0).value, events[1..]);
    }
  }

  /** For the program, spelled out: earlier times first, at one time the greater token, and the key that is
      later in byte order. */
  lemma HeapsFromStart(events: seq<(int, Event)>)
    requires Run(INITIAL, events).Some?
    ensures var s := Run(INITIAL, events).value;
            && (forall i, j :: 0 <= i < j < |s.timeouts| ==>
                  s.timeouts[i].0 < s.timeouts[j].0
                  || (s.timeouts[i].0 == s.timeouts[j].0 && s.timeouts[i].1 >= s.timeouts[j].1))
            && (forall i, j :: 0 <= i < j < |s.expiries| ==>
                  s.expiries[i].0 < s.expiries[j].0
                  || (s.expiries[i].0 == s.expiries[j].0 && !LexLess(s.expiries[i].1, s.expiries[j].1)))
  {
    hide Run;
    RunHeaps(INITIAL, events);
    var s := Run(INITIAL, events).value;
    assert forall i, j :: 0 <= i < j < |s.timeouts| ==> NotAfter(s.timeouts[i], s.timeouts[j], GreaterToken);
    assert forall i, j :: 0 <= i < j < |s.expiries| ==> NotAfter(s.expiries[i], s.expiries[j], GreaterKey);
  }
}
