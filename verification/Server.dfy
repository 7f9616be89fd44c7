/** The server as a timed state machine: keyspace, expiry heap, connections, wait queues, timeouts. */
module Server {
  import opened Bytes
  import opened Heap
  import opened StreamId
  import StreamSpec
  import opened Keyspace

  type Token = nat

  datatype Conn = Conn(blocked: bool, blockKey: Option<Key>, deadline: Option<int>)

  /** `log` is everything written to connections, in order. */
  datatype State = State(
    db: DB,
    expiries: seq<(int, Key)>,
    conns: map<Token, Conn>,
    queues: map<Key, seq<Token>>,
    timeouts: seq<(int, Token)>,
    log: seq<(Token, Reply)>)

  const FREE: Conn := Conn(false, None, None)

  const INITIAL: State := State(map[], [], map[], map[], [], [])

  function GreaterKey(a: Key, b: Key): bool
  {
    LexLess(b, a)
  }

  function GreaterToken(a: Token, b: Token): bool
  {
    a > b
  }

  // ---- expiry ----

  const MAX_CLEANUP: nat := 169

  /** The drain pops at most 170 entries: the bound is checked after the count passes it. */
  function SweepCount(expiries: seq<(int, Key)>, now: int): (n: nat)
    ensures n <= |expiries| && n <= MAX_CLEANUP + 1
  {
    var n := Due(expiries, now);
    if n <= MAX_CLEANUP + 1 then n else MAX_CLEANUP + 1
  }

  /** A popped heap entry removes a key only when it names the key's current expiry. */
  predicate Matches(db: DB, key: Key, popped: seq<(int, Key)>)
  {
    key in db && db[key].expiry.Some? && (db[key].expiry.value, key) in popped
  }

  function Swept(db: DB, popped: seq<(int, Key)>): DB
  {
    map k | k in db && !Matches(db, k, popped) :: db[k]
  }

  function CleanupExpired(s: State, now: int): State
  {
    var n := SweepCount(s.expiries, now);
    s.(db := Swept(s.db, s.expiries[..n]), expiries := s.expiries[n..])
  }

  // ---- blocking ----

  predicate Blocked(conns: map<Token, Conn>, tok: Token)
  {
    tok in conns && conns[tok].blocked
  }

  function TimeOut(s: State, tok: Token): State
  {
    if Blocked(s.conns, tok) then s.(conns := s.conns[tok := FREE], log := s.log + [(tok, NilArray)]) else s
  }

  function TimeOutAll(s: State, popped: seq<(int, Token)>): State
    decreases popped
  {
    if |popped| == 0 then s else TimeOutAll(TimeOut(s, popped[0].1), popped[1..])
  }

  function CleanupBlocked(s: State, now: int): State
  {
    var n := Due(s.timeouts, now);
    TimeOutAll(s.(timeouts := s.timeouts[n..]), s.timeouts[..n])
  }

  /** Position of the first token in a queue that belongs to a live blocked connection. */
  function FirstBlocked(queue: seq<Token>, conns: map<Token, Conn>): (i: nat)
    ensures i <= |queue|
    ensures forall j :: 0 <= j < i ==> !Blocked(conns, queue[j])
    ensures i < |queue| ==> Blocked(conns, queue[i])
  {
    if |queue| == 0 || Blocked(conns, queue[0]) then 0
    else
      var i := FirstBlocked(queue[1..], conns);
      assert forall j :: 1 <= j < i + 1 ==> queue[j] == queue[1..][j - 1];
      i + 1
  }

  /** Wakes the first blocked client in the key's queue and hands it the head of the key's list. */
  function WakeClient(s: State, key: Key): State
  {
    if key !in s.queues then s
    else
      var queue := s.queues[key];
      var i := FirstBlocked(queue, s.conns);
      if i == |queue| then s.(queues := s.queues[key := []])
      else
        var s1 := s.(queues := s.queues[key := queue[i + 1..]], conns := s.conns[queue[i] := FREE]);
        HandOver(s1, key, queue[i])
  }

  function HandOver(s: State, key: Key, tok: Token): State
  {
    var items := ListAt(s.db, key);
    if |items| == 0 then s
    else s.(db := SetList(s.db, key, items[1..]), log := s.log + [(tok, Handed(key, items[0]))])
  }

  function Register(s: State, tok: Token, key: Key, timeout: Option<nat>, now: int): State
    requires tok in s.conns
  {
    var deadline := if timeout.Some? then Some(now + timeout.value) else s.conns[tok].deadline;
    var queue := if key in s.queues then s.queues[key] else [];
    s.(conns := s.conns[tok := Conn(true, Some(key), deadline)],
       timeouts := if timeout.Some? then PushHeap(s.timeouts, (now + timeout.value, tok), GreaterToken) else s.timeouts,
       queues := s.queues[key := queue + [tok]])
  }

  // ---- steps ----

  datatype Event =
    | Accept(tok: Token)
    | Close(tok: Token)
    | Request(tok: Token, cmd: Command)
    | Sweep
    | Timeouts

  /** Effects of a command that has replied: its expiry is queued, the reply is written, and a
      successful push wakes a waiting client. */
  function Replied(s: State, tok: Token, cmd: Command, db: DB, reply: Reply, now: int): State
  {
    var s1 := WrittenReply(s, tok, cmd, db, reply, now);
    if (cmd.RPush? || cmd.LPush?) && !reply.Failed? then WakeClient(s1, cmd.key) else s1
  }

  function WrittenReply(s: State, tok: Token, cmd: Command, db: DB, reply: Reply, now: int): State
  {
    s.(db := db,
       expiries := if cmd.Set? && cmd.ttl.Some?
                   then PushHeap(s.expiries, (now + cmd.ttl.value, cmd.key), GreaterKey) else s.expiries,
       log := s.log + [(tok, reply)])
  }

  /** One command of a connection; a blocked connection's input is not read. */
  function Handle(s: State, tok: Token, cmd: Command, now: int): Option<State>
  {
    if tok !in s.conns || s.conns[tok].blocked then Some(s)
    else
      match Exec(s.db, cmd, now)
      case Crashes => None
      case Blocks => Some(Register(s, tok, cmd.key, if cmd.BLPop? then cmd.timeout else None, now))
      case Done(db, reply) => Some(Replied(s, tok, cmd, db, reply, now))
  }

  /** None stands for a panic, which ends the process. */
  function Step(s: State, ev: Event, now: int): Option<State>
  {
    match ev
    case Accept(tok) => Some(if tok in s.conns then s else s.(conns := s.conns[tok := FREE]))
    case Close(tok) => Some(s.(conns := s.conns - {tok}))
    case Request(tok, cmd) => Handle(s, tok, cmd, now)
    case Sweep => Some(CleanupExpired(s, now))
    case Timeouts => Some(CleanupBlocked(s, now))
  }

  function Run(s: State, events: seq<(int, Event)>): Option<State>
    decreases events
  {
    if |events| == 0 then Some(s)
    else
      match Step(s, events[0].1, events[0].0)
      case None => None
      case Some(s') => Run(s', events[1..])
  }

  /** The clock never runs backwards. */
  predicate InOrder(events: seq<(int, Event)>, start: int)
    decreases events
  {
    |events| == 0 || (start <= events[0].0 && InOrder(events[1..], events[0].0))
  }

  lemma {:induction false} TimesAscend(events: seq<(int, Event)>, start: int)
    requires |events| > 0 ==> start <= events[0].0
    requires forall i, j :: 0 <= i && j == i + 1 < |events| ==> events[i].0 <= events[j].0
    ensures InOrder(events, start)
    decreases events
  {
    if |events| == 0 {
    } else {
      TimesAscend(events[1..], events[0].0);
    }
  }

  /** A run goes through the states its steps lead to. */
  lemma {:induction false} RunThrough(states: seq<State>, events: seq<(int, Event)>)
    requires |states| == |events| + 1
    requires forall i :: 0 <= i < |events| ==> Step(states[i], events[i].1, events[i].0) == Some(states[i + 1])
    ensures Run(states[0], events) == Some(states[|events|])
    decreases events
  {
    hide Step;
    if |events| == 0 {
    } else {
      var rest := states[1..];
      forall i | 0 <= i < |events| - 1
        ensures Step(rest[i], events[1..][i].1, events[1..][i].0) == Some(rest[i + 1])
      {
        assert Step(states[i + 1], events[i + 1].1, events[i + 1].0) == Some(states[i + 2]);
      }
      RunThrough(rest, events[1..]);
    }
  }

  // ---- the invariant ----

  predicate OnlyStringsExpire(db: DB)
  {
    forall k :: k in db && db[k].expiry.Some? ==> db[k].value.VString?
  }

  /** Every entry with an expiry is in the heap under that expiry. */
  predicate ExpiriesCovered(db: DB, expiries: seq<(int, Key)>)
  {
    forall k :: k in db && db[k].expiry.Some? ==> (db[k].expiry.value, k) in expiries
  }

  /** A blocked connection waits in its key's queue; a free one has no key and no deadline; every
      deadline is in the timeout heap. */
  predicate ConnOk(s: State, tok: Token)
    requires tok in s.conns
  {
    var c := s.conns[tok];
    && (c.blocked ==> c.blockKey.Some? && c.blockKey.value in s.queues && tok in s.queues[c.blockKey.value])
    && (!c.blocked ==> c == FREE)
    && (c.deadline.Some? ==> (c.deadline.value, tok) in s.timeouts)
  }

  ghost predicate Inv(s: State)
  {
    && OnlyStringsExpire(s.db) && ExpiriesCovered(s.db, s.expiries)
    && ByTime(s.expiries) && ByTime(s.timeouts)
    && (forall tok :: tok in s.conns ==> ConnOk(s, tok))
  }

  lemma SweepInv(s: State, now: int)
    requires Inv(s)
    ensures Inv(CleanupExpired(s, now))
  {
    var s' := CleanupExpired(s, now);
    var n := SweepCount(s.expiries, now);
    assert s.expiries == s.expiries[..n] + s.expiries[n..];
    forall tok | tok in s'.conns ensures ConnOk(s', tok) {
      assert ConnOk(s, tok);
    }
  }

  // ---- timing out ----

  /** What a drain of timeout entries does to one connection. */
  lemma {:induction false} TimeOutAllEffect(s: State, popped: seq<(int, Token)>, tok: Token)
    ensures var s' := TimeOutAll(s, popped);
            && s'.db == s.db && s'.expiries == s.expiries && s'.queues == s.queues && s'.timeouts == s.timeouts
            && (tok in s'.conns <==> tok in s.conns)
            && (tok in s.conns ==>
                  s'.conns[tok] ==
                  if s.conns[tok].blocked && (exists t :: (t, tok) in popped) then FREE else s.conns[tok])
    decreases popped
  {
    if |popped| == 0 {
    } else {
      TimeOutAllEffect(TimeOut(s, popped[0].1), popped[1..], tok);
      var rest := popped[1..];
      assert popped == [popped[0]] + rest;
      assert (exists t :: (t, tok) in popped) <==> popped[0].1 == tok || (exists t :: (t, tok) in rest) by {
        if exists t :: (t, tok) in popped {
          var t :| (t, tok) in popped;
          assert (t, tok) == popped[0] || (t, tok) in rest;
        }
        if popped[0].1 == tok {
          assert (popped[0].0, tok) in popped;
        }
        if exists t :: (t, tok) in rest {
          var t :| (t, tok) in rest;
          assert (t, tok) in popped;
        }
      }
    }
  }

  lemma TimeoutsInv(s: State, now: int)
    requires Inv(s)
    ensures Inv(CleanupBlocked(s, now))
  {
    var n := Due(s.timeouts, now);
    var popped, rest := s.timeouts[..n], s.timeouts[n..];
    assert s.timeouts == popped + rest;
    var s1 := s.(timeouts := rest);
    var s' := CleanupBlocked(s, now);
    TimeOutAllEffect(s1, popped, 0);
    forall tok | tok in s'.conns ensures ConnOk(s', tok) {
      TimeOutAllEffect(s1, popped, tok);
      assert ConnOk(s, tok);
      var d := s.conns[tok].deadline;
      if d.Some? {
        assert (d.value, tok) in popped || (d.value, tok) in rest;
      }
    }
  }

  /** After the timeout drain no connection is still blocked past its deadline. */
  lemma NoOverdueClient(s: State, now: int, tok: Token)
    requires Inv(s)
    ensures var s' := CleanupBlocked(s, now);
            Blocked(s'.conns, tok) && s'.conns[tok].deadline.Some? ==> s'.conns[tok].deadline.value > now
  {
    var n := Due(s.timeouts, now);
    TimeOutAllEffect(s.(timeouts := s.timeouts[n..]), s.timeouts[..n], tok);
    if Blocked(s.conns, tok) {
      assert ConnOk(s, tok);
      var d := s.conns[tok].deadline;
      if d.Some? && d.value <= now {
        DueAll(s.timeouts, now, (d.value, tok));
      }
    }
  }

  // ---- waking ----

  lemma HandOverInv(s: State, key: Key, tok: Token)
    requires Inv(s)
    ensures Inv(HandOver(s, key, tok))
  {
    var s' := HandOver(s, key, tok);
    forall t | t in s'.conns ensures ConnOk(s', t) {
      assert ConnOk(s, t);
    }
  }

  /** Dropping a queue's entries up to its first blocked one, and freeing that one, strands nobody. */
  lemma DropWoken(queue: seq<Token>, conns: map<Token, Conn>, tok: Token)
    ensures var i := FirstBlocked(queue, conns);
            tok in queue && Blocked(conns, tok) ==>
              i < |queue| && (tok == queue[i] || tok in queue[i + 1..])
  {
    if tok in queue && Blocked(conns, tok) {
      var i := FirstBlocked(queue, conns);
      var j :| 0 <= j < |queue| && queue[j] == tok;
      if j > i { assert queue[i + 1..][j - i - 1] == tok; }
    }
  }

  lemma WakeInv(s: State, key: Key)
    requires Inv(s)
    ensures Inv(WakeClient(s, key))
  {
    hide FirstBlocked, HandOver;
    if key in s.queues {
      var queue := s.queues[key];
      var i := FirstBlocked(queue, s.conns);
      var rest := if i == |queue| then [] else queue[i + 1..];
      var conns := if i == |queue| then s.conns else s.conns[queue[i] := FREE];
      var s1 := s.(queues := s.queues[key := rest], conns := conns);
      forall t | t in s1.conns ensures ConnOk(s1, t) {
        assert t in s.conns && ConnOk(s, t);
        DropWoken(queue, s.conns, t);
      }
      assert Inv(s1);
      if i < |queue| {
        HandOverInv(s1, key, queue[i]);
      }
    }
  }

  lemma RegisterInv(s: State, tok: Token, key: Key, timeout: Option<nat>, now: int)
    requires Inv(s) && tok in s.conns && !s.conns[tok].blocked
    ensures Inv(Register(s, tok, key, timeout, now))
  {
    var s' := Register(s, tok, key, timeout, now);
    if timeout.Some? {
      PushKeepsOrder(s.timeouts, (now + timeout.value, tok), GreaterToken);
    }
    forall t | t in s'.conns ensures ConnOk(s', t) {
      assert ConnOk(s, t);
      assert key in s.queues ==> s'.queues[key] == s.queues[key] + [tok];
    }
  }

  /** Any expiry under k was there before, on a string. */
  predicate KeepsExpiry(db: DB, db': DB, k: Key)
  {
    k in db' && db'[k].expiry.Some? ==> db'[k].value.VString? && k in db && db'[k].expiry == db[k].expiry
  }

  lemma ListExpiries(db: DB, key: Key, values: seq<Item>, front: bool, count: nat, k: Key)
    requires OnlyStringsExpire(db)
    ensures Push(db, key, values, front).Done? && KeepsExpiry(db, Push(db, key, values, front).db, k)
    ensures Pop(db, key, count).Done? && KeepsExpiry(db, Pop(db, key, count).db, k)
    ensures BlockingPop(db, key).Done? ==> KeepsExpiry(db, BlockingPop(db, key).db, k)
  {
    hide Reverse;
  }

  lemma AddExpiries(db: DB, key: Key, idText: seq<byte>, kv: seq<seq<byte>>, clock: u64, k: Key)
    requires OnlyStringsExpire(db)
    ensures var out := AddEntry(db, key, idText, kv, clock);
            out.Done? ==> KeepsExpiry(db, out.db, k)
  {
    hide Parse, Pairs, TopId, StreamSpec.Add, StreamSpec.GoodChunks;
  }

  /** No command gives an expiry to anything but a string, and only SET queues one. */
  lemma ExecExpiries(db: DB, cmd: Command, now: int, k: Key)
    requires OnlyStringsExpire(db) && Exec(db, cmd, now).Done?
    ensures var db' := Exec(db, cmd, now).db;
            if cmd.Set? && k == cmd.key then
              k in db' && db'[k].value.VString? && db'[k].expiry == ExpiryAt(cmd.ttl, now)
            else KeepsExpiry(db, db', k)
  {
    hide Push, Pop, BlockingPop, AddEntry;
    match cmd
    case Set(_, _, _) =>
    case Get(_) =>
    case RPush(key, values) => ListExpiries(db, key, values, false, 0, k);
    case LPush(key, values) => ListExpiries(db, key, values, true, 0, k);
    case LPop(key, count) => ListExpiries(db, key, [], false, count, k);
    case BLPop(key, _) => ListExpiries(db, key, [], false, 0, k);
    case XAdd(key, idText, kv, clock) => AddExpiries(db, key, idText, kv, clock, k);
  }

  lemma RepliedInv(s: State, tok: Token, cmd: Command, now: int)
    requires Inv(s) && Exec(s.db, cmd, now).Done?
    ensures var out := Exec(s.db, cmd, now);
            Inv(Replied(s, tok, cmd, out.db, out.reply, now))
  {
    var out := Exec(s.db, cmd, now);
    if cmd.Set? && cmd.ttl.Some? {
      PushKeepsOrder(s.expiries, (now + cmd.ttl.value, cmd.key), GreaterKey);
    }
    var s1 := WrittenReply(s, tok, cmd, out.db, out.reply, now);
    forall k | k in out.db && out.db[k].expiry.Some?
      ensures out.db[k].value.VString? && (out.db[k].expiry.value, k) in s1.expiries
    {
      ExecExpiries(s.db, cmd, now, k);
    }
    forall t | t in s1.conns ensures ConnOk(s1, t) {
      assert ConnOk(s, t);
    }
    WakeInv(s1, cmd.key);
  }

  /** The invariant holds after every step, whatever the event. */
  lemma StepInv(s: State, ev: Event, now: int)
    requires Inv(s) && Step(s, ev, now).Some?
    ensures Inv(Step(s, ev, now).value)
  {
    match ev
    case Accept(tok) =>
      forall t | t in s.conns ensures ConnOk(s, t) {}
    case Close(tok) =>
      var s' := s.(conns := s.conns - {tok});
      forall t | t in s'.conns ensures ConnOk(s', t) {
        assert ConnOk(s, t);
      }
    case Request(tok, cmd) =>
      if tok in s.conns && !s.conns[tok].blocked {
        if Exec(s.db, cmd, now).Done? {
          RepliedInv(s, tok, cmd, now);
        } else {
          RegisterInv(s, tok, cmd.key, if cmd.BLPop? then cmd.timeout else None, now);
        }
      }
    case Sweep => SweepInv(s, now);
    case Timeouts => TimeoutsInv(s, now);
  }

  /** The invariant holds in every reachable state, across disconnects, token reuse and stale entries. */
  lemma {:induction false} RunInv(s: State, events: seq<(int, Event)>)
    requires Inv(s) && Run(s, events).Some?
    ensures Inv(Run(s, events).value)
    decreases events
  {
    if |events| == 0 {
    } else {
      StepInv(s, events[0].1, events[0].0);
      RunInv(Step(s, events[0].1, events[0].0).value, events[1..]);
    }
  }

  lemma InitialInv()
    ensures Inv(INITIAL)
  {
  }

  // ---- expiry ----

  /** The sweep removes only keys whose current expiry has passed and pops at most 170 entries; when
      it pops fewer, no expired key remains. */
  lemma SweepExact(s: State, now: int)
    requires Inv(s)
    ensures var s' := CleanupExpired(s, now);
            var n := |s.expiries| - |s'.expiries|;
            && n <= 170
            && s'.expiries == s.expiries[n..]
            && (forall k :: k in s'.db ==> k in s.db && s'.db[k] == s.db[k])
            && (forall k :: k in s.db && k !in s'.db ==> Expired(s.db[k], now))
            && (n < 170 ==> forall k :: k in s'.db ==> !Expired(s'.db[k], now))
  {
    var n := SweepCount(s.expiries, now);
    var popped := s.expiries[..n];
    forall k | Matches(s.db, k, popped) ensures Expired(s.db[k], now) {
      var i :| 0 <= i < n && popped[i] == (s.db[k].expiry.value, k);
      assert s.expiries[i].0 <= now;
    }
    if n < MAX_CLEANUP + 1 {
      forall k | k in s.db && Expired(s.db[k], now) ensures Matches(s.db, k, popped) {
        DueAll(s.expiries, now, (s.db[k].expiry.value, k));
      }
    }
  }

  // ---- wake ----

  /** The first blocked client of the key's queue, at position i, and no other, was freed and handed the
      head of the list. */
  ghost predicate WokeAt(s: State, s': State, key: Key, i: nat)
    requires key in s.queues && |ListAt(s.db, key)| > 0
  {
    && i < |s.queues[key]|
    && var w := s.queues[key][i];
    && Blocked(s.conns, w) && (forall j :: 0 <= j < i ==> !Blocked(s.conns, s.queues[key][j]))
    && s'.conns == s.conns[w := FREE]
    && s'.queues == s.queues[key := s.queues[key][i + 1..]]
    && s'.log == s.log + [(w, Handed(key, ListAt(s.db, key)[0]))]
    && ListAt(s'.db, key) == ListAt(s.db, key)[1..]
    && (forall k :: k != key ==> (k in s'.db <==> k in s.db) && (k in s.db ==> s'.db[k] == s.db[k]))
  }

  /** If some live connection queued on the key is blocked and the list has an item, exactly one client
      is woken, the first blocked one of the queue, and gets the head of the list. */
  lemma WakeExact(s: State, key: Key, t: Token) returns (i: nat)
    requires key in s.queues && t in s.queues[key] && Blocked(s.conns, t)
    requires |ListAt(s.db, key)| > 0
    ensures WokeAt(s, WakeClient(s, key), key, i)
  {
    hide FirstBlocked;
    var queue := s.queues[key];
    i := FirstBlocked(queue, s.conns);
    var j :| 0 <= j < |queue| && queue[j] == t;
    assert i < |queue|;
    assert Blocked(s.conns, queue[i]);
  }

  /** A push by a free client while somebody waits for the key: the reply counts the whole list, then
      exactly one client is freed, the first blocked one of the queue, and it is sent the list's head. */
  lemma PushWakesOne(s: State, tok: Token, cmd: Command, now: int, waiter: Token)
    requires Inv(s) && tok in s.conns && !s.conns[tok].blocked
    requires (cmd.RPush? || cmd.LPush?) && |cmd.values| > 0
    requires Blocked(s.conns, waiter) && s.conns[waiter].blockKey == Some(cmd.key)
    ensures Step(s, Request(tok, cmd), now).Some? && cmd.key in s.queues
    ensures var s' := Step(s, Request(tok, cmd), now).value;
            var held, queue := ListAt(s.db, cmd.key), s.queues[cmd.key];
            var items := if cmd.RPush? then held + cmd.values else Reverse(cmd.values) + held;
            exists i :: 0 <= i < |queue| && var w := queue[i];
              && Blocked(s.conns, w) && (forall j :: 0 <= j < i ==> !Blocked(s.conns, queue[j]))
              && s'.conns == s.conns[w := FREE]
              && s'.log == s.log + [(tok, Count(|items|)), (w, Handed(cmd.key, items[0]))]
              && ListAt(s'.db, cmd.key) == items[1..]
  {
    hide WakeClient, FirstBlocked, Reverse, Push, Step, WrittenReply, OnlyStringsExpire, ExpiriesCovered, ByTime;
    assert ConnOk(s, waiter);
    var s1 := PushBeforeWake(s, tok, cmd, now);
    var i := WakeExact(s1, cmd.key, waiter);
    var items, w := ListAt(s1.db, cmd.key), s.queues[cmd.key][i];
    assert WakeClient(s1, cmd.key).log == s.log + [(tok, Count(|items|)), (w, Handed(cmd.key, items[0]))];
  }

  /** A push is its effect on the list, its reply and a wake. */
  lemma PushBeforeWake(s: State, tok: Token, cmd: Command, now: int) returns (s1: State)
    requires tok in s.conns && !s.conns[tok].blocked
    requires (cmd.RPush? || cmd.LPush?) && |cmd.values| > 0
    ensures Step(s, Request(tok, cmd), now) == Some(WakeClient(s1, cmd.key))
    ensures s1.conns == s.conns && s1.queues == s.queues
    ensures var held := ListAt(s.db, cmd.key);
            var items := if cmd.RPush? then held + cmd.values else Reverse(cmd.values) + held;
            ListAt(s1.db, cmd.key) == items && s1.log == s.log + [(tok, Count(|items|))]
  {
    hide WakeClient, Reverse, PushHeap;
    var out := Push(s.db, cmd.key, cmd.values, cmd.LPush?);
    s1 := WrittenReply(s, tok, cmd, out.db, out.reply, now);
  }
}
