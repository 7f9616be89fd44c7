/** The server as the program runs it: one object whose methods update the shared state in place. */
module EventLoop {
  import opened Bytes
  import opened Heap
  import opened Keyspace
  import opened StreamId
  import Spec = Server
  import StreamSpec

  type Token = Spec.Token
  type Conn = Spec.Conn

  // ---- steps of the loops ----

  /** Popping one more heap entry removes its key when it still names the current expiry. */
  lemma SweptStep(db: DB, popped: seq<(int, Key)>, t: int, key: Key)
    ensures var before := Spec.Swept(db, popped);
            Spec.Swept(db, popped + [(t, key)]) ==
            if key in before && before[key].expiry == Some(t) then before - {key} else before
  {
  }

  lemma {:induction false} ReverseStep(values: seq<Item>, k: nat)
    requires k < |values|
    ensures Reverse(values[..k + 1]) == [values[k]] + Reverse(values[..k])
  {
    var r := Reverse(values[..k + 1]);
    assert r[0] == values[k];
    forall i | 1 <= i < |r| ensures r[i] == Reverse(values[..k])[i - 1] {
    }
  }

  method PushBack(held: seq<Item>, values: seq<Item>) returns (items: seq<Item>)
    ensures items == held + values
  {
    items := held;
    for k := 0 to |values|
      invariant items == held + values[..k]
    {
      items := items + [values[k]];
    }
    assert values[..|values|] == values;
  }

  method PushFront(held: seq<Item>, values: seq<Item>) returns (items: seq<Item>)
    ensures items == Reverse(values) + held
  {
    items := held;
    for k := 0 to |values|
      invariant items == Reverse(values[..k]) + held
    {
      ReverseStep(values, k);
      items := [values[k]] + items;
    }
    assert values[..|values|] == values;
  }

  class Process {
    var db: DB
    var expiries: seq<(int, Key)>
    var conns: map<Token, Conn>
    var queues: map<Key, seq<Token>>
    var timeouts: seq<(int, Token)>
    var log: seq<(Token, Reply)>

    function Abs(): Spec.State
      reads this
    {
      Spec.State(db, expiries, conns, queues, timeouts, log)
    }

    constructor ()
      ensures Abs() == Spec.INITIAL
    {
      db := map[];
      expiries := [];
      conns := map[];
      queues := map[];
      timeouts := [];
      log := [];
    }

    // ---- expiry.rs ----

    method CleanupExpired(rn: int)
      modifies this`db, this`expiries
      ensures Abs() == Spec.CleanupExpired(old(Abs()), rn)
    {
      ghost var heap, before := expiries, db;
      var cleaned := 0;
      while |expiries| > 0
        invariant cleaned <= Spec.SweepCount(heap, rn) <= |heap| && expiries == heap[cleaned..]
        invariant db == Spec.Swept(before, heap[..cleaned])
        decreases |expiries|
      {
        var (expiry, key) := expiries[0];
        if cleaned > Spec.MAX_CLEANUP || expiry > rn {
          break;
        }
        expiries := expiries[1..];
        if key in db && db[key].expiry.Some? {
          if db[key].expiry.value == expiry {
            db := db - {key};
          }
        }
        SweptStep(before, heap[..cleaned], expiry, key);
        assert heap[..cleaned + 1] == heap[..cleaned] + [(expiry, key)];
        cleaned := cleaned + 1;
      }
      assert cleaned == Spec.SweepCount(heap, rn);
    }

    // ---- blocking.rs ----

    method CleanupBlocked(now: int)
      modifies this`conns, this`timeouts, this`log
      ensures Abs() == Spec.CleanupBlocked(old(Abs()), now)
    {
      ghost var heap, n := timeouts, Due(timeouts, now);
      ghost var k := 0;
      while |timeouts| > 0
        invariant 0 <= k <= n && timeouts == heap[k..]
        invariant Spec.TimeOutAll(Abs().(timeouts := heap[n..]), heap[k..n]) == Spec.CleanupBlocked(old(Abs()), now)
        invariant db == old(db) && expiries == old(expiries) && queues == old(queues)
        decreases |timeouts|
      {
        var (t, tok) := timeouts[0];
        if t > now {
          break;
        }
        assert heap[k..n][0] == (t, tok) && heap[k..n][1..] == heap[k + 1..n];
        timeouts := timeouts[1..];
        if tok in conns {
          if conns[tok].blocked {
            conns := conns[tok := Spec.FREE];
            log := log + [(tok, NilArray)];
          }
        }
        k := k + 1;
      }
      assert k == n;
      assert heap[n..n] == [];
    }

    method WakeClient(key: Key)
      modifies this`db, this`conns, this`queues, this`log
      ensures Abs() == Spec.WakeClient(old(Abs()), key)
    {
      hide Spec.HandOver;
      if key !in queues {
        return;
      }
      ghost var queue := queues[key];
      ghost var k := 0;
      while |queues[key]| > 0
        invariant key in queues && 0 <= k <= |queue| && queues[key] == queue[k..]
        invariant queues == old(queues)[key := queue[k..]]
        invariant db == old(db) && conns == old(conns) && log == old(log)
        invariant k <= Spec.FirstBlocked(queue, conns)
        decreases |queues[key]|
      {
        var tok := queues[key][0];
        queues := queues[key := queues[key][1..]];
        if tok in conns {
          if !conns[tok].blocked {
            k := k + 1;
            continue;
          }
          assert k == Spec.FirstBlocked(queue, conns);
          conns := conns[tok := Spec.FREE];
          assert queues == old(queues)[key := queue[k + 1..]];
          HandOver(key, tok);
          return;
        }
        k := k + 1;
      }
      assert queue[k..] == [];
    }

    /** The head of the key's list, if there is one, goes to the woken client. */
    method HandOver(key: Key, tok: Token)
      modifies this`db, this`log
      ensures Abs() == Spec.HandOver(old(Abs()), key, tok)
    {
      if key in db && db[key].value.VList? {
        var items := db[key].value.items;
        if |items| > 0 {
          db := db[key := db[key].(value := VList(items[1..]))];
          log := log + [(tok, Handed(key, items[0]))];
        }
      }
    }

    // ---- handlers ----

    method HandleSet(key: Key, text: seq<byte>, ttl: Option<nat>, now: int) returns (reply: Reply)
      modifies this`db, this`expiries
      ensures Done(db, reply) == Exec(old(db), Set(key, text, ttl), now)
      ensures expiries == if ttl.Some? then PushHeap(old(expiries), (now + ttl.value, key), Spec.GreaterKey)
                          else old(expiries)
    {
      var expiry: Option<int> := None;
      if ttl.Some? {
        expiry := Some(now + ttl.value);
      }
      if expiry.Some? {
        expiries := PushHeap(expiries, (expiry.value, key), Spec.GreaterKey);
      }
      db := db[key := Entry(VString(text), expiry)];
      reply := Fine;
    }

    method HandleGet(key: Key, now: int) returns (reply: Reply)
      modifies this`db
      ensures Done(db, reply) == Exec(old(db), Get(key), now)
    {
      if key in db {
        var entry := db[key];
        if entry.expiry.Some? && now >= entry.expiry.value {
          db := db - {key};
          return Nil;
        }
        if entry.value.VString? {
          return Text(entry.value.text);
        }
        return Failed(WrongType);
      }
      return Nil;
    }

    method HandleRPush(key: Key, values: seq<Item>) returns (reply: Reply)
      modifies this`db
      ensures Done(db, reply) == Push(old(db), key, values, false)
    {
      if |values| == 0 {
        return Failed(WrongArgCount);
      }
      var entry := if key in db && db[key].value.VList? then db[key] else Entry(VList([]), None);
      var items := PushBack(entry.value.items, values);
      db := db[key := entry.(value := VList(items))];
      return Count(|items|);
    }

    method HandleLPush(key: Key, values: seq<Item>) returns (reply: Reply)
      modifies this`db
      ensures Done(db, reply) == Push(old(db), key, values, true)
    {
      if |values| == 0 {
        return Failed(WrongArgCount);
      }
      var entry := if key in db && db[key].value.VList? then db[key] else Entry(VList([]), None);
      hide Reverse;
      var items := PushFront(entry.value.items, values);
      db := db[key := entry.(value := VList(items))];
      return Count(|items|);
    }

    method HandleLPop(key: Key, count: nat) returns (reply: Reply)
      modifies this`db
      ensures Done(db, reply) == Pop(old(db), key, count)
    {
      hide StreamSpec.GoodChunks;
      if key !in db {
        return Nil;
      }
      if !db[key].value.VList? {
        return Failed(WrongType);
      }
      var items := db[key].value.items;
      if |items| == 0 {
        return Nil;
      }
      if count == 1 {
        db := SetList(db, key, items[1..]);
        return Popped(key, items[0]);
      }
      var taken: seq<Item> := [];
      var rest := items;
      while |taken| < count && |rest| > 0
        invariant taken + rest == items && |taken| <= count
        decreases |rest|
      {
        taken := taken + [rest[0]];
        rest := rest[1..];
      }
      ghost var n := if count < |items| then count else |items|;
      assert |taken| == n && taken == items[..n] && rest == items[n..];
      db := SetList(db, key, rest);
      return PoppedMany(key, taken);
    }

    method HandleBLPop(key: Key) returns (reply: Option<Reply>)
      modifies this`db
      ensures BlockingPop(old(db), key) == if reply.Some? then Done(db, reply.value) else Blocks
      ensures reply.None? ==> db == old(db)
    {
      if key in db && db[key].value.VList? {
        var items := db[key].value.items;
        if |items| > 0 {
          db := SetList(db, key, items[1..]);
          return Some(Handed(key, items[0]));
        }
      }
      return None;
    }

    /** On the stream as its chunks; module StreamHandler has the same on stream objects. */
    method HandleXAdd(key: Key, idText: seq<byte>, kv: seq<seq<byte>>, clock: u64) returns (reply: Reply)
      requires !AddEntry(db, key, idText, kv, clock).Crashes?
      modifies this`db
      ensures Done(db, reply) == AddEntry(old(db), key, idText, kv, clock)
    {
      if idText == ZERO_ID {
        return Failed(ZeroId);
      }
      if |kv| % 2 != 0 {
        return Failed(WrongArgCount);
      }
      hide Parse, Pairs, TopId;
      var id := Parse(idText, TopId(StreamAt(db, key)), clock);
      match id
      case BadId => return Failed(BadStreamId);
      case BadInteger => return Failed(BadNumber);
      case TooSmall => return Failed(IdTooSmall);
      case Good(id) =>
        var out := AddRecord(db, key, StreamSpec.Record(id, Pairs(kv)));
        db := out.db;
        return out.reply;
    }

    // ---- mod.rs ----

    method AcceptConn(tok: Token)
      modifies this`conns
      ensures Spec.Step(old(Abs()), Spec.Accept(tok), 0) == Some(Abs())
    {
      if tok !in conns {
        conns := conns[tok := Spec.FREE];
      }
    }

    method CloseConn(tok: Token)
      modifies this`conns
      ensures Spec.Step(old(Abs()), Spec.Close(tok), 0) == Some(Abs())
    {
      conns := conns - {tok};
    }

    /** A client that has to wait: its connection is marked, its deadline and its place recorded. */
    method Block(tok: Token, key: Key, timeout: Option<nat>, now: int)
      requires tok in conns
      modifies this`conns, this`timeouts, this`queues
      ensures Abs() == Spec.Register(old(Abs()), tok, key, timeout, now)
    {
      hide PushHeap;
      var conn := conns[tok];
      conn := conn.(blocked := true);
      conn := conn.(blockKey := Some(key));
      if timeout.Some? {
        var deadline := now + timeout.value;
        conn := conn.(deadline := Some(deadline));
        timeouts := PushHeap(timeouts, (deadline, tok), Spec.GreaterToken);
      }
      if key !in queues {
        queues := queues[key := []];
      }
      queues := queues[key := queues[key] + [tok]];
      conns := conns[tok := conn];
    }

    /** Runs one handler. BLPOP with nothing to pop replies nothing. */
    method Dispatch(cmd: Command, now: int) returns (reply: Option<Reply>)
      requires !Exec(db, cmd, now).Crashes?
      modifies this`db, this`expiries
      ensures Exec(old(db), cmd, now) == if reply.Some? then Done(db, reply.value) else Blocks
      ensures reply.None? ==> cmd.BLPop? && db == old(db)
      ensures expiries == if cmd.Set? && cmd.ttl.Some?
                          then PushHeap(old(expiries), (now + cmd.ttl.value, cmd.key), Spec.GreaterKey)
                          else old(expiries)
    {
      hide GetText, Push, Pop, BlockingPop, AddEntry, PushHeap;
      match cmd
      case Set(key, text, ttl) =>
        var r := HandleSet(key, text, ttl, now);
        reply := Some(r);
      case Get(key) =>
        var r := HandleGet(key, now);
        reply := Some(r);
      case RPush(key, values) =>
        var r := HandleRPush(key, values);
        reply := Some(r);
      case LPush(key, values) =>
        var r := HandleLPush(key, values);
        reply := Some(r);
      case LPop(key, count) =>
        var r := HandleLPop(key, count);
        reply := Some(r);
      case BLPop(key, _) =>
        reply := HandleBLPop(key);
      case XAdd(key, idText, kv, clock) =>
        var r := HandleXAdd(key, idText, kv, clock);
        reply := Some(r);
    }

    /** A readable event that carries a command. */
    method Readable(tok: Token, cmd: Command, now: int)
      requires Spec.Handle(Abs(), tok, cmd, now).Some?
      modifies this
      ensures Spec.Handle(old(Abs()), tok, cmd, now) == Some(Abs())
    {
      if tok !in conns {
        return;
      }
      if conns[tok].blocked {
        return;
      }
      hide Exec, Spec.Register, Spec.WakeClient;
      var reply := Dispatch(cmd, now);
      if reply.None? {
        Block(tok, cmd.key, cmd.timeout, now);
        return;
      }
      log := log + [(tok, reply.value)];
      if (cmd.LPush? || cmd.RPush?) && !reply.value.Failed? {
        WakeClient(cmd.key);
      }
    }

    // ---- the loop ----

    /** Any events, one after another, from a state with the invariant: the object goes through the
        states of the model, and the invariant holds at the end. */
    method Serve(events: seq<(int, Spec.Event)>)
      requires Spec.Inv(Abs()) && Spec.Run(Abs(), events).Some?
      modifies this
      ensures Spec.Run(old(Abs()), events) == Some(Abs()) && Spec.Inv(Abs())
    {
      hide Spec.Handle, Spec.CleanupExpired, Spec.CleanupBlocked, Spec.Inv;
      Spec.RunInv(Abs(), events);
      var rest := events;
      while |rest| > 0
        invariant Spec.Run(Abs(), rest).Some? && Spec.Run(Abs(), rest) == Spec.Run(old(Abs()), events)
        decreases |rest|
      {
        var (now, ev) := rest[0];
        assert Spec.Step(Abs(), ev, now).Some?;
        ghost var next := Spec.Step(Abs(), ev, now).value;
        match ev {
          case Accept(tok) => AcceptConn(tok);
          case Close(tok) => CloseConn(tok);
          case Request(tok, cmd) => Readable(tok, cmd, now);
          case Sweep => CleanupExpired(now);
          case Timeouts => CleanupBlocked(now);
        }
        assert Abs() == next;
        rest := rest[1..];
      }
    }
  }
}
