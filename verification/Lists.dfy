/** What the list commands do to their list and reply. */
module Lists {
  import opened Bytes
  import opened Effects
  import opened Keyspace
  import opened Server
  import opened StreamId
  import StreamSpec

  /** The items a reply hands out. */
  function Items(r: Reply): seq<Item>
  {
    match r
    case Popped(_, item) => [item]
    case PoppedMany(_, items) => items
    case Handed(_, item) => [item]
    case _ => []
  }

  /** A key of another type, or none, loses what it held to a new list; nothing else is touched, and the
      reply is the length of the list afterwards. A push of nothing fails. */
  lemma PushReplies(db: DB, cmd: Command, now: int)
    requires cmd.RPush? || cmd.LPush?
    ensures Exec(db, cmd, now).Done?
    ensures var out := Exec(db, cmd, now);
            if |cmd.values| == 0 then out == Done(db, Failed(WrongArgCount))
            else
              var held := ListAt(db, cmd.key);
              && cmd.key in out.db && out.db[cmd.key].value.VList?
              && out.reply == Count(|held| + |cmd.values|) && |ListAt(out.db, cmd.key)| == |held| + |cmd.values|
              && (cmd.RPush? ==> ListAt(out.db, cmd.key) == held + cmd.values)
              && (cmd.LPush? ==>
                    && ListAt(out.db, cmd.key)[|cmd.values|..] == held
                    && forall i :: 0 <= i < |cmd.values| ==>
                                     ListAt(out.db, cmd.key)[i] == cmd.values[|cmd.values| - 1 - i])
              && (!(cmd.key in db && db[cmd.key].value.VList?) ==> held == [] && out.db[cmd.key].expiry.None?)
              && (forall k :: k != cmd.key ==> SameAt(db, out.db, k))
  {
    hide StreamSpec.GoodChunks, Push, Reverse;
    if |cmd.values| == 0 {
      PushNothing(db, cmd.key, cmd.LPush?);
    } else {
      PushSome(db, cmd.key, cmd.values, cmd.LPush?);
    }
  }

  lemma PushNothing(db: DB, key: Key, front: bool)
    ensures Push(db, key, [], front) == Done(db, Failed(WrongArgCount))
  {
  }

  lemma PushSome(db: DB, key: Key, values: seq<Item>, front: bool)
    requires |values| > 0
    ensures var out := Push(db, key, values, front);
            var items := if front then Reverse(values) + ListAt(db, key) else ListAt(db, key) + values;
            && out.Done? && out.reply == Count(|items|) && ListAt(out.db, key) == items
            && key in out.db && out.db[key].value.VList?
            && (!(key in db && db[key].value.VList?) ==> ListAt(db, key) == [] && out.db[key].expiry.None?)
            && (forall k :: k != key ==> SameAt(db, out.db, k))
  {
    hide StreamSpec.GoodChunks, Reverse;
  }

  /** LPOP hands out as many items from the front as were asked for and are there, and keeps the rest; it
      answers with a single item exactly when one was asked for. */
  lemma PopReplies(db: DB, key: Key, count: nat, now: int)
    ensures Exec(db, LPop(key, count), now).Done?
    ensures var out := Exec(db, LPop(key, count), now);
            var held := ListAt(db, key);
            && (key !in db ==> out == Done(db, Nil))
            && (key in db && !db[key].value.VList? ==> out == Done(db, Failed(WrongType)))
            && (key in db && db[key].value.VList? && held == [] ==> out == Done(db, Nil))
            && (held != [] ==>
                  && Items(out.reply) + ListAt(out.db, key) == held
                  && |Items(out.reply)| == (if count < |held| then count else |held|)
                  && (out.reply.Popped? <==> count == 1) && (out.reply.PoppedMany? <==> count != 1)
                  && key in out.db && out.db[key].value.VList? && out.db[key].expiry == db[key].expiry
                  && (forall k :: k != key ==> SameAt(db, out.db, k)))
  {
    hide StreamSpec.GoodChunks;
    var held := ListAt(db, key);
    if held != [] {
      assert [held[0]] + held[1..] == held;
      var n := if count < |held| then count else |held|;
      assert held[..n] + held[n..] == held;
    }
  }

  /** BLPOP takes exactly the head, or has to wait when there is none. */
  lemma BlockingPopReplies(db: DB, key: Key, timeout: Option<nat>, now: int)
    ensures var out := Exec(db, BLPop(key, timeout), now);
            var held := ListAt(db, key);
            && (held == [] ==> out == Blocks)
            && (held != [] ==>
                  && out.Done? && out.reply == Handed(key, held[0]) && held == [held[0]] + ListAt(out.db, key)
                  && key in out.db && out.db[key].value.VList? && out.db[key].expiry == db[key].expiry
                  && (forall k :: k != key ==> SameAt(db, out.db, k)))
  {
    hide StreamSpec.GoodChunks;
  }

  /** On a key without items: those pushed at the back come out of the front in their order, those pushed
      at the front in reverse. */
  lemma PushThenPop(db: DB, cmd: Command, now: int, later: int)
    requires (cmd.RPush? || cmd.LPush?) && |cmd.values| > 0 && ListAt(db, cmd.key) == []
    ensures Exec(db, cmd, now).Done? && Exec(Exec(db, cmd, now).db, LPop(cmd.key, |cmd.values|), later).Done?
    ensures var items := Items(Exec(Exec(db, cmd, now).db, LPop(cmd.key, |cmd.values|), later).reply);
            && |items| == |cmd.values|
            && forall i :: 0 <= i < |items| ==>
                             items[i] == cmd.values[if cmd.RPush? then i else |cmd.values| - 1 - i]
  {
    hide Exec, Items;
    PushReplies(db, cmd, now);
    var pushed := Exec(db, cmd, now).db;
    PopReplies(pushed, cmd.key, |cmd.values|, later);
    var items := Items(Exec(pushed, LPop(cmd.key, |cmd.values|), later).reply);
    assert items + ListAt(Exec(pushed, LPop(cmd.key, |cmd.values|), later).db, cmd.key) == ListAt(pushed, cmd.key);
    assert forall i :: 0 <= i < |items| ==> items[i] == ListAt(pushed, cmd.key)[i];
  }
}
