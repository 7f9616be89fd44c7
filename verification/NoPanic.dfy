/** When the server does not panic: only XADD can, on an ID past 64 bits or a record too large. */
module NoPanic {
  import opened Bytes
  import opened Decimal
  import opened Conservation
  import opened Keyspace
  import opened Server
  import opened StreamId
  import StreamSpec

  // ---- texts ----

  /** Some digits at the start already denote a number past 64 bits. */
  predicate TooBig(s: seq<byte>)
  {
    exists n :: 0 <= n <= |s| && AllDigits(s[..n]) && NumValue(s[..n]) > U64_MAX
  }

  lemma NumberOverflows(s: seq<byte>)
    ensures ParseU64(s).Overflows? <==> TooBig(s)
    ensures ParseU64(s).Good? || ParseU64(s).BadInteger? || ParseU64(s).Overflows?
  {
    var p := DigitPrefix(s);
    if n :| 0 <= n <= |s| && AllDigits(s[..n]) && NumValue(s[..n]) > U64_MAX {
      assert forall i :: 0 <= i < n ==> IsDigit(s[..n][i]) && s[..n][i] == s[i];
      NumValueGrows(s[..p], n);
      assert s[..p][..n] == s[..n];
    }
  }

  /** The text itself asks for a number past 64 bits. The sequence is only read after good milliseconds. */
  predicate OverflowText(text: seq<byte>)
  {
    FirstDash(text).Some?
    && var dash := FirstDash(text).value;
    || TooBig(text[..dash])
    || (ParseU64(text[..dash]).Good? && text[dash + 1..] != [STAR] && TooBig(text[dash + 1..]))
  }

  /** The text asks for the next sequence number where there is none. */
  predicate NoNextSeq(text: seq<byte>, last: StreamID, clock: u64)
  {
    last.seqno == U64_MAX
    && if text == [STAR] then last.ms == clock
       else
         FirstDash(text).Some?
         && var dash := FirstDash(text).value;
         text[dash + 1..] == [STAR] && ParseU64(text[..dash]) == Good(last.ms)
  }

  /** When reading an ID overflows. */
  lemma IdOverflows(text: seq<byte>, last: StreamID, clock: u64)
    ensures Parse(text, last, clock).Overflows? <==> OverflowText(text) || NoNextSeq(text, last, clock)
  {
    hide ParseU64, TooBig;
    if FirstDash(text).Some? {
      var dash := FirstDash(text).value;
      NumberOverflows(text[..dash]);
      NumberOverflows(text[dash + 1..]);
    }
  }

  /** The sequence number a text names itself. */
  function ExplicitSeq(text: seq<byte>): Option<u64>
  {
    match FirstDash(text)
    case None => None
    case Some(dash) =>
      match ParseU64(text[dash + 1..])
      case Good(seqno) => Some(seqno)
      case _ => None
  }

  /** Any other sequence number is zero or the next one. */
  lemma ParsedSeq(text: seq<byte>, last: StreamID, clock: u64)
    requires Parse(text, last, clock).Good?
    ensures var id := Parse(text, last, clock).value;
            ExplicitSeq(text) == Some(id.seqno) || id.seqno == 0 || id.seqno == last.seqno + 1
  {
    hide ParseU64;
  }

  // ---- one step ----

  /** A step panics exactly when it runs an XADD whose ID overflows or whose record does not fit. */
  lemma StepPanics(s: State, ev: Event, now: int)
    ensures Step(s, ev, now).None? <==>
            && RunsXAdd(s, ev) && ev.cmd.idText != ZERO_ID && |ev.cmd.kv| % 2 == 0
            && var chunks := StreamAt(s.db, ev.cmd.key);
            var parsed := Parse(ev.cmd.idText, TopId(chunks), ev.cmd.clock);
            || OverflowText(ev.cmd.idText) || NoNextSeq(ev.cmd.idText, TopId(chunks), ev.cmd.clock)
            || (parsed.Good? && StreamSpec.Add(chunks, StreamSpec.Record(parsed.value, Pairs(ev.cmd.kv))).Panics?)
  {
    hide Parse, Pairs, TopId, StreamSpec.Add, StreamSpec.GoodChunks, Replied, Register, TimeOutAll, Reverse;
    if RunsXAdd(s, ev) {
      IdOverflows(ev.cmd.idText, TopId(StreamAt(s.db, ev.cmd.key)), ev.cmd.clock);
    }
  }

  // ---- whole runs ----

  /** An XADD whose fields leave room, whose text does not overflow and names no sequence above m. */
  predicate Modest(ev: Event, m: int)
  {
    ev.Request? && ev.cmd.XAdd? ==>
      && StreamSpec.SmallFields(Pairs(ev.cmd.kv)) && !OverflowText(ev.cmd.idText)
      && (ExplicitSeq(ev.cmd.idText).Some? ==> ExplicitSeq(ev.cmd.idText).value <= m)
  }

  /** No stream's last ID has a sequence above b. */
  ghost predicate TopsBelow(db: DB, b: int)
  {
    forall k :: TopId(StreamAt(db, k)).seqno <= b
  }

  lemma XAddTops(db: DB, cmd: Command, m: int, b: int)
    requires cmd.XAdd? && Modest(Request(0, cmd), m) && m <= b && 0 <= b && TopsBelow(db, b)
    requires AddEntry(db, cmd.key, cmd.idText, cmd.kv, cmd.clock).Done?
    ensures TopsBelow(AddEntry(db, cmd.key, cmd.idText, cmd.kv, cmd.clock).db, b + 1)
  {
    hide Parse, AddEntry, OverflowText, StreamSpec.SmallFields, StreamSpec.GoodChunks, TopId, ExplicitSeq;
    var out := AddEntry(db, cmd.key, cmd.idText, cmd.kv, cmd.clock);
    XAddEffect(db, cmd.key, cmd.idText, cmd.kv, cmd.clock);
    if out.reply.AddedId? {
      ParsedSeq(cmd.idText, TopId(StreamAt(db, cmd.key)), cmd.clock);
    }
    forall k ensures TopId(StreamAt(out.db, k)).seqno <= b + 1 {
      assert TopId(StreamAt(db, k)).seqno <= b;
    }
  }

  lemma StepTops(s: State, ev: Event, now: int, m: int, b: int)
    requires Modest(ev, m) && m <= b && 0 <= b && TopsBelow(s.db, b) && Step(s, ev, now).Some?
    ensures TopsBelow(Step(s, ev, now).value.db, b + 1)
  {
    hide Step, AddEntry, OverflowText, StreamSpec.SmallFields, StreamSpec.GoodChunks, TopId, ExplicitSeq;
    var s' := Step(s, ev, now).value;
    if RunsXAdd(s, ev) {
      XAddStep(s, ev.tok, ev.cmd, now);
      XAddTops(s.db, ev.cmd, m, b);
    } else {
      forall k ensures TopId(StreamAt(s'.db, k)).seqno <= b + 1 {
        StepNoNewStream(s, ev, now, k);
        assert TopId(StreamAt(s.db, k)).seqno <= b;
        NoTopId();
      }
    }
  }

  lemma StepCompletes(s: State, ev: Event, now: int, m: int, b: int)
    requires Modest(ev, m) && TopsBelow(s.db, b) && b < U64_MAX
    ensures Step(s, ev, now).Some?
  {
    hide Step, Parse, OverflowText, StreamSpec.SmallFields, StreamSpec.Small, StreamSpec.Add, TopId, ExplicitSeq;
    StepPanics(s, ev, now);
    if RunsXAdd(s, ev) {
      var chunks := StreamAt(s.db, ev.cmd.key);
      var parsed := Parse(ev.cmd.idText, TopId(chunks), ev.cmd.clock);
      if parsed.Good? {
        StreamSpec.GoodStored(chunks);
        StreamSpec.SmallWithAnyId(parsed.value, Pairs(ev.cmd.kv));
        StreamSpec.AddSmall(chunks, StreamSpec.Record(parsed.value, Pairs(ev.cmd.kv)));
      }
    }
  }

  lemma {:induction false} RunFrom(s: State, events: seq<(int, Event)>, m: int, b: int)
    requires forall i :: 0 <= i < |events| ==> Modest(events[i].1, m)
    requires m <= b && 0 <= b && TopsBelow(s.db, b) && b + |events| <= U64_MAX
    ensures Run(s, events).Some?
    decreases events
  {
    hide Step, Modest, TopsBelow;
    if |events| == 0 {
    } else {
      var (now, ev) := events[0];
      assert Modest(ev, m);
      StepCompletes(s, ev, now, m, b);
      StepTops(s, ev, now, m, b);
      RunFrom(Step(s, ev, now).value, events[1..], m, b + 1);
    }
  }

  /** A run of n events from the empty server completes if no XADD text overflows or names a sequence
      above 2^64 - 1 - n, and all fields fit a listpack with room to spare. */
  lemma RunCompletes(events: seq<(int, Event)>)
    requires |events| <= U64_MAX
    requires forall i :: 0 <= i < |events| ==> Modest(events[i].1, U64_MAX - |events|)
    ensures Run(INITIAL, events).Some?
  {
    hide Modest;
    var b := U64_MAX - |events|;
    assert TopsBelow(INITIAL.db, b) by { NoTopId(); }
    RunFrom(INITIAL, events, b, b);
  }
}
