/** What a stream stores: records packed into chunks, one listpack per chunk. */
module StreamSpec {
  import opened Bytes
  import opened Decimal
  import opened ListpackCodec
  import opened ListpackLaws
  import opened Listpack
  import opened StreamId

  type Fields = seq<(seq<byte>, seq<byte>)>

  datatype Record = Record(id: StreamID, fields: Fields)

  // ---- records as listpack elements ----

  predicate AllInRange(es: seq<Elem>)
  {
    forall i :: 0 <= i < |es| ==> InRange(es[i])
  }

  function FieldElems(fields: Fields): (es: seq<Elem>)
    ensures |es| == 2 * |fields| && AllInRange(es)
  {
    if |fields| == 0 then []
    else [AppendElem(fields[0].0), AppendElem(fields[0].1)] + FieldElems(fields[1..])
  }

  /** A record is its two ID halves and its field count as eight bytes each, then its fields. */
  function RecordElems(r: Record): (es: seq<Elem>)
    ensures |es| == 3 + 2 * |r.fields| && AllInRange(es)
  {
    [AppendElem(BeBytes(8, r.id.ms)), AppendElem(BeBytes(8, r.id.seqno)), AppendElem(BeBytes(8, |r.fields|))]
    + FieldElems(r.fields)
  }

  function Elems(records: seq<Record>): (es: seq<Elem>)
    ensures AllInRange(es)
  {
    if |records| == 0 then [] else RecordElems(records[0]) + Elems(records[1..])
  }

  lemma {:induction false} ElemsAppend(a: seq<Record>, b: seq<Record>)
    ensures Elems(a + b) == Elems(a) + Elems(b)
  {
    hide Elems, RecordElems, AllInRange;
    if |a| == 0 {
      assert a == [] && a + b == b;
      ElemsEmpty();
    } else {
      ElemsAppend(a[1..], b);
      ElemsUnfold(a);
      ElemsUnfold(a + b);
      assert (a + b)[1..] == a[1..] + b;
    }
  }

  lemma ElemsEmpty()
    ensures Elems([]) == []
  {
  }

  lemma ElemsUnfold(a: seq<Record>)
    requires |a| > 0
    ensures Elems(a) == RecordElems(a[0]) + Elems(a[1..])
  {
  }

  lemma ElemsSnoc(records: seq<Record>, r: Record)
    ensures Elems(records + [r]) == Elems(records) + RecordElems(r)
  {
    ElemsAppend(records, [r]);
    assert Elems([r]) == RecordElems(r) + Elems([r][1..]);
  }

  /** All the elements fit in one listpack. */
  predicate Fits(es: seq<Elem>)
  {
    AllEncodable(es) && ImageSize(es) <= U32_MAX
  }

  lemma ElemsAround(records: seq<Record>, i: nat)
    requires i < |records|
    ensures Elems(records) == Elems(records[..i]) + (RecordElems(records[i]) + Elems(records[i + 1..]))
  {
    hide Elems, RecordElems;
    assert records == records[..i] + records[i..] && records[i..][1..] == records[i + 1..];
    ElemsAppend(records[..i], records[i..]);
    ElemsUnfold(records[i..]);
  }

  /** The size limit bounds the number of fields far below 2^56. */
  lemma FitsFields(records: seq<Record>, i: nat)
    requires Fits(Elems(records)) && i < |records|
    ensures |records[i].fields| < 0x100_0000_0000_0000
  {
    hide Elems, RecordElems, Body, AllEncodable;
    ElemsAround(records, i);
    assert |Elems(records)| >= 3 + 2 * |records[i].fields|;
  }

  /** The fields as the flat list of byte strings a client sends and expects back. */
  function Flat(fields: Fields): seq<seq<byte>>
  {
    if |fields| == 0 then [] else [fields[0].0, fields[0].1] + Flat(fields[1..])
  }

  function ShownAll(es: seq<Elem>): (r: seq<seq<byte>>)
    ensures |r| == |es| && forall i :: 0 <= i < |es| ==> r[i] == Shown(es[i])
  {
    seq(|es|, i requires 0 <= i < |es| => Shown(es[i]))
  }

  /** Stored fields, with integers printed back, are the fields that were given. */
  lemma {:induction false} FieldsShown(fields: Fields)
    ensures ShownAll(FieldElems(fields)) == Flat(fields)
  {
    if |fields| == 0 {
    } else {
      AppendLossless(fields[0].0);
      AppendLossless(fields[0].1);
      FieldsShown(fields[1..]);
    }
  }

  // ---- scanning a listpack for a record ----

  /** The field count an element stands for; an Int is cast to an unsigned 64-bit number. */
  function FieldCount(e: Elem): Option<nat>
    requires InRange(e)
  {
    match e
    case Int(n) => Some(ToUnsigned(n, 0x1_0000_0000_0000_0000))
    case Str(b) => if |b| == 8 then Some(BeValue(b)) else None
  }

  /** find_entry_in_listpack over the elements its iterator yields. */
  function Find(es: seq<Elem>, target: StreamID): Option<seq<Elem>>
    requires AllInRange(es)
  {
    if |es| < 3 || !es[0].Str? || !es[1].Str? || |es[0].s| != 8 || |es[1].s| != 8 then None
    else
      match FieldCount(es[2])
      case None => None
      case Some(n) =>
        if |es| < 3 + 2 * n then None
        else if BeValue(es[0].s) == target.ms && BeValue(es[1].s) == target.seqno then Some(es[3..3 + 2 * n])
        else Find(es[3 + 2 * n..], target)
  }

  /** Lists whose head is no record header. */
  lemma FindNoHeader(es: seq<Elem>, target: StreamID)
    requires AllInRange(es)
    ensures |es| < 3 || es[0].Int? || es[1].Int? ==> Find(es, target) == None
    ensures |es| >= 2 && es[0].Str? && es[1].Str? && (|es[0].s| != 8 || |es[1].s| != 8) ==> Find(es, target) == None
  {
  }

  lemma FindHeader(es: seq<Elem>, target: StreamID)
    requires AllInRange(es) && |es| >= 3 && es[0].Str? && es[1].Str? && |es[0].s| == 8 && |es[1].s| == 8
    ensures forall m :: 3 <= m <= |es| ==> AllInRange(es[m..])
    ensures Find(es, target) ==
            match FieldCount(es[2])
            case None => None
            case Some(n) =>
              if |es| < 3 + 2 * n then None
              else if BeValue(es[0].s) == target.ms && BeValue(es[1].s) == target.seqno then Some(es[3..3 + 2 * n])
              else Find(es[3 + 2 * n..], target)
  {
    hide BeValue, FieldCount, InRange;
  }

  lemma FindStep(ms: seq<byte>, seqno: seq<byte>, count: Elem, rest: seq<Elem>, target: StreamID)
    requires AllInRange([Str(ms), Str(seqno), count] + rest)
    requires |ms| == 8 && |seqno| == 8
    ensures InRange(count) && AllInRange(rest)
    ensures FieldCount(count).Some? && |rest| >= 2 * FieldCount(count).value ==>
              AllInRange(rest[2 * FieldCount(count).value..])
    ensures Find([Str(ms), Str(seqno), count] + rest, target) ==
            match FieldCount(count)
            case None => None
            case Some(n) =>
              if |rest| < 2 * n then None
              else if BeValue(ms) == target.ms && BeValue(seqno) == target.seqno then Some(rest[..2 * n])
              else Find(rest[2 * n..], target)
  {
    hide BeValue, FieldCount, InRange, Find;
    var es := [Str(ms), Str(seqno), count] + rest;
    assert es[0] == Str(ms) && es[1] == Str(seqno) && es[2] == count;
    assert rest == es[3..];
    FindHeader(es, target);
    if FieldCount(count).Some? && |rest| >= 2 * FieldCount(count).value {
      var n := FieldCount(count).value;
      assert es[3..3 + 2 * n] == rest[..2 * n];
      assert es[3 + 2 * n..] == rest[2 * n..];
    }
  }

  /** One of the ID's eight-byte halves happens to be the text of an integer. */
  predicate Textual(id: StreamID)
  {
    StrictParse(BeBytes(8, id.ms)).Some? || StrictParse(BeBytes(8, id.seqno)).Some?
  }

  /** The scan as it acts on whole records: it gives up at the first textual ID. */
  function Lookup(records: seq<Record>, target: StreamID): Option<seq<Elem>>
  {
    if |records| == 0 || Textual(records[0].id) then None
    else if records[0].id == target then Some(FieldElems(records[0].fields))
    else Lookup(records[1..], target)
  }

  lemma FindRecord(r: Record, rest: seq<Elem>, target: StreamID)
    requires |r.fields| < 0x100_0000_0000_0000
    requires AllInRange(rest)
    ensures Find(RecordElems(r) + rest, target) ==
            if Textual(r.id) then None
            else if r.id == target then Some(FieldElems(r.fields))
            else Find(rest, target)
  {
    hide BeBytes, BeValue, StrictParse, Find;
    var n := |r.fields|;
    Pow256Values();
    BeRoundTrip(8, r.id.ms);
    BeRoundTrip(8, r.id.seqno);
    BeRoundTrip(8, n);
    SmallIdNotText(n);
    var es, tail := RecordElems(r) + rest, FieldElems(r.fields) + rest;
    if Textual(r.id) {
      FindNoHeader(es, target);
    } else {
      assert es == [Str(BeBytes(8, r.id.ms)), Str(BeBytes(8, r.id.seqno)), Str(BeBytes(8, n))] + tail;
      FindStep(BeBytes(8, r.id.ms), BeBytes(8, r.id.seqno), Str(BeBytes(8, n)), tail, target);
      assert tail[..2 * n] == FieldElems(r.fields) && tail[2 * n..] == rest;
    }
  }

  /** Scanning the elements of a list of records is looking the records up one by one. */
  lemma {:induction false} FindIsLookup(records: seq<Record>, target: StreamID)
    requires forall i :: 0 <= i < |records| ==> |records[i].fields| < 0x100_0000_0000_0000
    ensures Find(Elems(records), target) == Lookup(records, target)
  {
    if |records| == 0 {
    } else {
      FindRecord(records[0], Elems(records[1..]), target);
      FindIsLookup(records[1..], target);
    }
  }

  // ---- chunks ----

  type Chunk = seq<Record>

  const MAX_BYTES: nat := 4096
  const MAX_GAP: nat := 1000

  /** The listpack of a chunk holds its records' elements. */
  predicate Stored(chunk: Chunk)
  {
    |chunk| > 0 && Fits(Elems(chunk))
  }

  function Head(chunk: Chunk): StreamID
    requires |chunk| > 0
  {
    chunk[0].id
  }

  function Last(chunk: Chunk): StreamID
    requires |chunk| > 0
  {
    chunk[|chunk| - 1].id
  }

  /** IDs strictly ascend within each chunk, and every ID of a chunk is below those of later chunks. */
  predicate Ascend(chunks: seq<Chunk>)
  {
    && (forall i, a, b :: 0 <= i < |chunks| && 0 <= a < b < |chunks[i]| ==> Less(chunks[i][a].id, chunks[i][b].id))
    && (forall i, j, a, b :: 0 <= i < j < |chunks| && 0 <= a < |chunks[i]| && 0 <= b < |chunks[j]|
                             ==> Less(chunks[i][a].id, chunks[j][b].id))
  }

  lemma GoodStored(chunks: seq<Chunk>)
    requires GoodChunks(chunks)
    ensures AllStored(chunks)
  {
  }

  predicate AllStored(chunks: seq<Chunk>)
  {
    forall i :: 0 <= i < |chunks| ==> Stored(chunks[i])
  }

  /** The later chunk had to be started: the earlier one is full or its last ID is too old. */
  predicate Follows(prev: Chunk, next: Chunk)
  {
    && Stored(prev) && Stored(next)
    && (ImageSize(Elems(prev)) >= MAX_BYTES || Head(next).ms >= Last(prev).ms + MAX_GAP)
  }

  /** Between any two neighbours a new chunk had to be started. */
  predicate Maximal(chunks: seq<Chunk>)
  {
    forall i, j :: 0 <= i && j == i + 1 < |chunks| ==> Follows(chunks[i], chunks[j])
  }

  /** Record n was added to a listpack below the size limit, close in time to the record before it. */
  predicate AddedInTime(chunk: Chunk, n: nat)
    requires 0 < n < |chunk|
  {
    && AllEncodable(Elems(chunk[..n])) && ImageSize(Elems(chunk[..n])) < MAX_BYTES
    && chunk[n].id.ms < chunk[n - 1].id.ms + MAX_GAP
  }

  /** Every record after the first was added in time. */
  predicate Bounded(chunk: Chunk)
  {
    forall n :: 0 < n < |chunk| ==> AddedInTime(chunk, n)
  }

  /** What every reachable stream satisfies. */
  ghost predicate GoodChunks(chunks: seq<Chunk>)
  {
    && AllStored(chunks)
    && (forall i :: 0 <= i < |chunks| ==> Bounded(chunks[i]))
    && Ascend(chunks)
    && Maximal(chunks)
  }

  /** The chunking of a reachable stream: a chunk is only followed by another once it has 4096 bytes or
      the next ID is 1000 ms later; every record after a chunk's first met neither. */
  lemma ChunksAreMaximal(chunks: seq<Chunk>, i: nat, n: nat)
    requires GoodChunks(chunks) && i < |chunks|
    ensures |chunks[i]| > 0 && AllEncodable(Elems(chunks[i]))
    ensures i + 1 < |chunks| ==>
              |chunks[i + 1]| > 0
              && (|Image(Elems(chunks[i]))| >= 4096 || Head(chunks[i + 1]).ms >= Last(chunks[i]).ms + 1000)
    ensures 0 < n < |chunks[i]| ==>
              && AllEncodable(Elems(chunks[i][..n])) && |Image(Elems(chunks[i][..n]))| < 4096
              && chunks[i][n].id.ms < chunks[i][n - 1].id.ms + 1000
  {
    hide Elems, ImageSize;
    assert Stored(chunks[i]);
    if i + 1 < |chunks| {
      assert Follows(chunks[i], chunks[i + 1]);
    }
    if 0 < n < |chunks[i]| {
      assert Bounded(chunks[i]) && AddedInTime(chunks[i], n);
    }
  }

  predicate CanAppend(chunk: Chunk, id: StreamID)
  {
    Stored(chunk) && ImageSize(Elems(chunk)) < MAX_BYTES && Less(Last(chunk), id) && id.ms - Last(chunk).ms < MAX_GAP
  }

  /** Panics stands for an `unwrap` on a failed listpack append. */
  datatype AddOutcome = Added(chunks: seq<Chunk>) | Rejected | Panics

  /** Adding goes to the last chunk or to a new one. */
  function Add(chunks: seq<Chunk>, r: Record): AddOutcome
    requires AllStored(chunks)
  {
    if |chunks| == 0 then AddNew(chunks, r)
    else
      var last := chunks[|chunks| - 1];
      assert Stored(last);
      if !Less(Last(last), r.id) then Rejected
      else if CanAppend(last, r.id) then AddToLast(chunks, r)
      else AddNew(chunks, r)
  }

  function AddToLast(chunks: seq<Chunk>, r: Record): AddOutcome
    requires |chunks| > 0
  {
    var n := |chunks| - 1;
    if Fits(Elems(chunks[n]) + RecordElems(r)) then Added(chunks[n := chunks[n] + [r]]) else Panics
  }

  function AddNew(chunks: seq<Chunk>, r: Record): AddOutcome
  {
    if Fits(RecordElems(r)) then Added(chunks + [[r]]) else Panics
  }

  lemma AppendGood(chunk: Chunk, r: Record)
    requires Stored(chunk) && Bounded(chunk) && CanAppend(chunk, r.id)
    requires Fits(Elems(chunk) + RecordElems(r))
    ensures Stored(chunk + [r]) && Bounded(chunk + [r])
  {
    hide Fits, AllEncodable, RecordElems, Elems, ImageSize;
    ElemsSnoc(chunk, r);
    var longer := chunk + [r];
    assert longer[..|chunk|] == chunk;
    assert AllEncodable(Elems(chunk)) by { FitsEncodable(Elems(chunk)); }
    forall k | 0 < k < |longer| ensures AddedInTime(longer, k) {
      if k < |chunk| {
        assert AddedInTime(chunk, k);
        assert longer[..k] == chunk[..k];
      }
    }
  }

  lemma FitsEncodable(es: seq<Elem>)
    requires Fits(es)
    ensures AllEncodable(es)
  {
  }

  lemma NewGood(r: Record)
    requires Fits(RecordElems(r))
    ensures Stored([r]) && Bounded([r])
  {
    ElemsSnoc([], r);
    assert [] + [r] == [r];
    assert Elems([r]) == RecordElems(r);
  }

  /** Every chunk invariant survives every accepted add. */
  lemma AddGood(chunks: seq<Chunk>, r: Record)
    requires GoodChunks(chunks) && Add(chunks, r).Added?
    ensures GoodChunks(Add(chunks, r).chunks)
  {
    hide Fits, Elems, RecordElems, Bounded, ImageSize;
    var n := |chunks|;
    var r' := Add(chunks, r).chunks;
    if n > 0 && CanAppend(chunks[n - 1], r.id) {
      AppendGood(chunks[n - 1], r);
      assert r' == chunks[n - 1 := chunks[n - 1] + [r]];
      assert Maximal(r');
    } else {
      NewGood(r);
      assert Maximal(r');
    }
    assert Ascend(r');
  }

  /** An accepted record is above the last ID and becomes the last one. */
  lemma AddLastId(chunks: seq<Chunk>, r: Record)
    requires GoodChunks(chunks)
    ensures AllStored(chunks) && (|chunks| > 0 ==> |chunks[|chunks| - 1]| > 0)
    ensures Add(chunks, r).Added? ==>
              var chunks' := Add(chunks, r).chunks;
              && |chunks'| > 0 && |chunks'[|chunks'| - 1]| > 0 && Last(chunks'[|chunks'| - 1]) == r.id
              && (|chunks| > 0 ==> Less(Last(chunks[|chunks| - 1]), r.id))
  {
    hide Fits, Elems, RecordElems, CanAppend, Ascend, Maximal, Bounded;
    if |chunks| > 0 {
      assert Stored(chunks[|chunks| - 1]);
    }
  }

  // ---- lookup ----

  /** Lookup in the chunk with the greatest head not above the target. */
  function GetIn(chunks: seq<Chunk>, target: StreamID): Option<seq<Elem>>
    requires AllStored(chunks)
  {
    if |chunks| == 0 then None
    else
      var last := chunks[|chunks| - 1];
      if !Less(target, Head(last)) then Lookup(last, target) else GetIn(chunks[..|chunks| - 1], target)
  }

  /** No record up to position j has a textual ID. */
  predicate ClearUpTo(records: seq<Record>, j: nat)
    requires j < |records|
  {
    forall k :: 0 <= k <= j ==> !Textual(records[k].id)
  }

  lemma {:induction false} LookupAt(records: seq<Record>, j: nat)
    requires j < |records|
    requires forall a, b :: 0 <= a < b < |records| ==> Less(records[a].id, records[b].id)
    ensures Lookup(records, records[j].id) ==
            if ClearUpTo(records, j) then Some(FieldElems(records[j].fields)) else None
  {
    if j == 0 || Textual(records[0].id) {
    } else {
      var rest := records[1..];
      LookupAt(rest, j - 1);
      assert forall k :: 0 < k <= j ==> records[k] == rest[k - 1];
      assert ClearUpTo(records, j) <==> ClearUpTo(rest, j - 1) by {
        assert forall k :: 0 <= k <= j - 1 ==> rest[k] == records[k + 1];
      }
    }
  }

  lemma {:induction false} LookupAbsent(records: seq<Record>, target: StreamID)
    requires forall a :: 0 <= a < |records| ==> records[a].id != target
    ensures Lookup(records, target) == None
  {
    if |records| == 0 {
    } else {
      LookupAbsent(records[1..], target);
    }
  }

  lemma Prefix(chunks: seq<Chunk>, n: nat)
    requires AllStored(chunks) && Ascend(chunks) && n <= |chunks|
    ensures AllStored(chunks[..n]) && Ascend(chunks[..n])
  {
    hide Stored;
  }

  /** The floor chunk of a stored ID is the chunk that holds it. */
  lemma {:induction false} GetFindsChunk(chunks: seq<Chunk>, i: nat, j: nat)
    requires AllStored(chunks) && Ascend(chunks) && i < |chunks| && j < |chunks[i]|
    ensures GetIn(chunks, chunks[i][j].id) == Lookup(chunks[i], chunks[i][j].id)
  {
    hide Lookup, Stored, Ascend;
    var n := |chunks| - 1;
    AgainstLastHead(chunks, i, j);
    if i < n {
      Prefix(chunks, n);
      GetFindsChunk(chunks[..n], i, j);
    }
  }

  /** Only the last chunk's IDs reach its first one. */
  lemma AgainstLastHead(chunks: seq<Chunk>, i: nat, j: nat)
    requires AllStored(chunks) && Ascend(chunks) && i < |chunks| && j < |chunks[i]|
    ensures var n := |chunks| - 1;
            |chunks[n]| > 0 && (Less(chunks[i][j].id, Head(chunks[n])) <==> i < n)
  {
    hide Fits;
    var n := |chunks| - 1;
    assert Stored(chunks[n]);
    assert i < n ==> Less(chunks[i][j].id, chunks[n][0].id);
    assert i == n && j > 0 ==> Less(chunks[n][0].id, chunks[n][j].id);
  }

  predicate Holds(chunks: seq<Chunk>, id: StreamID)
  {
    exists i, j :: 0 <= i < |chunks| && 0 <= j < |chunks[i]| && chunks[i][j].id == id
  }

  /** An ID that was never stored is never found. */
  lemma {:induction false} GetAbsent(chunks: seq<Chunk>, target: StreamID)
    requires AllStored(chunks) && !Holds(chunks, target)
    ensures GetIn(chunks, target) == None
  {
    hide Fits, Lookup;
    if |chunks| == 0 {
    } else {
      var n := |chunks| - 1;
      assert Stored(chunks[n]);
      LookupAbsent(chunks[n], target);
      assert !Holds(chunks[..n], target) by {
        forall i, j | 0 <= i < n && 0 <= j < |chunks[i]| ensures chunks[..n][i][j].id != target {
          assert chunks[i][j].id != target;
        }
      }
      GetAbsent(chunks[..n], target);
    }
  }

  /** A stored record is found exactly when no record of its chunk up to it has a textual ID, and
      what is found are its own fields. */
  lemma GetExact(chunks: seq<Chunk>, i: nat, j: nat)
    requires AllStored(chunks) && Ascend(chunks) && i < |chunks| && j < |chunks[i]|
    ensures var found := GetIn(chunks, chunks[i][j].id);
            (found.Some? <==> ClearUpTo(chunks[i], j))
            && (found.Some? ==> ShownAll(found.value) == Flat(chunks[i][j].fields))
  {
    GetFindsChunk(chunks, i, j);
    LookupAt(chunks[i], j);
    FieldsShown(chunks[i][j].fields);
  }

  // ---- runs ----

  /** The chunks after a run of adds on a new stream, or None when one of them panicked. */
  ghost function Run(ops: seq<Record>): (r: Option<seq<Chunk>>)
    ensures r.Some? ==> GoodChunks(r.value)
  {
    if |ops| == 0 then Some([])
    else
      match Run(ops[..|ops| - 1])
      case None => None
      case Some(chunks) =>
        match Add(chunks, ops[|ops| - 1])
        case Added(chunks') =>
          AddGood(chunks, ops[|ops| - 1]);
          Some(chunks')
        case Rejected => Some(chunks)
        case Panics => None
  }

  lemma {:induction false} RunPrefix(ops: seq<Record>, k: nat)
    requires Run(ops).Some? && k <= |ops|
    ensures Run(ops[..k]).Some?
  {
    if k < |ops| {
      RunPrefix(ops[..|ops| - 1], k);
      assert ops[..|ops| - 1][..k] == ops[..k];
    } else {
      assert ops[..k] == ops;
    }
  }

  /** The plain log a run leaves: each record whose ID is above all before it. */
  function Accepted(ops: seq<Record>): seq<Record>
  {
    if |ops| == 0 then []
    else
      var log, r := Accepted(ops[..|ops| - 1]), ops[|ops| - 1];
      if |log| == 0 || Less(log[|log| - 1].id, r.id) then log + [r] else log
  }

  function Log(chunks: seq<Chunk>): seq<Record>
  {
    if |chunks| == 0 then [] else Log(chunks[..|chunks| - 1]) + chunks[|chunks| - 1]
  }

  lemma AddLog(chunks: seq<Chunk>, r: Record)
    requires AllStored(chunks)
    ensures |Log(chunks)| == 0 <==> |chunks| == 0
    ensures |chunks| > 0 ==> Log(chunks)[|Log(chunks)| - 1].id == Last(chunks[|chunks| - 1])
    ensures Add(chunks, r).Added? ==> Log(Add(chunks, r).chunks) == Log(chunks) + [r]
    ensures Add(chunks, r).Rejected? <==> |chunks| > 0 && !Less(Last(chunks[|chunks| - 1]), r.id)
  {
    hide Fits, Elems, RecordElems, ImageSize;
    var n := |chunks|;
    if n > 0 {
      assert Stored(chunks[n - 1]);
    }
    if Add(chunks, r).Added? {
      var r' := Add(chunks, r).chunks;
      if |r'| == n {
        assert r'[..n - 1] == chunks[..n - 1];
      } else {
        assert r'[..n] == chunks;
      }
    }
  }

  /** A run's chunks, read in order, are exactly the accepted records. */
  lemma {:induction false} RunLog(ops: seq<Record>)
    requires Run(ops).Some?
    ensures Log(Run(ops).value) == Accepted(ops)
  {
    hide Add;
    if |ops| == 0 {
    } else {
      var init := ops[..|ops| - 1];
      RunLog(init);
      AddLog(Run(init).value, ops[|ops| - 1]);
    }
  }

  lemma {:induction false} LogMember(chunks: seq<Chunk>, k: nat) returns (i: nat, j: nat)
    requires k < |Log(chunks)|
    ensures i < |chunks| && j < |chunks[i]| && chunks[i][j] == Log(chunks)[k]
  {
    var n := |chunks| - 1;
    var before := Log(chunks[..n]);
    if k < |before| {
      i, j := LogMember(chunks[..n], k);
    } else {
      i, j := n, k - |before|;
    }
  }

  lemma {:induction false} MemberLog(chunks: seq<Chunk>, i: nat, j: nat)
    requires i < |chunks| && j < |chunks[i]|
    ensures chunks[i][j] in Log(chunks)
  {
    var n := |chunks| - 1;
    if i < n {
      MemberLog(chunks[..n], i, j);
    }
  }

  /** After any run of adds on a new stream, whatever its IDs: an ID that was not accepted is not
      found, and what is found under an accepted ID, printed, is what was added under it. */
  lemma StreamNeverInvents(ops: seq<Record>, target: StreamID)
    requires Run(ops).Some?
    ensures var found := GetIn(Run(ops).value, target);
            found.Some? ==>
              exists k :: 0 <= k < |Accepted(ops)| && Accepted(ops)[k].id == target
                          && ShownAll(found.value) == Flat(Accepted(ops)[k].fields)
  {
    var chunks := Run(ops).value;
    RunLog(ops);
    if Holds(chunks, target) {
      var i, j :| 0 <= i < |chunks| && 0 <= j < |chunks[i]| && chunks[i][j].id == target;
      GetExact(chunks, i, j);
      MemberLog(chunks, i, j);
    } else {
      GetAbsent(chunks, target);
    }
  }

  /** The k-th accepted record is found under its ID. */
  ghost predicate Found(ops: seq<Record>, k: nat)
    requires Run(ops).Some? && k < |Accepted(ops)|
  {
    GetIn(Run(ops).value, Accepted(ops)[k].id).Some?
  }

  ghost predicate NoneTextual(records: seq<Record>)
  {
    forall i :: 0 <= i < |records| ==> !Textual(records[i].id)
  }

  /** The stream is the map of accepted records, every one found under its ID with exactly the fields
      that were added, if and only if no accepted ID is textual. */
  lemma StreamIsMap(ops: seq<Record>)
    requires Run(ops).Some?
    ensures (forall k :: 0 <= k < |Accepted(ops)| ==> Found(ops, k)) <==> NoneTextual(Accepted(ops))
    ensures forall k :: 0 <= k < |Accepted(ops)| && Found(ops, k) ==>
              !Textual(Accepted(ops)[k].id)
              && ShownAll(GetIn(Run(ops).value, Accepted(ops)[k].id).value) == Flat(Accepted(ops)[k].fields)
  {
    hide Run, Accepted, Textual, GetIn, Log, NoneTextual;
    RunLog(ops);
    ChunksAreMap(Run(ops).value);
    assert forall k :: 0 <= k < |Accepted(ops)| ==>
                         (Found(ops, k) <==> GetIn(Run(ops).value, Log(Run(ops).value)[k].id).Some?);
  }

  /** The same of any chunks a stream can have, and the records in them. */
  lemma ChunksAreMap(chunks: seq<Chunk>)
    requires GoodChunks(chunks)
    ensures (forall k :: 0 <= k < |Log(chunks)| ==> GetIn(chunks, Log(chunks)[k].id).Some?)
            <==> NoneTextual(Log(chunks))
    ensures forall k :: 0 <= k < |Log(chunks)| && GetIn(chunks, Log(chunks)[k].id).Some? ==>
              !Textual(Log(chunks)[k].id)
              && ShownAll(GetIn(chunks, Log(chunks)[k].id).value) == Flat(Log(chunks)[k].fields)
  {
    hide Textual, GetIn, Log, Maximal, Bounded;
    var log := Log(chunks);
    forall k | 0 <= k < |log|
      ensures GetIn(chunks, log[k].id).Some? ==>
                !Textual(log[k].id) && ShownAll(GetIn(chunks, log[k].id).value) == Flat(log[k].fields)
      ensures NoneTextual(log) ==> GetIn(chunks, log[k].id).Some?
    {
      var i, j := LogMember(chunks, k);
      GetExact(chunks, i, j);
      if NoneTextual(log) {
        forall m | 0 <= m <= j ensures !Textual(chunks[i][m].id) {
          MemberLog(chunks, i, m);
        }
      }
    }
  }

  lemma {:induction false} LookupSnoc(records: seq<Record>, r: Record, target: StreamID)
    requires target != r.id
    ensures Lookup(records + [r], target) == Lookup(records, target)
  {
    if |records| == 0 {
      assert (records + [r])[1..] == [];
    } else {
      LookupSnoc(records[1..], r, target);
      assert (records + [r])[1..] == records[1..] + [r];
    }
  }

  /** Adding a record changes no other lookup. */
  lemma AddKeepsOthers(chunks: seq<Chunk>, r: Record, target: StreamID)
    requires GoodChunks(chunks) && Add(chunks, r).Added? && target != r.id
    ensures GoodChunks(Add(chunks, r).chunks) && GetIn(Add(chunks, r).chunks, target) == GetIn(chunks, target)
  {
    hide Lookup, CanAppend, Fits, Elems, RecordElems, Maximal, Bounded;
    AddGood(chunks, r);
    var n, after := |chunks|, Add(chunks, r).chunks;
    if |after| == n {
      LookupSnoc(chunks[n - 1], r, target);
      assert Stored(chunks[n - 1]) && after[..n - 1] == chunks[..n - 1];
    } else {
      assert after == chunks + [[r]] && after[..n] == chunks;
      GetInSnoc(chunks, [r], target);
      LookupAbsent([r], target);
      if !Less(target, r.id) {
        AboveAllAbsent(chunks, r.id, target);
      }
    }
  }

  lemma GetInSnoc(chunks: seq<Chunk>, chunk: Chunk, target: StreamID)
    requires AllStored(chunks + [chunk]) && AllStored(chunks)
    ensures |chunk| > 0
    ensures GetIn(chunks + [chunk], target) ==
            if !Less(target, Head(chunk)) then Lookup(chunk, target) else GetIn(chunks, target)
  {
    hide Lookup, Fits;
    var after := chunks + [chunk];
    assert Stored(after[|chunks|]) && after[..|after| - 1] == chunks;
  }

  lemma AboveAllAbsent(chunks: seq<Chunk>, id: StreamID, target: StreamID)
    requires GoodChunks(chunks) && (|chunks| > 0 ==> |chunks[|chunks| - 1]| > 0 && Less(Last(chunks[|chunks| - 1]), id))
    requires Less(id, target)
    ensures GetIn(chunks, target) == None
  {
    hide GetIn, Stored, Maximal, Bounded;
    forall i, j | 0 <= i < |chunks| && 0 <= j < |chunks[i]| ensures chunks[i][j].id != target {
      var n := |chunks| - 1;
      assert i < n ==> Less(chunks[i][j].id, chunks[n][|chunks[n]| - 1].id);
      assert i == n && j < |chunks[n]| - 1 ==> Less(chunks[n][j].id, chunks[n][|chunks[n]| - 1].id);
    }
    GetAbsent(chunks, target);
  }

  /** IDs below 2^56 in both halves, which is every ID the clock can give for ages, are not textual. */
  lemma SmallIdsNotTextual(id: StreamID)
    requires id.ms < 0x100_0000_0000_0000 && id.seqno < 0x100_0000_0000_0000
    ensures !Textual(id)
  {
    SmallIdNotText(id.ms);
    SmallIdNotText(id.seqno);
  }

  lemma ExampleText()
    ensures Text(12345678) == [0x31, 0x32, 0x33, 0x34, 0x35, 0x36, 0x37, 0x38]
  {
    var n := 1234;
    assert Digits(n) == [0x31, 0x32, 0x33, 0x34];
    hide Digits;
    assert Digits(12345) == Digits(n) + [0x35] by { DigitsStep(12345); }
    assert Digits(123456) == Digits(12345) + [0x36] by { DigitsStep(123456); }
    assert Digits(1234567) == Digits(123456) + [0x37] by { DigitsStep(1234567); }
    assert Digits(12345678) == Digits(1234567) + [0x38] by { DigitsStep(12345678); }
  }

  lemma DigitsStep(n: nat)
    requires n >= 10
    ensures Digits(n) == Digits(n / 10) + [ZERO + n % 10]
  {
  }

  lemma TextualExample()
    ensures Textual(StreamID(0x3132333435363738, 0))
  {
    hide StrictParse, Text;
    assert BeBytes(8, 0x3132333435363738) == [0x31, 0x32, 0x33, 0x34, 0x35, 0x36, 0x37, 0x38];
    ExampleText();
    StrictParseComplete(12345678);
  }

  /** The restriction is needed: a record with a textual ID is accepted by a new stream like any
      other that fits, and then cannot be found. The ID whose milliseconds are the bytes of
      "12345678" is one. */
  lemma TextualIdIsLost(r: Record)
    requires Textual(r.id) && Fits(RecordElems(r))
    ensures AllStored([[r]]) && Add([], r) == Added([[r]])
    ensures GetIn([[r]], r.id) == None
    ensures Textual(StreamID(0x3132333435363738, 0))
  {
    TextualExample();
    hide Textual, Fits, RecordElems;
    NewGood(r);
    assert [[r]][..0] == [];
  }

  /** A record that fits a listpack with a chunk's worth of room to spare. */
  predicate Small(r: Record)
  {
    AllEncodable(RecordElems(r)) && MAX_BYTES + |Body(RecordElems(r))| <= U32_MAX
  }

  /** Fields that leave room for a record header as well, whatever the ID. */
  predicate SmallFields(fields: Fields)
  {
    AllEncodable(FieldElems(fields)) && MAX_BYTES + HEADER_BYTES + |Body(FieldElems(fields))| <= U32_MAX
  }

  const HEADER_BYTES: nat := 30

  /** Eight bytes take an entry of at most ten, as text of an integer even less. */
  lemma HeaderEntry(v: nat)
    ensures var e := AppendElem(BeBytes(8, v));
            Encodable(e) && |EntryBytes(e)| <= 10
  {
    var b := BeBytes(8, v);
    hide BeBytes, StrictParse;
    assert Encodable(Str(b)) && |EntryBytes(Str(b))| == 10;
    if AppendElem(b).Int? {
      IntegerFormSaves(b);
    }
  }

  lemma SmallWithAnyId(id: StreamID, fields: Fields)
    requires SmallFields(fields)
    ensures Small(Record(id, fields)) && Fits(RecordElems(Record(id, fields)))
  {
    hide Encodable, EntryBytes, BeBytes, AppendElem, FieldElems;
    HeaderEntry(id.ms);
    HeaderEntry(id.seqno);
    HeaderEntry(|fields|);
    var a, b, c := AppendElem(BeBytes(8, id.ms)), AppendElem(BeBytes(8, id.seqno)), AppendElem(BeBytes(8, |fields|));
    BodySingle(a);
    BodySingle(b);
    BodySingle(c);
    BodyAppend([a], [b]);
    BodyAppend([a] + [b], [c]);
    BodyAppend([a] + [b] + [c], FieldElems(fields));
    assert RecordElems(Record(id, fields)) == [a] + [b] + [c] + FieldElems(fields);
  }

  /** A record without fields and with the ID whose milliseconds are the bytes of "12345678". */
  lemma TextualExampleIsLost()
    ensures var r := Record(StreamID(0x3132333435363738, 0), []);
            AllStored([[r]]) && Add([], r) == Added([[r]]) && GetIn([[r]], r.id) == None
  {
    var r := Record(StreamID(0x3132333435363738, 0), []);
    hide BeBytes, RecordElems, Fits;
    TextualExample();
    SmallWithAnyId(r.id, []);
    TextualIdIsLost(r);
  }

  lemma AddSmall(chunks: seq<Chunk>, r: Record)
    requires AllStored(chunks) && Small(r)
    ensures !Add(chunks, r).Panics?
  {
    hide Elems, RecordElems, Encodable, Body;
    var n := |chunks|;
    if n > 0 && CanAppend(chunks[n - 1], r.id) {
      BodyAppend(Elems(chunks[n - 1]), RecordElems(r));
    }
  }

  /** No run of records of that size panics. */
  lemma {:induction false} SmallNeverPanics(ops: seq<Record>)
    requires forall i :: 0 <= i < |ops| ==> Small(ops[i])
    ensures Run(ops).Some?
  {
    hide Small, Add, GoodChunks;
    if |ops| == 0 {
    } else {
      SmallNeverPanics(ops[..|ops| - 1]);
      GoodStored(Run(ops[..|ops| - 1]).value);
      AddSmall(Run(ops[..|ops| - 1]).value, ops[|ops| - 1]);
    }
  }
}
