/** The stream as the program keeps it: a radix tree of listpacks, an index of their first IDs. */
module Stream {
  import opened Bytes
  import opened ListpackCodec
  import opened ListpackLaws
  import LP = Listpack
  import T = Trie
  import opened Radix
  import opened StreamId
  import opened StreamSpec

  class StreamNode {
    var lastId: StreamID
    var lp: LP.Listpack

    constructor (lastId: StreamID, lp: LP.Listpack)
      ensures this.lastId == lastId && this.lp == lp
    {
      this.lastId := lastId;
      this.lp := lp;
    }

    ghost predicate Holds(chunk: Chunk)
      reads this, lp
    {
      && Stored(chunk) && lastId == Last(chunk)
      && lp.Valid() && lp.Contents() == Elems(chunk)
    }

    /** Appends a record to the listpack and takes over its ID. */
    method Push(id: StreamID, fields: Fields, ghost chunk: Chunk)
      requires Holds(chunk) && Fits(Elems(chunk) + RecordElems(Record(id, fields)))
      modifies this, lp
      ensures lp == old(lp) && Holds(chunk + [Record(id, fields)])
    {
      ElemsSnoc(chunk, Record(id, fields));
      hide Fits, Elems, RecordElems;
      AppendEntry(lp, id, fields);
      lastId := id;
    }
  }

  // ---- reading a record back ----

  lemma ContentsInRange(data: seq<byte>)
    requires LP.WellFormed(data)
    ensures AllInRange(LP.Iterate(data, LP.HDR_SIZE))
  {
  }

  /** The nested loop: n pairs of elements, or nothing when they run out. */
  method ReadFields(iter: LP.ListpackIter, n: nat) returns (fields: Option<seq<Elem>>)
    modifies iter
    ensures var rest := LP.Iterate(iter.bytes, old(iter.offset));
            if |rest| < 2 * n then fields.None?
            else fields == Some(rest[..2 * n]) && LP.Iterate(iter.bytes, iter.offset) == rest[2 * n..]
  {
    hide LP.Iterate;
    ghost var rest := LP.Iterate(iter.bytes, iter.offset);
    var read := [];
    for k := 0 to n
      invariant 2 * k <= |rest| && read == rest[..2 * k]
      invariant LP.Iterate(iter.bytes, iter.offset) == rest[2 * k..]
    {
      var f := iter.Next();
      if f.None? {
        return None;
      }
      assert rest[2 * k..] == [f.value] + LP.Iterate(iter.bytes, iter.offset);
      var v := iter.Next();
      if v.None? {
        return None;
      }
      assert rest[2 * k..] == [f.value, v.value] + LP.Iterate(iter.bytes, iter.offset);
      read := read + [f.value, v.value];
    }
    return Some(read);
  }

  datatype Scanned = Scanned(ms: nat, seqno: nat, fields: seq<Elem>)

  /** The body of the scan once a record's first element is read: the rest of the record, or nothing
      when its shape is wrong. */
  method ReadRecord(iter: LP.ListpackIter, msBytes: seq<byte>, ghost target: StreamID) returns (r: Option<Scanned>)
    requires AllInRange([Str(msBytes)] + LP.Iterate(iter.bytes, iter.offset))
    modifies iter
    ensures var es := [Str(msBytes)] + LP.Iterate(iter.bytes, old(iter.offset));
            var rest := LP.Iterate(iter.bytes, iter.offset);
            if r.None? then Find(es, target) == None
            else |rest| < |es| && AllInRange(rest)
                 && Find(es, target) == if r.value.ms == target.ms && r.value.seqno == target.seqno
                                        then Some(r.value.fields) else Find(rest, target)
  {
    hide LP.Iterate, BeValue, FieldCount, Find, AllInRange, InRange;
    ghost var es := [Str(msBytes)] + LP.Iterate(iter.bytes, iter.offset);
    FindNoHeader(es, target);
    var second := iter.Next();
    if second.None? || second.value.Int? {
      return None;
    }
    var seqBytes := second.value.s;
    assert es[0] == Str(msBytes) && es[1] == Str(seqBytes);
    if |msBytes| != 8 || |seqBytes| != 8 {
      return None;
    }
    var ms := BeValue(msBytes);
    var seqno := BeValue(seqBytes);
    var third := iter.Next();
    if third.None? {
      return None;
    }
    assert es == [Str(msBytes), Str(seqBytes), third.value] + LP.Iterate(iter.bytes, iter.offset);
    FindStep(msBytes, seqBytes, third.value, LP.Iterate(iter.bytes, iter.offset), target);
    var count := FieldCount(third.value);
    if count.None? {
      return None;
    }
    var fields := ReadFields(iter, count.value);
    if fields.None? {
      return None;
    }
    return Some(Scanned(ms, seqno, fields.value));
  }

  /** find_entry_in_listpack: the loop over records. */
  method FindEntryInListpack(lp: LP.Listpack, target: StreamID) returns (r: Option<seq<Elem>>)
    requires lp.Valid()
    ensures AllInRange(lp.Contents()) && r == Find(lp.Contents(), target)
  {
    ContentsInRange(lp.data);
    hide *;
    var iter := new LP.ListpackIter(lp.data);
    ghost var all := lp.Contents();
    ghost var es := all;
    var item := iter.Next();
    while item.Some? && item.value.Str?
      invariant iter.bytes == lp.data
      invariant AllInRange(es) && Find(es, target) == Find(all, target)
      invariant item.Some? ==> es == [item.value] + LP.Iterate(iter.bytes, iter.offset)
      invariant item.None? ==> |es| == 0
      decreases |es|
    {
      assert es == [Str(item.value.s)] + LP.Iterate(iter.bytes, iter.offset);
      var record := ReadRecord(iter, item.value.s, target);
      if record.None? {
        return None;
      }
      if record.value.ms == target.ms && record.value.seqno == target.seqno {
        return Some(record.value.fields);
      }
      es := LP.Iterate(iter.bytes, iter.offset);
      item := iter.Next();
    }
    FindNoHeader(es, target);
    return None;
  }

  // ---- writing a record ----

  lemma RoomForNext(es: seq<Elem>, e: Elem, rest: seq<Elem>)
    requires Fits(es + [e] + rest)
    ensures LP.AllEncodable(es) && LP.CanPush(LP.Image(es), e)
  {
    var all := es + [e] + rest;
    assert forall i :: 0 <= i < |es| ==> es[i] == all[i];
    assert all[|es|] == e;
    assert forall i :: 0 <= i < |rest| ==> rest[i] == all[|es| + 1 + i];
    LP.BodyAppend(es + [e], rest);
    LP.BodyAppend(es, [e]);
    LP.BodySingle(e);
  }

  /** The appends of a record, one per element; each `unwrap` succeeds because all of them fit. */
  method AppendEntry(lp: LP.Listpack, id: StreamID, fields: Fields)
    requires lp.Valid() && Fits(lp.Contents() + RecordElems(Record(id, fields)))
    modifies lp
    ensures lp.Valid() && lp.Contents() == old(lp.Contents()) + RecordElems(Record(id, fields))
  {
    hide Fits, LP.Iterate, LP.WellFormed, FieldElems;
    ghost var es := lp.Contents();
    ghost var r := RecordElems(Record(id, fields));
    AppendElement(lp, BeBytes(8, id.ms), es, r, 0);
    AppendElement(lp, BeBytes(8, id.seqno), es, r, 1);
    AppendElement(lp, BeBytes(8, |fields|), es, r, 2);
    for k := 0 to |fields|
      invariant lp.Valid() && lp.Contents() == es + r[..3 + 2 * k]
    {
      var (f, v) := fields[k];
      FieldElemsAt(fields, k);
      AppendElement(lp, f, es, r, 3 + 2 * k);
      AppendElement(lp, v, es, r, 4 + 2 * k);
    }
    assert r[..3 + 2 * |fields|] == r;
  }

  /** One `append(..).unwrap()`: the i-th element of the record r. */
  method AppendElement(lp: LP.Listpack, value: seq<byte>, ghost es: seq<Elem>, ghost r: seq<Elem>, ghost i: nat)
    requires i < |r| && r[i] == AppendElem(value) && Fits(es + r)
    requires lp.Valid() && lp.Contents() == es + r[..i]
    modifies lp
    ensures lp.Valid() && lp.Contents() == es + r[..i + 1]
  {
    assert es + r[..i] + [r[i]] + r[i + 1..] == es + r;
    hide Fits;
    RoomForNext(es + r[..i], r[i], r[i + 1..]);
    var done := lp.Append(value);
    assert done.Ok?;
    assert es + r[..i + 1] == es + r[..i] + [r[i]];
  }

  lemma {:induction false} FieldElemsAt(fields: Fields, k: nat)
    requires k < |fields|
    ensures FieldElems(fields)[2 * k] == AppendElem(fields[k].0)
    ensures FieldElems(fields)[2 * k + 1] == AppendElem(fields[k].1)
  {
    if k == 0 {
    } else {
      FieldElemsAt(fields[1..], k - 1);
    }
  }

  // ---- the index ----

  lemma GreatestExists(ids: set<StreamID>)
    requires ids != {}
    ensures exists m :: m in ids && forall k :: k in ids ==> !Less(m, k)
  {
    var x :| x in ids;
    if ids == {x} {
      assert x in ids && forall k :: k in ids ==> !Less(x, k);
    } else {
      var rest := ids - {x};
      GreatestExists(rest);
      var m :| m in rest && forall k :: k in rest ==> !Less(m, k);
      var best := if Less(m, x) then x else m;
      forall k | k in ids ensures !Less(best, k) {
        assert k == x || k in rest;
      }
      assert best in ids;
    }
  }

  // ---- the stream ----

  class Stream {
    var tree: RadixTree<StreamNode>
    var index: set<StreamID>
    var lastId: Option<StreamID>

    ghost var chunks: seq<Chunk>       // what is stored
    ghost var nodes: seq<StreamNode>   // where: nodes[i] holds chunks[i]
    ghost var Repr: set<object>

    ghost predicate Valid()
      reads this, Repr
    {
      && Footprint()
      && |nodes| == |chunks| && GoodChunks(chunks)
      && (forall i :: 0 <= i < |nodes| ==> nodes[i].Holds(chunks[i]))
      && Indexes(tree.Model(), index, Heads(chunks), nodes)
      && lastId == if |chunks| == 0 then None else Some(Last(chunks[|chunks| - 1]))
    }

    /** Tree, nodes and listpacks are this stream's own and do not overlap. */
    ghost predicate Footprint()
      reads this, Repr
    {
      && this in Repr && tree in Repr && tree.Repr <= Repr && this !in tree.Repr
      && tree.Valid()
      && (forall i :: 0 <= i < |nodes| ==>
            && nodes[i] in Repr && nodes[i].lp in Repr
            && nodes[i] !in tree.Repr && nodes[i].lp !in tree.Repr)
      && (forall i, j :: 0 <= i < j < |nodes| ==> nodes[i] != nodes[j] && nodes[i].lp != nodes[j].lp)
    }

    constructor ()
      ensures Valid() && fresh(Repr) && chunks == []
    {
      hide RadixTree.Valid, RadixTree.Model, GoodChunks, AllStored, Heads, Indexes;
      EmptyIndexes();
      tree := new RadixTree();
      index := {};
      lastId := None;
      chunks := [];
      nodes := [];
      new;
      Repr := {this} + tree.Repr;
    }

    method GetFloorKey(id: StreamID) returns (r: Option<StreamID>)
      ensures r.None? ==> forall k :: k in index ==> Less(id, k)
      ensures r.Some? ==> r.value in index && !Less(id, r.value)
      ensures r.Some? ==> forall k :: k in index && !Less(id, k) ==> !Less(r.value, k)
    {
      var below := set k | k in index && !Less(id, k);
      assert forall k :: k in index ==> k in below || Less(id, k);
      if below == {} {
        return None;
      }
      GreatestExists(below);
      var m :| m in below && forall k :: k in below ==> !Less(m, k);
      return Some(m);
    }

    /** The outcome the chunk specification prescribes for an add. */
    ghost function Outcome(id: StreamID, fields: Fields): AddOutcome
      requires AllStored(chunks)
      reads this
    {
      StreamSpec.Add(chunks, Record(id, fields))
    }

    method CanAppendTo(node: StreamNode, id: StreamID, ghost chunk: Chunk) returns (r: bool)
      requires node.Holds(chunk)
      ensures r == CanAppend(chunk, id)
    {
      var size := node.lp.TotalBytes();
      HeldSize(node.lp, Elems(chunk));
      hide Fits, Elems, LP.ImageSize;
      var sizeOk := size < MAX_BYTES;
      var increasing := Less(node.lastId, id);
      var close := id.ms >= node.lastId.ms && id.ms - node.lastId.ms < MAX_GAP;
      return sizeOk && increasing && close;
    }

    /** The branch of add that extends the last node's listpack. */
    method Extend(node: StreamNode, id: StreamID, fields: Fields)
      requires Valid() && |chunks| > 0 && node == nodes[|nodes| - 1]
      requires CanAppend(chunks[|chunks| - 1], id) && Outcome(id, fields).Added?
      modifies this, node, node.lp
      ensures Valid() && Repr == old(Repr)
      ensures chunks == old(Outcome(id, fields).chunks)
    {
      hide GoodChunks, Stored, Fits, Elems, RecordElems, StreamNode.Holds, CanAppend, StreamSpec.Add, Heads, Indexes;
      hide RadixTree.Valid, RadixTree.Model, Head, AllStored, Footprint;
      ghost var n := |chunks| - 1;
      ghost var after := chunks[n := chunks[n] + [Record(id, fields)]];
      ExtendedChunks(chunks, Record(id, fields));
      PushLast(node, id, fields, after);
      SetLast(id, after);
    }

    /** Only the last node changes, and it holds its chunk with the record added. */
    method PushLast(node: StreamNode, id: StreamID, fields: Fields, ghost after: seq<Chunk>)
      requires Footprint() && |nodes| == |chunks| > 0 && node == nodes[|nodes| - 1]
      requires forall i :: 0 <= i < |nodes| ==> nodes[i].Holds(chunks[i])
      requires Fits(Elems(chunks[|chunks| - 1]) + RecordElems(Record(id, fields)))
      requires after == chunks[|chunks| - 1 := chunks[|chunks| - 1] + [Record(id, fields)]]
      modifies node, node.lp
      ensures Footprint() && tree.Model() == old(tree.Model())
      ensures forall i :: 0 <= i < |nodes| ==> nodes[i].Holds(after[i])
    {
      hide Fits, Elems, RecordElems, StreamNode.Holds, RadixTree.Valid, RadixTree.Model;
      node.Push(id, fields, chunks[|chunks| - 1]);
    }

    /** The stream's last ID moves to the record just stored. */
    method SetLast(id: StreamID, ghost after: seq<Chunk>)
      requires Footprint() && |nodes| == |after| > 0 && GoodChunks(after)
      requires forall i :: 0 <= i < |nodes| ==> nodes[i].Holds(after[i])
      requires Indexes(tree.Model(), index, Heads(after), nodes)
      requires |after[|after| - 1]| > 0 && id == Last(after[|after| - 1])
      modifies this`lastId, this`chunks
      ensures Valid() && chunks == after && lastId == Some(id)
    {
      hide GoodChunks, StreamNode.Holds, Indexes, Heads, RadixTree.Valid, RadixTree.Model;
      lastId := Some(id);
      chunks := after;
    }

    /** The branch of add that starts a new node. */
    method StartNode(id: StreamID, fields: Fields)
      requires Valid() && GoodChunks(chunks + [[Record(id, fields)]])
      requires Fits(RecordElems(Record(id, fields))) && id !in Heads(chunks)
      modifies Repr
      ensures Valid() && fresh(Repr - old(Repr))
      ensures chunks == old(chunks) + [[Record(id, fields)]]
    {
      hide GoodChunks, Stored, Fits, Elems, RecordElems, StreamNode.Holds, Indexes, AllStored, ToBytes, Heads;
      hide RadixTree.Valid, RadixTree.Model;
      ghost var after := chunks + [[Record(id, fields)]];
      var node := NewNode(id, fields);
      InsertNode(node, id, after);
      SetLast(id, after);
    }

    static method NewNode(id: StreamID, fields: Fields) returns (node: StreamNode)
      requires Fits(RecordElems(Record(id, fields)))
      ensures fresh(node) && fresh(node.lp) && node.Holds([Record(id, fields)])
    {
      hide Fits, RecordElems, Elems, Stored, LP.Iterate, LP.WellFormed, LP.Image;
      SingleChunk(Record(id, fields));
      var lp := new LP.Listpack();
      assert lp.Contents() + RecordElems(Record(id, fields)) == RecordElems(Record(id, fields));
      AppendEntry(lp, id, fields);
      node := new StreamNode(id, lp);
    }

    method InsertNode(node: StreamNode, id: StreamID, ghost after: seq<Chunk>)
      requires Valid() && GoodChunks(after) && |after| == |chunks| + 1 && after[..|chunks|] == chunks
      requires Heads(after) == Heads(chunks) + [id] && id !in Heads(chunks)
      requires node.Holds(after[|chunks|]) && node !in Repr && node.lp !in Repr
      modifies Repr
      ensures Footprint() && fresh(Repr - old(Repr) - {node, node.lp})
      ensures |nodes| == |after| && forall i :: 0 <= i < |nodes| ==> nodes[i].Holds(after[i])
      ensures Indexes(tree.Model(), index, Heads(after), nodes)
    {
      hide GoodChunks, Stored, AllStored, StreamNode.Holds, Indexes, ToBytes, Heads, T.Insert, T.WfChildren;
      hide RadixTree.Valid, RadixTree.Model;
      GoodStored(chunks);
      InsertKey(node, id);
      nodes := nodes + [node];
      Repr := Repr + {node, node.lp};
    }

    /** Tree and index take up the node under its ID; the nodes there were stay as they are. */
    method InsertKey(node: StreamNode, id: StreamID)
      requires Valid() && AllStored(chunks) && id !in Heads(chunks)
      modifies this, tree.Repr
      ensures Footprint() && fresh(Repr - old(Repr)) && nodes == old(nodes)
      ensures forall i :: 0 <= i < |nodes| ==> nodes[i].lp == old(nodes[i].lp) && nodes[i].Holds(old(chunks)[i])
      ensures Indexes(tree.Model(), index, Heads(old(chunks)) + [id], nodes + [node])
    {
      hide GoodChunks, Stored, AllStored, StreamNode.Holds, Indexes, ToBytes, Heads, T.Insert, T.WfChildren;
      hide RadixTree.Valid, RadixTree.Model;
      IndexesGrow(tree.Model(), index, Heads(chunks), nodes, id, node);
      tree.Insert(ToBytes(id), node);
      index := index + {id};
      Repr := Repr + tree.Repr;
    }

    /** Floor lookup in the index, then the tree: above the last ID this leads to the last node. */
    method FloorNode(id: StreamID) returns (node: Option<StreamNode>)
      requires Valid() && (lastId.Some? ==> Less(lastId.value, id))
      ensures node == if |nodes| == 0 then None else Some(nodes[|nodes| - 1])
    {
      hide GoodChunks, AllStored, Stored, ToBytes, Heads, Indexes, StreamNode.Holds, RadixTree.Valid, RadixTree.Model;
      GoodStored(chunks);
      var prevKey := GetFloorKey(id);
      IndexedNodes(tree.Model(), index, Heads(chunks), nodes);
      FloorIsLast(chunks, index, id, prevKey);
      if prevKey.None? {
        return None;
      }
      node := tree.Get(ToBytes(prevKey.value));
    }

    /** Rejected and nothing changed, or stored where the chunk specification says. */
    method Add(id: StreamID, fields: Fields) returns (ok: bool)
      requires Valid() && !Outcome(id, fields).Panics?
      modifies Repr
      ensures Valid() && fresh(Repr - old(Repr))
      ensures ok <==> old(Outcome(id, fields)).Added?
      ensures ok ==> chunks == old(Outcome(id, fields)).chunks
      ensures !ok ==> unchanged(old(Repr))
    {
      hide Stored, Fits, RecordElems, StreamNode.Holds, Indexes, CanAppend, StreamSpec.Add, Heads, GoodChunks;
      hide RadixTree.Valid, RadixTree.Model, AllStored;
      AddCases(chunks, Record(id, fields));
      if lastId.Some? && !Less(lastId.value, id) {
        return false;
      }
      var node := FloorNode(id);
      if node.Some? {
        var room := CanAppendTo(node.value, id, chunks[|chunks| - 1]);
        if room {
          Extend(node.value, id, fields);
          return true;
        }
      }
      StartNode(id, fields);
      return true;
    }

    /** Lookup through index, tree and listpack is lookup in the chunks. */
    method Get(id: StreamID) returns (r: Option<seq<Elem>>)
      requires Valid()
      ensures AllStored(chunks) && r == GetIn(chunks, id)
    {
      hide Ascend, Maximal, Bounded, Stored, Fits, ToBytes, Heads, Find, Lookup, GetIn, StreamNode.Holds;
      hide RadixTree.Valid, RadixTree.Model, LP.Listpack.Valid, LP.Listpack.Contents;
      var baseId := GetFloorKey(id);
      ghost var i := FloorLookup(chunks, index, id, baseId);
      if baseId.None? {
        return None;
      }
      var node := tree.Get(ToBytes(baseId.value));
      if node.None? {
        return None;
      }
      HeldLookup(node.value, chunks[i], id);
      r := FindEntryInListpack(node.value.lp, id);
    }
  }

  lemma EmptyIndexes()
    ensures GoodChunks([]) && AllStored([]) && Indexes(T.Empty(), {}, Heads([]), [])
  {
  }

  lemma IndexedNodes(tree: T.Node<StreamNode>, index: set<StreamID>, heads: seq<StreamID>, nodes: seq<StreamNode>)
    requires Indexes(tree, index, heads, nodes)
    ensures |nodes| == |heads| && forall id :: id in index <==> id in heads
    ensures forall i :: 0 <= i < |heads| ==> T.Get(tree, ToBytes(heads[i])) == Some(nodes[i])
  {
  }

  /** When nothing panics: what is rejected, what extends the last chunk, what starts a new one. */
  lemma AddCases(chunks: seq<Chunk>, r: Record)
    requires GoodChunks(chunks) && !StreamSpec.Add(chunks, r).Panics?
    ensures AllStored(chunks) && forall i :: 0 <= i < |chunks| ==> |chunks[i]| > 0
    ensures var out := StreamSpec.Add(chunks, r);
            if |chunks| > 0 && !Less(Last(chunks[|chunks| - 1]), r.id) then out.Rejected?
            else
              out.Added? && r.id !in Heads(chunks)
              && (|chunks| == 0 || !CanAppend(chunks[|chunks| - 1], r.id) ==>
                    out.chunks == chunks + [[r]] && GoodChunks(out.chunks) && Fits(RecordElems(r)))
  {
    hide Fits, Elems, RecordElems, Maximal, Bounded, LP.ImageSize, Ascend, CanAppend;
    if StreamSpec.Add(chunks, r).Added? {
      AddGood(chunks, r);
    }
    NotAHead(chunks, r.id);
  }

  /** An ID above the last one is not the first ID of any chunk. */
  lemma NotAHead(chunks: seq<Chunk>, id: StreamID)
    requires AllStored(chunks) && Ascend(chunks)
    ensures forall i :: 0 <= i < |chunks| ==> |chunks[i]| > 0
    ensures |chunks| == 0 || Less(Last(chunks[|chunks| - 1]), id) ==> id !in Heads(chunks)
  {
    hide Fits, Ascend;
    forall i | 0 <= i < |chunks| ensures !Less(Last(chunks[|chunks| - 1]), Head(chunks[i])) {
      HeadBeforeLast(chunks, i);
    }
  }

  lemma HeadBeforeLast(chunks: seq<Chunk>, i: nat)
    requires AllStored(chunks) && Ascend(chunks) && i < |chunks|
    ensures |chunks[i]| > 0 && |chunks[|chunks| - 1]| > 0
    ensures !Less(Last(chunks[|chunks| - 1]), Head(chunks[i]))
    ensures i < |chunks| - 1 ==> Less(Head(chunks[i]), Head(chunks[|chunks| - 1]))
  {
    hide Fits;
    var n := |chunks| - 1;
    assert Stored(chunks[i]) && Stored(chunks[n]);
    assert i < n ==> Less(chunks[i][0].id, chunks[n][|chunks[n]| - 1].id);
    assert |chunks[n]| > 1 ==> Less(chunks[n][0].id, chunks[n][|chunks[n]| - 1].id);
  }

  /** With no first ID at or below the target there is nothing to look in. */
  lemma {:induction false} FloorAbsent(chunks: seq<Chunk>, id: StreamID)
    requires AllStored(chunks) && forall i :: 0 <= i < |chunks| ==> Less(id, Heads(chunks)[i])
    ensures GetIn(chunks, id) == None
  {
    hide Fits, Lookup;
    if |chunks| == 0 {
    } else {
      var n := |chunks| - 1;
      assert Stored(chunks[n]) && Less(id, Heads(chunks)[n]);
      forall i | 0 <= i < n ensures Less(id, Heads(chunks[..n])[i]) {
        assert Less(id, Heads(chunks)[i]);
      }
      FloorAbsent(chunks[..n], id);
    }
  }

  /** The chunk with the greatest first ID not above the target is the one looked in. */
  lemma {:induction false} FloorChunk(chunks: seq<Chunk>, id: StreamID, i: nat)
    requires AllStored(chunks) && Ascend(chunks) && i < |chunks| && !Less(id, Heads(chunks)[i])
    requires forall j :: 0 <= j < |chunks| && !Less(id, Heads(chunks)[j]) ==> !Less(Heads(chunks)[i], Heads(chunks)[j])
    ensures GetIn(chunks, id) == Lookup(chunks[i], id)
  {
    hide Stored, Ascend, Lookup;
    var n := |chunks| - 1;
    if i < n {
      HeadBeforeLast(chunks, i);
      assert Less(Heads(chunks)[i], Heads(chunks)[n]);
      Prefix(chunks, n);
      forall j | 0 <= j < n && !Less(id, Heads(chunks[..n])[j])
        ensures !Less(Heads(chunks[..n])[i], Heads(chunks[..n])[j])
      {
        assert !Less(id, Heads(chunks)[j]);
      }
      FloorChunk(chunks[..n], id, i);
    }
  }

  /** What the floor key says about the lookup, and which chunk it names. */
  lemma FloorLookup(chunks: seq<Chunk>, index: set<StreamID>, id: StreamID, floor: Option<StreamID>) returns (i: nat)
    requires AllStored(chunks) && Ascend(chunks)
    requires forall k :: k in index <==> k in Heads(chunks)
    requires floor.None? ==> forall k :: k in index ==> Less(id, k)
    requires floor.Some? ==> floor.value in index && !Less(id, floor.value)
    requires floor.Some? ==> forall k :: k in index && !Less(id, k) ==> !Less(floor.value, k)
    ensures floor.None? ==> GetIn(chunks, id) == None
    ensures floor.Some? ==>
              i < |chunks| && Heads(chunks)[i] == floor.value && GetIn(chunks, id) == Lookup(chunks[i], id)
  {
    hide Stored, Lookup, GetIn, Ascend;
    assert forall j :: 0 <= j < |chunks| ==> Heads(chunks)[j] in index;
    i := 0;
    if floor.None? {
      FloorAbsent(chunks, id);
    } else {
      i :| 0 <= i < |chunks| && Heads(chunks)[i] == floor.value;
      FloorChunk(chunks, id, i);
    }
  }

  /** Scanning a chunk's listpack is looking its records up. */
  lemma HeldLookup(node: StreamNode, chunk: Chunk, id: StreamID)
    requires node.Holds(chunk)
    ensures node.lp.Valid() && AllInRange(node.lp.Contents())
    ensures Find(node.lp.Contents(), id) == Lookup(chunk, id)
  {
    forall i | 0 <= i < |chunk| ensures |chunk[i].fields| < 0x100_0000_0000_0000 {
      FitsFields(chunk, i);
    }
    FindIsLookup(chunk, id);
  }

  /** Above the last ID, the floor key is the first ID of the last chunk. */
  lemma FloorIsLast(chunks: seq<Chunk>, index: set<StreamID>, id: StreamID, floor: Option<StreamID>)
    requires GoodChunks(chunks)
    requires |chunks| > 0 ==> |chunks[|chunks| - 1]| > 0 ==> Less(Last(chunks[|chunks| - 1]), id)
    requires forall k :: k in index <==> k in Heads(chunks)
    requires floor.None? ==> forall k :: k in index ==> Less(id, k)
    requires floor.Some? ==> floor.value in index && !Less(id, floor.value)
    requires floor.Some? ==> forall k :: k in index && !Less(id, k) ==> !Less(floor.value, k)
    ensures AllStored(chunks) && |Heads(chunks)| == |chunks|
    ensures floor == if |chunks| == 0 then None else Some(Heads(chunks)[|chunks| - 1])
  {
    hide Fits, Stored, Maximal, Bounded, Ascend;
    if |chunks| > 0 {
      var n := |chunks| - 1;
      HeadBeforeLast(chunks, n);
      assert Heads(chunks)[n] in index;
      var i :| 0 <= i < |chunks| && Heads(chunks)[i] == floor.value;
      HeadBeforeLast(chunks, i);
    }
  }

  lemma SingleChunk(r: Record)
    requires Fits(RecordElems(r))
    ensures Elems([r]) == RecordElems(r) && Stored([r])
  {
    ElemsSnoc([], r);
    assert [] + [r] == [r];
  }

  lemma IndexesGrow(tree: T.Node<StreamNode>, index: set<StreamID>, heads: seq<StreamID>, nodes: seq<StreamNode>,
                    id: StreamID, node: StreamNode)
    requires T.WfRoot(tree) && Indexes(tree, index, heads, nodes) && id !in heads
    ensures Indexes(T.Insert(tree, ToBytes(id), node), index + {id}, heads + [id], nodes + [node])
  {
    hide ToBytes, T.Insert, T.WfChildren;
    var tree' := T.Insert(tree, ToBytes(id), node);
    var heads' := heads + [id];
    forall key ensures T.Get(tree', key) == if key == ToBytes(id) then Some(node) else T.Get(tree, key) {
      T.InsertGet(tree, ToBytes(id), node, key);
    }
    forall i | 0 <= i < |heads| ensures ToBytes(heads[i]) != ToBytes(id) {
      ToBytesMonotone(heads[i], id);
    }
    forall key | T.Get(tree', key).Some? ensures exists i :: 0 <= i < |heads'| && key == ToBytes(heads'[i]) {
      if key == ToBytes(id) {
        assert heads'[|heads|] == id;
      } else {
        var i :| 0 <= i < |heads| && key == ToBytes(heads[i]);
        assert heads'[i] == heads[i];
      }
    }
  }

  // ---- facts about index and tree ----

  /** The first ID of each chunk. */
  function Heads(chunks: seq<Chunk>): (r: seq<StreamID>)
    requires AllStored(chunks)
    ensures |r| == |chunks| && forall i :: 0 <= i < |r| ==> r[i] == Head(chunks[i])
  {
    seq(|chunks|, i requires 0 <= i < |chunks| => assert Stored(chunks[i]); Head(chunks[i]))
  }

  /** Index and tree hold exactly the given IDs, and the tree leads from each to its node. */
  ghost predicate Indexes(tree: T.Node<StreamNode>, index: set<StreamID>, heads: seq<StreamID>, nodes: seq<StreamNode>)
  {
    && |nodes| == |heads|
    && (forall id :: id in index <==> id in heads)
    && (forall i :: 0 <= i < |heads| ==> T.Get(tree, ToBytes(heads[i])) == Some(nodes[i]))
    && (forall key :: T.Get(tree, key).Some? ==> exists i :: 0 <= i < |heads| && key == ToBytes(heads[i]))
  }

  lemma ExtendedChunks(chunks: seq<Chunk>, r: Record)
    requires GoodChunks(chunks) && |chunks| > 0
    requires CanAppend(chunks[|chunks| - 1], r.id) && StreamSpec.Add(chunks, r).Added?
    ensures var last := chunks[|chunks| - 1];
            var after := chunks[|chunks| - 1 := last + [r]];
            && StreamSpec.Add(chunks, r) == Added(after) && GoodChunks(after)
            && Fits(Elems(last) + RecordElems(r))
            && AllStored(after) && Heads(after) == Heads(chunks)
  {
    hide Fits, Elems, RecordElems, LP.ImageSize, Ascend, Maximal, Bounded;
    AddGood(chunks, r);
    var after := chunks[|chunks| - 1 := chunks[|chunks| - 1] + [r]];
    assert forall i :: 0 <= i < |chunks| ==> Head(after[i]) == Head(chunks[i]);
  }

  lemma HeldSize(lp: LP.Listpack, es: seq<Elem>)
    requires lp.Valid() && lp.Contents() == es && LP.AllEncodable(es)
    ensures |lp.data| == LP.ImageSize(es)
  {
  }

  // ---- whole runs ----

  /** Any run of adds on a new stream that the specification lets finish without a panic. */
  method RunAdds(ops: seq<Record>) returns (s: Stream)
    requires Run(ops).Some?
    ensures s.Valid() && fresh(s.Repr) && s.chunks == Run(ops).value
  {
    hide GoodChunks, AllStored, Stored, Run, StreamSpec.Add, Stream.Valid;
    RunStart();
    assert ops[..0] == [];
    s := new Stream();
    for k := 0 to |ops|
      invariant s.Valid() && fresh(s.Repr)
      invariant Run(ops[..k]) == Some(s.chunks)
    {
      RunStep(ops, k);
      var _ := s.Add(ops[k].id, ops[k].fields);
    }
    assert ops[..|ops|] == ops;
  }

  /** Add any run of records to a new stream, then look one ID up, through the index, the radix tree
      and the listpack bytes. What comes back was added under that ID; and as long as no accepted ID is
      textual, everything that was accepted comes back. */
  method AddThenGet(ops: seq<Record>, target: StreamID) returns (found: Option<seq<Elem>>)
    requires Run(ops).Some?
    ensures found.Some? ==>
              exists k :: 0 <= k < |Accepted(ops)| && Accepted(ops)[k].id == target
                          && ShownAll(found.value) == Flat(Accepted(ops)[k].fields)
    ensures forall k :: 0 <= k < |Accepted(ops)| && Accepted(ops)[k].id == target ==>
              && (NoneTextual(Accepted(ops)) ==> found.Some?)
              && (Textual(target) ==> found.None?)
              && (found.Some? ==> ShownAll(found.value) == Flat(Accepted(ops)[k].fields))
  {
    hide Run, Accepted, Textual, GetIn, Flat, GoodChunks, AllStored, Stream.Valid;
    var s := RunAdds(ops);
    found := s.Get(target);
    StreamNeverInvents(ops, target);
    StreamIsMap(ops);
    forall k | 0 <= k < |Accepted(ops)| && Accepted(ops)[k].id == target
      ensures NoneTextual(Accepted(ops)) ==> found.Some?
      ensures Textual(target) ==> found.None?
      ensures found.Some? ==> ShownAll(found.value) == Flat(Accepted(ops)[k].fields)
    {
      assert found.Some? <==> Found(ops, k);
    }
  }

  /** Add any run of records to a new stream, then look all accepted IDs up: everything that was accepted
      comes back with exactly its fields if and only if no accepted ID is textual. */
  method AddThenGetAll(ops: seq<Record>) returns (found: seq<Option<seq<Elem>>>)
    requires Run(ops).Some?
    ensures |found| == |Accepted(ops)|
    ensures (forall k :: 0 <= k < |found| ==> found[k].Some?) <==> NoneTextual(Accepted(ops))
    ensures forall k :: 0 <= k < |found| && found[k].Some? ==>
              ShownAll(found[k].value) == Flat(Accepted(ops)[k].fields)
  {
    hide Run, Accepted, Textual, GetIn, Flat, GoodChunks, AllStored, Stream.Valid;
    var s := RunAdds(ops);
    found := GetAll(s, Accepted(ops));
    StreamIsMap(ops);
    assert forall k :: 0 <= k < |found| ==> (found[k].Some? <==> Found(ops, k));
  }

  lemma ValidStored(s: Stream)
    requires s.Valid()
    ensures AllStored(s.chunks)
  {
    GoodStored(s.chunks);
  }

  method GetAll(s: Stream, records: seq<Record>) returns (found: seq<Option<seq<Elem>>>)
    requires s.Valid()
    ensures |found| == |records| && AllStored(s.chunks)
    ensures forall k :: 0 <= k < |found| ==> found[k] == GetIn(s.chunks, records[k].id)
  {
    hide GetIn, GoodChunks, AllStored, Stream.Valid;
    ValidStored(s);
    found := [];
    for k := 0 to |records|
      invariant |found| == k
      invariant forall i :: 0 <= i < k ==> found[i] == GetIn(s.chunks, records[i].id)
    {
      var r := s.Get(records[k].id);
      found := found + [r];
    }
  }

  lemma RunStart()
    ensures Run([]) == Some([])
  {
  }

  lemma RunStep(ops: seq<Record>, k: nat)
    requires Run(ops).Some? && k < |ops|
    ensures Run(ops[..k]).Some? && Run(ops[..k + 1]).Some?
    ensures var out := StreamSpec.Add(Run(ops[..k]).value, ops[k]);
            !out.Panics? && Run(ops[..k + 1]).value == if out.Added? then out.chunks else Run(ops[..k]).value
  {
    hide StreamSpec.Add, GoodChunks, AllStored;
    RunPrefix(ops, k);
    RunPrefix(ops, k + 1);
    assert ops[..k + 1][..k] == ops[..k];
  }

  function HeadKeys(heads: seq<StreamID>): (r: seq<seq<byte>>)
    ensures |r| == |heads| && forall i :: 0 <= i < |heads| ==> r[i] == ToBytes(heads[i])
  {
    seq(|heads|, i requires 0 <= i < |heads| => ToBytes(heads[i]))
  }

  /** Walking a stream's tree visits its nodes in the order of the index. */
  lemma TreeWalkOrder(s: Stream)
    requires s.Valid()
    ensures forall i, j :: 0 <= i < j < |s.chunks| ==> Less(Heads(s.chunks)[i], Heads(s.chunks)[j])
    ensures T.Keys(s.tree.Model()) == HeadKeys(Heads(s.chunks))
  {
    hide ToBytes, T.Keys, Stored, StreamNode.Holds, Maximal, Bounded, Indexes, RadixTree.Valid, RadixTree.Model;
    HeadsAscend(s.chunks);
    IndexedKeys(s.tree.Model(), s.index, Heads(s.chunks), s.nodes);
  }

  lemma HeadsAscend(chunks: seq<Chunk>)
    requires AllStored(chunks) && Ascend(chunks)
    ensures forall i, j :: 0 <= i < j < |chunks| ==> Less(Heads(chunks)[i], Heads(chunks)[j])
  {
    hide Fits;
    forall i, j | 0 <= i < j < |chunks| ensures Less(Heads(chunks)[i], Heads(chunks)[j]) {
      assert Stored(chunks[i]) && Stored(chunks[j]);
      assert Less(chunks[i][0].id, chunks[j][0].id);
    }
  }

  lemma IndexedKeys(tree: T.Node<StreamNode>, index: set<StreamID>, heads: seq<StreamID>, nodes: seq<StreamNode>)
    requires T.WfRoot(tree) && Indexes(tree, index, heads, nodes)
    requires forall i, j :: 0 <= i < j < |heads| ==> Less(heads[i], heads[j])
    ensures T.Keys(tree) == HeadKeys(heads)
  {
    hide ToBytes, T.Keys, T.Get, T.WfChildren;
    forall i, j | 0 <= i < j < |heads| ensures LexLess(ToBytes(heads[i]), ToBytes(heads[j])) {
      ToBytesMonotone(heads[i], heads[j]);
    }
    T.KeysAscend(tree);
    forall key ensures key in T.Keys(tree) <==> key in HeadKeys(heads) {
      T.KeysExact(tree, key);
      if T.Get(tree, key).Some? {
        var i :| 0 <= i < |heads| && key == ToBytes(heads[i]);
        assert HeadKeys(heads)[i] == key;
      }
      if key in HeadKeys(heads) {
        var i :| 0 <= i < |heads| && HeadKeys(heads)[i] == key;
        assert T.Get(tree, ToBytes(heads[i])).Some?;
      }
    }
    T.SameAscending(T.Keys(tree), HeadKeys(heads));
  }
}
