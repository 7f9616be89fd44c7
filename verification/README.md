# RedrumDB: a verified model

RedrumDB is an in-memory, Redis-like server. This project models four layers of it in Dafny and proves what they
promise.

* **Stream storage.** `ListpackCodec`, `ListpackLaws` and `Listpack` model the listpack: one buffer with a six-byte
  header, nine element encodings, a back-length after each entry and an end byte. `Trie` is the path-compressed radix
  tree as a value, `Radix` the nodes that insertion rewrites in place. `StreamId` has the IDs, `StreamSpec` says what a
  stream stores (records packed into chunks), and `Stream` is the object that keeps an index of first IDs, a radix tree
  and one listpack per chunk. `Stream.Stream.Add` and `Stream.Stream.Get` are proved to act exactly as the chunk
  specification says, down to the bytes.
* **The keyspace as a timed state machine.** `Keyspace` gives each command's effect, `Server` the steps (requests,
  the expiry sweep, the timeout drain, connections coming and going), `EventLoop` the object with the loops of the
  program, each proved equal to its step. What the commands promise a client is in `Strings`, `Lists`, `History` (XADD)
  and `Effects` (who is written to); `Invisible`, `Conservation`, `Waiting`, `Deadlines`, `Arrival` and `NoPanic` hold
  the other theorems over whole runs.
  `StreamHandler` joins the two: XADD on the stream objects does to the keyspace what the state machine says.
* **RESP.** `Resp` has the command parser and the printer of array replies, `RespGrammar` says exactly what the parser
  accepts, `Wire` what a client reads from a reply.
* **Foundations.** `Bytes` (fixed-width integers, byte order), `Decimal` (integer text), `Heap`, and `Masks`, which
  justifies once each bit operation that the model writes as arithmetic.

## How the program is represented

* A byte is an integer below 256. Listpack buffers, deques, hash maps and the slab are `seq` and `map` fields that
  methods reassign; listpacks, radix nodes, stream nodes and streams are classes, updated in place.
* A `BinaryHeap` is the sequence in which its entries would be popped (`Heap`), ties included. A `BTreeMap` with unit
  values is a set whose floor lookup returns the greatest member not above the bound.
* A panic is an outcome of its own (`Panics`, `Crashes`, `Overflows`, or `None` for a step), so nothing is assumed away
  where an `unwrap` or an addition can fail. A 64-bit sum or product that does not fit counts as a panic, which is what
  the development profile of the compiler does; with overflow checks off (the release profile, which the repository's
  scripts use) it wraps. `NoPanic.IdOverflows` says for which IDs that makes a difference.
  `Stream.Stream.Add` requires only that the specification does not panic; `StreamSpec.SmallNeverPanics` gives a size
  under which it never does.
* Clocks are parameters. The monotonic clock never decreases between events (`Server.InOrder`); the wall clock of
  `*` IDs is arbitrary.
* Replies are values (`Keyspace.Reply`); what a connection is sent is an append to one log. `Keyspace.ReplyBytes` gives
  the bytes. Items handed out carry the key they came from, which is printed only where the program prints it.
* Inside the keyspace a stream is its list of chunks; `StreamHandler.RunWithObjects` proves that over any run the
  stream objects of module `Stream`, trees of listpacks, hold these chunks.

## Results that differ from what one might expect

* `append` turns canonical decimal text into an integer, and IDs go through `append`. An ID one of whose eight-byte
  halves happens to be such text is accepted and never found again, and hides the later records of its chunk
  (`StreamSpec.TextualIdIsLost`). `StreamSpec.GetExact` says exactly when a stored record is found. IDs below 2^56 in
  both halves are never affected (`StreamSpec.SmallIdsNotTextual`).
* XADD refuses the text `0-0`, and its message says IDs must be greater than 0-0, but a key without records accepts
  the ID 0-0 under any other text of zeros around a dash, such as `00-0` (`Conservation.ZeroIdSlipsIn`). No further
  text does as long as overflow is a panic; where it wraps, `18446744073709551616-0` is one as well.
* Queue entries outlive a timeout and a disconnect, and tokens are used again. So a client can be woken by a push onto
  a key it does not wait for: the one its token's former owner waited for (`Waiting.StaleTokenWakes`). It can happen
  exactly when a client starts to wait while another key's queue still names its token (`Waiting.WokenByOwnKey`).
* Timeout entries outlive a wake and a disconnect too. So a client that was served and asks again within its first
  time limit is sent nil at that limit, before its new one (`Deadlines.StaleTimerFires`). It can happen exactly when a
  client starts to wait while the heap holds an entry of its token that is due before its new deadline
  (`Deadlines.TimedOutOnTime`).
* The expiry sweep is invisible to SET, GET, RPUSH, LPUSH, BLPOP and XADD. LPOP does not check expiry and sees it
  exactly when the sweep pops the key's heap entry (`Invisible.LPopSeesSweep`, with a run in `Invisible.LPopSweepRun`).
  LRANGE, LLEN and TYPE do not check expiry either; they are not part of the claim.

## Model

| member | source | states |
|---|---|---|
| Decimal.StrictParseIffText | src/data_structures/listpack.rs:344-390 | A text parses to v exactly when it is the canonical text of the 64-bit integer v, i64::MIN included, "-0" and leading zeros excluded |
| Decimal.StrictParseI64 | src/data_structures/listpack.rs:344-390 | The digit loop with checked u64 arithmetic decides exactly that |
| Decimal.SmallIdNotText | src/data_structures/stream.rs:183-186 | The big-endian bytes of a number below 2^56 are never taken for text |
| ListpackLaws.EncodeShortestForm | src/data_structures/listpack.rs:239-292 | The bytes written for a string or integer are one of the nine forms of that element, no form of it is shorter, and encoding fails only where no form exists |
| ListpackCodec.EncodeBacklen | src/data_structures/listpack.rs:294-328 | Fails exactly above 0x0FFFFFFF; otherwise has the size backlen_size gives |
| ListpackCodec.BacklenSizeLeast | src/data_structures/listpack.rs:330-342 | The size is the least number of seven-bit groups that hold the length, except that the greatest lengths of two, three and four groups take one more |
| ListpackCodec.BacklenIsGroups | src/data_structures/listpack.rs:294-342 | For every length the bytes written are its base-128 digits, and it fits that many |
| ListpackCodec.BacklenReadsBack | src/data_structures/listpack.rs:294-342 | Only the first byte has a clear high bit, and reading right to left from any place recovers the length |
| ListpackLaws.DecodeIffForm | src/data_structures/listpack.rs:157-237 | An entry is accepted as an element with a length if and only if its bytes are one of the nine forms of the element followed by the back-length that belongs to them; everything else is refused |
| ListpackLaws.DecodeInvertsEncode | src/data_structures/listpack.rs:157-328 | An entry written anywhere is decoded to the element it was written for, with its exact length |
| ListpackLaws.EntryNotEof | src/data_structures/listpack.rs:146-149 | No entry starts with the end byte |
| ListpackLaws.EncodingMinimal | src/data_structures/listpack.rs:157-292 | Whatever bytes decode to an element, the encoder's own entry for it is no longer |
| ListpackLaws.AppendLossless | src/data_structures/listpack.rs:76-82 | Printing the stored element gives back the appended bytes |
| ListpackLaws.IntegerFormSaves | src/data_structures/listpack.rs:76-82 | When text is stored as an integer the entry is strictly shorter than the string entry |
| Listpack.IterateImage | src/data_structures/listpack.rs:98-154 | Iterating over the image of a list yields the list and stops on its last byte |
| Listpack.ImageInjective | src/data_structures/listpack.rs:98-154 | Different lists have different buffers |
| Listpack.ImageHeader | src/data_structures/listpack.rs:392-406 | The header holds the buffer length, which is seven plus that of the entries, and the count saturated at 65535; the entries start at the seventh byte and 0xFF ends them |
| Listpack.WalkBackImage | src/data_structures/listpack.rs:105-123 | Walking right to left from the end byte visits every entry start, last first |
| Listpack.StartsBackwardAt | src/data_structures/listpack.rs:105-123 | The i-th start from the end is where the prefix without the last i+1 elements ends |
| Listpack.WellFormedReads | src/data_structures/listpack.rs:68-154 | Any reachable buffer: total_bytes is its length, the iterator rests on the end byte, the backward walk finds all entries |
| Listpack.UpdatedHeader | src/data_structures/listpack.rs:125-133 | Rewriting total and count makes the header for one element more; a saturated count stays saturated |
| Listpack.Listpack.constructor | src/data_structures/listpack.rs:40-46 | A new buffer is the image of the empty list |
| Listpack.Listpack.Append | src/data_structures/listpack.rs:76-82 | Succeeds exactly when the entry can be encoded and fits 32 bits; then adds that one element; otherwise leaves the buffer alone |
| Listpack.Listpack.AppendString | src/data_structures/listpack.rs:84-87 | The same for a string |
| Listpack.Listpack.AppendInt | src/data_structures/listpack.rs:89-92 | The same for an integer |
| Listpack.Listpack.PushEncodedEntry | src/data_structures/listpack.rs:105-135 | The buffer surgery keeps the buffer the image of its elements, one longer, or changes nothing |
| Listpack.Listpack.Len | src/data_structures/listpack.rs:56-62 | The true count, also when the 16-bit field is saturated |
| Listpack.Listpack.TotalBytes | src/data_structures/listpack.rs:68-70 | The buffer length |
| Listpack.ListpackIter.Next | src/data_structures/listpack.rs:146-154 | Yields the head of what is left, or nothing and stays put |
| Masks.TagTests | src/data_structures/listpack.rs:162-204 | The tag tests by mask are range tests |
| Masks.TagPayloads | src/data_structures/listpack.rs:163-206 | The payload masks subtract the tag |
| Masks.TagSetting | src/data_structures/listpack.rs:243-324 | Or-ing a tag onto free bits adds it |
| Masks.Bytes16 | src/data_structures/listpack.rs:245-268 | Low byte and high byte by mask and shift are remainder and quotient |
| Masks.Join | src/data_structures/listpack.rs:172-206 | Joining two bytes by shift and or is base-256 |
| Masks.Join24 | src/data_structures/listpack.rs:187-191 | Joining three bytes by shifts and ors is base-256, least significant first |
| Masks.Split24 | src/data_structures/listpack.rs:274-281 | Signed shifts and masks of a 32-bit number give the low bytes of its two's complement |
| Masks.Low24 | src/data_structures/listpack.rs:274-281 | For a 24-bit number those are the bytes of its two's complement with 24 bits |
| Masks.Sign13 | src/data_structures/listpack.rs:172-176 | Sign extension of 13 bits subtracts 2^13 |
| Masks.Sign24 | src/data_structures/listpack.rs:187-191 | Sign extension of 24 bits subtracts 2^24 |
| Masks.Groups | src/data_structures/listpack.rs:300-324 | The seven-bit groups by shift and mask are quotients and remainders |
| Trie.InsertGet | src/data_structures/radix.rs:35-93 | After inserting v at key, lookup gives v there and is unchanged at every other key |
| Trie.SplitGet | src/data_structures/radix.rs:59-69 | Splitting a prefix changes no lookup |
| Trie.InsertWfInner | src/data_structures/radix.rs:56-93 | Insertion keeps inner nodes' prefixes non-empty, edges sorted and labelled, and a value or two children in each |
| Trie.InsertWfRoot | src/data_structures/radix.rs:26-28 | Insertion at the root keeps that shape |
| Trie.PushedSorted | src/data_structures/radix.rs:91-92 | Pushing an edge with a new label and sorting keeps edges strictly sorted |
| Trie.PrefixWithin | src/data_structures/radix.rs:56-93 | An inner node's prefix is the longest its keys share |
| Trie.Canonical | src/data_structures/radix.rs:56-93 | Well-formed trees that denote the same map are equal |
| Trie.BuiltIsMap | src/data_structures/radix.rs:16-32 | A tree built by any insertions is well-formed and is the map of last-inserted values |
| Trie.BuiltCanonical | src/data_structures/radix.rs:56-93 | Insertion sequences that leave the same map leave the same tree |
| Trie.KeysExact | src/data_structures/radix.rs:35-54 | A preorder walk meets exactly the keys lookup finds |
| Trie.KeysAscend | src/data_structures/radix.rs:76-92 | The walk lists keys in strictly ascending byte order |
| Radix.Lcp | src/data_structures/radix.rs:95-103 | The index loop computes the longest common prefix |
| Radix.RadixNode.SplitNode | src/data_structures/radix.rs:59-69 | The in-place split gives the split tree |
| Radix.RadixNode.PushChild | src/data_structures/radix.rs:85-92 | The new leaf is pushed and the edges sorted |
| Radix.RadixNode.Descend | src/data_structures/radix.rs:78-83 | Recursion changes one child and nothing beside it |
| Radix.RadixNode.InsertRec | src/data_structures/radix.rs:56-93 | The in-place insertion gives exactly the tree of the specification |
| Radix.RadixNode.Get | src/data_structures/radix.rs:35-54 | Lookup in the nodes is lookup in the tree |
| Radix.RadixTree.Insert | src/data_structures/radix.rs:26-28 | A map update: the new value at the key, every other key unchanged |
| Radix.RadixTree.Get | src/data_structures/radix.rs:30-32 | Lookup in the tree |
| StreamId.ToBytesMonotone | src/data_structures/stream.rs:12-18 | Byte keys are ordered as IDs are, and distinct |
| StreamId.ParseU64 | src/data_structures/stream.rs:63-78 | Succeeds exactly on non-empty digit strings below 2^64 and gives their number |
| StreamId.ParseU64Loop | src/data_structures/stream.rs:63-78 | The loop decides number, bad byte or overflow in the order it meets them |
| StreamId.IdTextParses | src/data_structures/stream.rs:20-60 | The text of an ID parses back to it, whatever the last ID and the clock |
| StreamId.AutoSeqIsLeast | src/data_structures/stream.rs:47-54 | `ms-*` gives the least ID of that millisecond above the last |
| StreamId.ParseStar | src/data_structures/stream.rs:20-38 | `*` gives the clock's millisecond, and in it the least sequence above the last ID or 0, unless there is none; any other text without a dash is no ID |
| StreamId.ParseParts | src/data_structures/stream.rs:40-60 | Around the first dash: good exactly when the milliseconds are a number and the rest is one, or `*` with a next sequence left and milliseconds not below the last; too small exactly below them; the numbers are those of the text |
| StreamSpec.FieldsShown | src/data_structures/stream.rs:182-192 | Stored fields, integers printed back, are the fields given |
| StreamSpec.FindRecord | src/data_structures/stream.rs:145-180 | At a record the scan stops on a textual ID, returns on the target, and otherwise goes on behind the record |
| StreamSpec.FindIsLookup | src/data_structures/stream.rs:145-180 | Scanning elements is looking records up one by one |
| StreamSpec.FitsFields | src/data_structures/stream.rs:186-191 | The 32-bit size limit keeps the field count below 2^56 |
| StreamSpec.AddGood | src/data_structures/stream.rs:100-130 | Every accepted add keeps: IDs ascending within and across chunks, chunks started only when the previous is full or too old, every later record added below 4096 bytes and within 1000 ms |
| StreamSpec.ChunksAreMaximal | src/data_structures/stream.rs:106-129 | In numbers: a chunk is only followed by another once it has 4096 bytes or the next ID is 1000 ms later; no later record of a chunk met either |
| StreamSpec.AddLastId | src/data_structures/stream.rs:100-130 | An accepted ID is above the last one and becomes it |
| StreamSpec.GetExact | src/data_structures/stream.rs:132-180 | A stored record is found if and only if no record of its chunk up to it has a textual ID; what is found are its fields |
| StreamSpec.GetAbsent | src/data_structures/stream.rs:132-180 | An ID never stored is never found |
| StreamSpec.Run | src/data_structures/stream.rs:92-130 | The chunks after any run of adds satisfy all of AddGood |
| StreamSpec.RunLog | src/data_structures/stream.rs:100-130 | The chunks read in order are the records whose ID was above all before |
| StreamSpec.StreamNeverInvents | src/data_structures/stream.rs:100-192 | After any run, whatever is found was added under that ID, with no condition on IDs |
| StreamSpec.StreamIsMap | src/data_structures/stream.rs:100-192 | After any run every accepted record is found if and only if no accepted ID is textual; what is found are exactly its fields |
| StreamSpec.ChunksAreMap | src/data_structures/stream.rs:132-180 | The same of any chunks a stream can have |
| StreamSpec.AddKeepsOthers | src/data_structures/stream.rs:100-180 | An accepted record changes no lookup but its own |
| StreamSpec.SmallIdsNotTextual | src/data_structures/stream.rs:183-184 | IDs below 2^56 in both halves are not textual |
| StreamSpec.TextualIdIsLost | src/data_structures/stream.rs:151-184 | A record with a textual ID is accepted by a new stream and cannot be found; such an ID exists |
| StreamSpec.TextualExampleIsLost | src/data_structures/stream.rs:151-184 | One such record, accepted by a new stream and not found |
| StreamSpec.SmallNeverPanics | src/data_structures/stream.rs:182-192 | No run of records that fit with 4096 bytes to spare panics |
| StreamSpec.SmallWithAnyId | src/data_structures/stream.rs:182-192 | Fields that leave 4126 bytes fit with every ID |
| Stream.FindEntryInListpack | src/data_structures/stream.rs:145-180 | The iterator loops compute the scan over the listpack's elements |
| Stream.ReadRecord | src/data_structures/stream.rs:151-176 | One turn of the outer loop reads one record or gives up |
| Stream.ReadFields | src/data_structures/stream.rs:165-172 | The inner loop takes n pairs or fails when they run out |
| Stream.AppendEntry | src/data_structures/stream.rs:182-192 | When the record fits, every unwrap succeeds and the listpack grows by exactly its elements |
| Stream.StreamNode.Push | src/data_structures/stream.rs:111-112 | The node holds its chunk with the record added, and its ID as last |
| Stream.Stream.constructor | src/data_structures/stream.rs:92-98 | A new stream holds nothing |
| Stream.Stream.GetFloorKey | src/data_structures/stream.rs:140-142 | The greatest index key not above the ID, if there is one |
| Stream.Stream.CanAppendTo | src/data_structures/stream.rs:194-200 | Decides size, order and closeness for the chunk the node holds |
| Stream.Stream.FloorNode | src/data_structures/stream.rs:106-109 | Above the last ID, floor lookup and tree lead to the last node |
| Stream.Stream.Extend | src/data_structures/stream.rs:110-115 | Extends the last chunk, keeping tree, index and listpacks in agreement |
| Stream.Stream.StartNode | src/data_structures/stream.rs:119-129 | Starts a chunk, with node, tree entry and index entry |
| Stream.Stream.Add | src/data_structures/stream.rs:100-130 | Rejects and changes nothing, or stores the record where the chunk specification says |
| Stream.Stream.Get | src/data_structures/stream.rs:132-138 | Lookup through index, tree and bytes is lookup in the chunks |
| Stream.RunAdds | src/data_structures/stream.rs:92-130 | Any run of adds on a new stream object leaves the specified chunks |
| Stream.AddThenGet | src/data_structures/stream.rs:92-180 | End to end on the objects: what comes back was added under that ID; without textual IDs all that was accepted comes back |
| Stream.AddThenGetAll | src/data_structures/stream.rs:100-192 | On the objects, down to the bytes: all accepted records come back with their fields if and only if no accepted ID is textual |
| Stream.TreeWalkOrder | src/data_structures/stream.rs:85-89 | Walking a stream's tree visits exactly its index keys, in index order |
| Resp.ReadLineLoop | src/commands/parser.rs:1-8 | The loop finds the first line end |
| Resp.ParseArgs | src/commands/parser.rs:59-65 | The argument loop parses that many bulk strings in turn |
| Resp.ParseCommandBuffer | src/commands/parser.rs:43-71 | The whole parser, with its error order |
| Resp.BulkParses | src/commands/parser.rs:10-29 | A printed bulk string is parsed back anywhere in a buffer |
| Resp.WriteArray | src/commands/handlers/lists.rs:134-142 | The printing loop prints the array |
| Resp.ArrayParses | src/commands/parser.rs:43-71 | Every non-empty printed array parses back to its items, whatever they contain and whatever follows |
| Resp.CutArray | src/commands/parser.rs:43-71 | No strict prefix of a printed array parses |
| RespGrammar.UsizeExactly | src/commands/parser.rs:16-19 | A length is digits below 2^64, with leading zeros and one plus sign allowed |
| RespGrammar.CommandIff | src/commands/parser.rs:1-71 | A command is read from a buffer if and only if it starts with a count line and that many bulk strings, each with any two bytes after its data, and it is the command with these |
| RespGrammar.NoCommandIff | src/commands/parser.rs:42-45 | Only a buffer that does not start with a star holds no command |
| RespGrammar.CountOverflows | src/commands/parser.rs:54-60 | A count of zero, or past any memory, before a name stops the program |
| Keyspace.HandedParses | src/server/blocking.rs:34-44 | The reply to a woken client reads back as key and item |
| Wire.BulkReplyReads | src/commands/handlers/strings.rs:64-70 | A text, a popped item and a new ID are read back from the reply's bytes, whatever they hold and whatever follows |
| Wire.ArrayReplyReads | src/commands/handlers/lists.rs:206-229 | So is the array of several popped items |
| Wire.CountReplyReads | src/commands/handlers/lists.rs:50-52 | So is the length a push replies |
| Heap.PushKeepsOrder | src/types.rs:22 | Pushing keeps the pop order and adds one entry |
| Heap.PushKeepsPopOrder | src/server/blocking.rs:67-81 | Ties included: earlier times first, at equal times the greater entry first; entries are a multiset |
| Server.SweepExact | src/server/expiry.rs:8-31 | The sweep removes only expired keys and pops at most 170 entries; if fewer, no expired key remains |
| Server.ExecExpiries | src/commands/handlers/strings.rs:37-47 | Only strings get an expiry, and only SET queues one |
| Server.TimeOutAllEffect | src/server/blocking.rs:74-102 | The drain frees exactly the blocked connections it has an entry for |
| Server.NoOverdueClient | src/server/blocking.rs:67-103 | After the drain no connection is blocked past its deadline |
| Server.WakeExact | src/server/blocking.rs:17-62 | Exactly one client is woken, the first blocked one in queue order, and gets the head of the list |
| Server.PushWakesOne | src/server/mod.rs:126-131 | A push by a free client while somebody waits for the key replies the count, frees exactly the first blocked client queued, and sends it the head of the list |
| Arrival.WaitEffect | src/server/mod.rs:134-169 | A client that begins to wait goes behind all others in its key's queue, with its key and deadline; no other queue, connection or key changes |
| Arrival.FirstComeFirstServed | src/server/blocking.rs:17-26 | Through any run: as long as a client is blocked on a key, no push onto the key serves a client that was not yet in its queue when it began to wait |
| Server.WakeInv | src/server/blocking.rs:10-65 | Waking keeps the invariant: nobody blocked loses its place |
| Server.RegisterInv | src/server/mod.rs:134-169 | Blocking records key, queue place, deadline and timeout entry |
| Server.StepInv | src/server/mod.rs:39-310 | Every step keeps: blocked clients queued, free ones without key or deadline, deadlines and expiries in their heaps |
| Server.RunInv | src/server/mod.rs:39-310 | So does every run, across disconnects, token reuse and stale entries |
| Server.InitialInv | src/server/mod.rs:28-35 | The empty server satisfies the invariant |
| Invisible.ExecSame | src/commands/handlers/strings.rs:52-78 | Commands but LPOP have the same outcome on keyspaces that agree on live entries |
| Invisible.StepSimilar | src/server/mod.rs:39-310 | So do whole steps, wakes and timeouts included |
| Invisible.CleanupInvisible | src/server/expiry.rs:8-31 | Sweeps put in or left out anywhere in any run change no reply, no order and no blocking |
| Invisible.LPopSeesSweep | src/commands/handlers/lists.rs:174-237 | LPOP's reply changes if and only if the key's expiry is among the heap entries the sweep pops; with at most 170 entries due, if and only if the key's time has passed |
| Invisible.LPopSweepRun | src/server/expiry.rs:8-31 | A run: a string set for 5 ms and popped at 5 is a type error without a sweep and nil with one |
| Strings.SetThenGet | src/commands/handlers/strings.rs:9-78 | After a SET and any run that does not write the key, sweeps included, GET is answered with the text while its time to live lasts, and with nil afterwards |
| Strings.GetReplies | src/commands/handlers/strings.rs:52-78 | GET in general: the text of a live string, a type error for a list or stream, else nil |
| Lists.PushReplies | src/commands/handlers/lists.rs:9-99 | A push puts all values at the end in order, or at the front in reverse, of the list or of a new one, replies the new length, and touches no other key |
| Lists.PopReplies | src/commands/handlers/lists.rs:174-237 | LPOP hands out the first items, as many as asked for and there, keeps the rest, and fails on other types |
| Lists.BlockingPopReplies | src/commands/handlers/lists.rs:239-264 | BLPOP takes exactly the head, or waits |
| Lists.PushThenPop | src/commands/handlers/lists.rs:9-237 | Items pushed at the back of an empty list are popped in order, items pushed at the front in reverse |
| Effects.ExecFrame | src/commands/handlers/lists.rs:9-264 | No command touches another key |
| Effects.FailedChangesNothing | src/commands/handlers/streams.rs:12-45 | A command that fails changes nothing |
| Effects.RequestReplies | src/server/mod.rs:88-306 | A request is ignored by a blocked connection, else answered once and first unless it waits; only a push that succeeded may write to a client more, one it frees |
| Effects.DrainReplies | src/server/blocking.rs:67-103 | A drain tells every client it frees, once, that nothing came, and nobody else anything |
| Effects.ClosedHearsNothing | src/server/mod.rs:77-97 | After a close, until its token is accepted again, a connection is gone and nothing is written to it, whatever entries it left |
| Effects.HeapsFromStart | src/server/blocking.rs:67-81 | In every reachable state both heaps are in pop order, ties included |
| Conservation.ExecBalance | src/commands/handlers/lists.rs:9-99 | Per command, what a list gains is what was pushed and what it loses is in the reply |
| Conservation.StepBalance | src/server/blocking.rs:28-57 | The same per step, wakes included, with order |
| Conservation.ItemsConserved | src/commands/handlers/lists.rs:9-264 | Over any run that does not overwrite the key, delivered and remaining items are the initial and pushed ones |
| Conservation.FirstInFirstOut | src/commands/handlers/lists.rs:9-53 | With RPUSH only, items are delivered in the order they were pushed |
| Conservation.XAddEffect | src/commands/handlers/streams.rs:8-67 | XADD fails and leaves the keyspace unchanged, or reports an ID that parses from the request, is above the last and becomes it |
| Conservation.XAddIdsIncrease | src/commands/handlers/streams.rs:31-66 | While a key stays a stream the IDs reported for it strictly increase |
| History.FlatPairs | src/commands/handlers/streams.rs:16-29 | The stored fields are the arguments of the request, in their order |
| History.XAddStores | src/commands/handlers/streams.rs:34-60 | An accepted XADD adds one record, last, with the ID it reports and the fields of its request |
| History.XAddReadsBack | src/data_structures/stream.rs:132-180 | Looking the reported ID up gives the request's fields if and only if no ID of its chunk is textual; no other lookup changes |
| History.XAddFails | src/commands/handlers/streams.rs:12-45 | XADD fails exactly on the text 0-0, then on fields not in pairs, on a text that is no ID, on an ID not above the last one, and else on a bad number |
| History.RunHistory | src/commands/handlers/streams.rs:8-67 | While a key stays a stream no record is lost, changed or moved, and exactly the accepted ones are added |
| History.XAddThenRead | src/commands/handlers/streams.rs:8-67 | Such a key, empty at first, is a map from reported IDs to the fields of their requests: all are found if and only if none is textual, and nothing else is |
| Conservation.ZeroIdTexts | src/data_structures/stream.rs:20-78 | A key without a stream reads a text as 0-0 if and only if it is zeros, a dash, zeros |
| Conservation.ZeroIdSlipsIn | src/commands/handlers/streams.rs:12-60 | For every keyspace and request: 0-0 is added if and only if the key has no record yet, the text is zeros around a dash but not `0-0`, the fields come in pairs and the record fits |
| Conservation.ZeroIdExample | src/commands/handlers/streams.rs:12-60 | The text `00-0` without fields, on the empty keyspace, is such a request |
| NoPanic.IdOverflows | src/data_structures/stream.rs:20-78 | Reading an ID overflows if and only if a number in the text is past 64 bits or the next sequence is asked for after the last one |
| NoPanic.StepPanics | src/commands/handlers/streams.rs:8-67 | A step panics if and only if it runs an XADD whose ID overflows or whose record cannot be stored |
| NoPanic.RunCompletes | src/server/mod.rs:28-310 | A run of n events from the empty server completes if no XADD text overflows or names a sequence above 2^64 - 1 - n and all fields leave 4126 bytes |
| Waiting.StepSettled | src/server/mod.rs:39-310 | From settled queues, whatever the event: they stay settled if and only if no client starts to wait while another key's queue names it; a client is freed only by a push onto its key or by a timeout event, which may be a stale entry's |
| Waiting.SettledIffHarmless | src/server/blocking.rs:10-65 | Queues are settled if and only if no later push can free a client that waits for another key |
| Waiting.WokenByOwnKey | src/server/blocking.rs:17-62 | Along any run, timeouts and disconnects included: pushes can never free a client that waits for another key if and only if no client of the run starts to wait with an entry left elsewhere |
| Waiting.WokenByOwnKeyFromStart | src/server/mod.rs:28-310 | The same for every run of the program, which starts empty; without such a start no push of the run wakes a client of another key |
| Waiting.StaleTokenWakes | src/server/blocking.rs:17-62 | A client times out on one key and disconnects; the next connection gets its token, waits for another key, and is woken by a push onto the first |
| Deadlines.StepTimely | src/server/blocking.rs:67-103 | From timely entries, whatever the event: they stay timely if and only if no client starts to wait with an entry of its token due before its new deadline, and the drain frees nobody before its deadline |
| Deadlines.TimelyIffPunctual | src/server/blocking.rs:67-103 | Entries are timely if and only if no later drain can time a client out early |
| Deadlines.TimedOutOnTime | src/server/blocking.rs:67-103 | Along any run: nobody can be timed out early if and only if no client of the run starts to wait with an older entry due before its deadline |
| Deadlines.TimedOutOnTimeFromStart | src/server/mod.rs:28-310 | The same for every run of the program, which starts empty; without such a start no client of the run is timed out early |
| Deadlines.FreedForAReason | src/server/blocking.rs:17-103 | With neither kind of stale entry, a client is freed only by a push onto its own key or at the end of its own deadline |
| Deadlines.StaleTimerFires | src/server/blocking.rs:74-102 | A client served within its time asks again and is timed out at its first deadline, before the second |
| EventLoop.Process.CleanupExpired | src/server/expiry.rs:8-31 | The bounded drain loop is the sweep |
| EventLoop.Process.CleanupBlocked | src/server/blocking.rs:67-103 | The drain loop is the timeout step |
| EventLoop.Process.WakeClient | src/server/blocking.rs:10-65 | The queue loop is the wake step |
| EventLoop.Process.HandleRPush | src/commands/handlers/lists.rs:9-53 | Appends the values in order to the list or to a new one |
| EventLoop.Process.HandleLPush | src/commands/handlers/lists.rs:55-99 | Puts the values in reverse in front of it |
| EventLoop.Process.HandleLPop | src/commands/handlers/lists.rs:174-237 | Takes up to count items off the front |
| EventLoop.Process.Block | src/server/mod.rs:134-169 | Marks the connection and records deadline and place |
| EventLoop.Process.Dispatch | src/server/mod.rs:120-134 | Runs the handler of the command |
| EventLoop.Process.Readable | src/server/mod.rs:88-169 | A request step: ignored when blocked, else handled, answered, and followed by a wake after a push |
| EventLoop.Process.Serve | src/server/mod.rs:39-310 | Any sequence of events, connections coming and going included, takes the object through the states of the model and keeps the invariant |
| StreamHandler.AddTo | src/commands/handlers/streams.rs:34-60 | On a stream object: parse against its own last ID, add; reply and stored chunks are those of the keyspace model, and a failure changes nothing |
| StreamHandler.XAdd | src/commands/handlers/streams.rs:8-67 | With one object per stream key, XADD changes that object in place or adds a new one, as the keyspace model says, and no other stream |
| StreamHandler.StepKeepsObjects | src/server/mod.rs:39-310 | No other step makes or changes a stream |
| StreamHandler.RunWithObjects | src/server/mod.rs:39-310 | After any run the stream objects hold exactly the streams of the keyspace model |
| StreamHandler.RunThenLookUp | src/data_structures/stream.rs:132-180 | After any run of the server, a lookup through the stream object down to the bytes gives exactly the fields of the XADD that reported the ID |

## Left out

- Sockets, polling, partial writes, interest registration and I/O errors: a reply is an append to the log.
- Read-buffer accumulation and pipelining: the state machine is driven by parsed commands, whose missing-argument
  errors, option parsing, UTF-8 checks and number parsing (timeouts, counts, EX and PX values) happened before. The
  program does not clear the buffer when a command blocks, so that connection next runs the same command again
  (src/server/mod.rs:168-169); the model lets it send any command, which only adds runs.
- Slab internals: a connection keeps its token while it is handled, and Accept may pick any free token.
- LRANGE, LLEN, TYPE, PING, ECHO, the dispatch table, publish/subscribe, `normalize_upper`, `with_capacity` and
  `Listpack::get`: they add easy members only; the array printer of LRANGE is `Resp.WriteArray`.
- Disconnecting is modelled more liberally than the program allows: any connection may close at any time, blocked or not.
- Conservation.FirstInFirstOut: says nothing about LPUSH, which reorders by design.
- Resp.ArrayParses: bounds the item count by what a list in memory can hold, because the parser preallocates; a count of
  zero and sums past 64 bits are the outcome `Overflows`.
- EventLoop.Process.HandleXAdd: works on the chunks of the stored stream, as the state machine does; the handler on
  stream objects is `StreamHandler.XAdd`.
- Memory exhaustion is not modelled.
