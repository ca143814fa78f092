# Verified models of aws-c-http

aws-c-http is a C99 HTTP/1.1 and HTTP/2 stack. This project models the parts of it whose
correctness spans several operations, and proves in Dafny what they promise over every input
and every run.

| area | modules | main results |
|---|---|---|
| HPACK (RFC 7541) | `Octets`, `HpackInteger`, `HpackTable`, `HpackLookup`, `HpackRing`, `HpackDecoder`, `HpackEncoder`, `HpackCodec`, `HpackLimits`, `HpackEntries` | the ring buffer refines a newest-first sequence; reverse lookup is sound, and exactly which entries it misses; decoding does not depend on how the input is divided; encoder and decoder stay in lockstep over whole sessions; for any limits set, both tables are cut to the smallest and announce the last; what every entry of any bytes means |
| Connection manager | `ConnectionManager`, `ConnectionManagerRuns`, `ConnectionCustody`, `ConnectionPool` | no run strands an acquisition, loses or repeats a completion, meets a false assertion, has its count at zero under the lock, or destroys the manager with something left; every connection is in one place at any time and released once; culling is exact |
| HTTP/2 stream manager | `StreamManager`, `StreamPlacement`, `StreamManagerRuns`, `StreamManagerShutdown`, `StreamManagerAsserts`, `StreamManagerExact`, `StreamPool` | no run strands an acquisition; placement respects limits exactly; each acquisition is answered once, and exactly those fail that cannot be carried; exactly when destruction begins more than once, and exactly when an assertion of the source is false, with runs that show both |
| HTTP/2 flow control (RFC 7540) | `FlowControl`, `FlowCredit`, `FlowOrder`, `FlowBalance`, `FlowConduct`, `FlowRuns`, `FlowEndpoint`, `FlowAnswers`, `FlowWindows` | with any peer, windows are their history and stay in range, no 32-bit sum overflows, exactly which frames raise which connection error, and which answers each frame gets; between a client and a server credit is conserved across settings changes, so neither end ever raises a flow-control error or resets a stream for its order of frames, and the only error is exactly that of a closed stream forgotten too early |
| HTTP/2 output | `WireOrder`, `WireRuns`, `OutgoingFrames`, `OutgoingTurns` | queue shape, order on the wire, HPACK order equal to wire order, and each stream's HEADERS before its DATA before its RST_STREAM, in every run; exactly when DATA overtakes a frame queued before it; where each stream is after a round of DATA |
| HTTP/2 frames | `H2Fields`, `H2Decoder`, `H2Frames`, `H2Headers`, `H2Codec`, `H2Exchange`, `H2Meaning`, `H2Streams` | the decoder terminates, its callbacks do not depend on how the input is divided, and for any bytes they are what the frames mean, or exactly the error they call for; every frame, through any buffers, is read back as it was written; every header list, through HPACK, fragmentation and any buffers, is reported as it was given exactly when it is well formed and in canonical order, and marked malformed exactly when it breaks a rule |
| HTTP/1.1 codec (RFC 7230) | `H1Syntax`, `H1Decoder`, `H1Encoder`, `H1Codings`, `H1RoundTrip`, `H1Chunks`, `H1Codec`, `H1Grammar`, `H1Acceptance` | the decoder does not depend on how the input is divided, and exactly which lines and header sections it accepts; exactly which messages the encoder accepts; what the encoder accepts is read back as it was written, through buffers of any size, exactly when the decoder can read its headers and, chunk by chunk, exactly when no chunk extension holds a line end |

The form follows the source. Code that updates state in place is a class (`DynamicTable`,
`EntryDecoder`, `HeaderEncoder`, the two `Pool`s, `Windows`, `FrameWriter`, `FrameDecoder`,
`HeadersWriter`, `PrebuiltFrame`, `MessageDecoder`, `MessageEncoder`) whose methods are proved
against functions on values. The theorems are about those functions, and about runs of them: a
critical section under a lock is one step, and steps of all threads, callbacks and executed
transactions interleave freely. `Sequences` holds facts that the managers and flow control use.

Where the code and what one would expect of it part ways, the model does what the code does:

- Growing a full HPACK buffer of capacity 1 leaves it at capacity 1 (`source/hpack.c:422-425`).
  `HpackTable.InsertKeepsValid` gives the exact condition, `HpackTable.StrandedIsReachable` a run
  that meets it. Every HPACK result states what happens otherwise.
- The finishing job that the stream manager schedules at shutdown, to fail what is pending, holds no
  reference of its own. `StreamManagerShutdown.OutlivedOnlyIf` and `StreamManagerShutdown.OutlivedIf`
  say when the count can reach zero before it has run: exactly if the last reference was released
  with an acquisition pending and a connection on its way. Its critical section then takes the count
  from zero and back, and destruction begins again. `StreamManagerShutdown.TaskOutlivesCount` is such
  a run.
- The stream manager's request job gives up one count before it takes the other.
  `StreamManagerShutdown.ExchangeDips` says exactly when the count is zero in between,
  `StreamManagerShutdown.DipIsReachable` gives a run. `StreamManagerShutdown.DestroyedOnceExactly`:
  destruction begins once, and once more for each of these two, if it happened.
- A connection whose limit of concurrent streams is zero still gets one stream:
  `StreamManagerRuns.PlacementIsExact` says that a limit is respected exactly when it is not zero,
  `StreamManagerAsserts.OverloadIsReachable` gives a run, and `StreamManagerAsserts.AssertedExactly`
  says which assertions of the source this, or a second destruction, makes false.
- The queue of outgoing frames is looked at once for a whole round of DATA, in which a failing body
  queues RST_STREAM. `WireRuns.BehindAllUnlessOvertaken` and `WireRuns.DataBehindQueue` say what of
  the order remains, `WireRuns.OvertakingIsReachable` is a run in which DATA overtakes that frame.
- The HTTP/2 decoder joins cookies and sorts pseudo-headers: `H2Headers.ReportedExactly` says which
  header lists are reported as they were given. The encoder promises any stream, and the decoder
  refuses a promise of an odd one: `H2Headers.HeaderListExactly` has the exact condition.
- A connection remembers only so many closed streams. A frame that was under way when its stream was
  closed and forgotten is a connection error, also between two well-behaved ends:
  `FlowRuns.NoFlowControlErrors` says exactly when, `FlowRuns.ForgettingIsReachable` is a run for a
  cache of one stream, whatever the server's cache.
- The HTTP/1.1 encoder accepts messages that the decoder refuses: a response without a body whose
  content length is overruled by a later zero (`H1RoundTrip.OverruledIsAccepted`), and transfer codings
  the decoder does not know (`H1RoundTrip.OddlyCodedIsAccepted`). `H1RoundTrip.ReadBackExactly` gives
  the exact condition. Nor does it check the extensions of chunks for line ends:
  `H1Chunks.BrokenIsAccepted` is a message the decoder refuses, and `H1Chunks.SteadyExactly` gives the
  exact condition.
- After the lookups of a dynamic table are rebuilt, the oldest entry of a name is the one found; once
  it is evicted, the name is not found although a younger entry has it
  (`HpackLookup.NameLossIsReachable`). An evicted field takes the lookup of an equal younger one with
  it (`HpackLookup.FieldLossIsReachable`). `HpackLookup.FoundExactly` says for every history of the
  table which names and fields it finds. Lookups are sound, and encoding does not depend on more.

## Model

| member | source | states |
|---|---|---|
| `HpackInteger.EncodeInteger` | source/hpack_encoder.c:79-131 | the bytes appended by the loop are the prefix-coded integer of section 5.1 of RFC 7541, for every 64-bit value and every prefix size |
| `HpackInteger.AppendContinuation` | source/hpack_encoder.c:106-124 | the loop appends exactly the base-128 digits of the integer, lowest first, the last without the continuation bit |
| `HpackInteger.AccumulatorNeverWraps` | source/hpack_decoder.c:58-131 | in every state the decoder can be in, adding the next shifted byte stays below 2^64 |
| `HpackInteger.DecodeStaysReachable` | source/hpack_decoder.c:58-131 | whatever bytes arrive, the decoder only ever stops in a state from which the accumulator cannot wrap |
| `HpackInteger.IntegerSplit` | source/hpack_decoder.c:58-131 | decoding an integer from two buffers gives the value, the failure or the unread rest that one buffer gives |
| `HpackInteger.DecodeIntegerLoop` | source/hpack_decoder.c:58-131 | the loop over a cursor meets the byte-by-byte specification and stops where the integer ends, or at the end of the input |
| `HpackInteger.IntegerRoundTrip` | source/hpack_decoder.c:58-131 | decoding an encoded 64-bit integer gives it back exactly when it is less than 2^63 above the prefix maximum; the decoder refuses all others |
| `HpackTable.EvictKeepsLongestPrefix` | source/hpack.c:265-303 | eviction fits the limit and drops no entry that any other newest-first prefix within the limit would have kept |
| `HpackTable.InsertKeepsValid` | source/hpack.c:398-487 | insertion keeps size and capacity bounds, and fails to exactly when one entry remains in a buffer of capacity 1 |
| `HpackTable.InsertCases` | source/hpack.c:413-430 | once room is made there is a free slot unless growth started from capacity 1, and then the table is the kept entries with the new one in front |
| `HpackTable.StrandedIsReachable` | source/hpack.c:489-525 | for any two fields that fit together: insert one, resize the table, insert the other, and growth starts from capacity 1 |
| `HpackTable.ResizeKeepsValid` | source/hpack.c:489-525 | a resize keeps the table's invariant and takes the new maximum; it is refused exactly above the maximum allowed |
| `HpackTable.InsertKeepsCached` | source/hpack.c:398-487 | the table only ever holds fields that may be cached |
| `HpackRing.DynamicTable.constructor` | source/hpack.c:115-149 | a new table is empty, of the default maximum size, and its lookups hold nothing |
| `HpackRing.DynamicTable.GetHeaderAt` | source/hpack.c:188-210 | through any wrap-around, index i is element i of the static table followed by the entries newest first; index 0 and indexes past the end are errors |
| `HpackRing.DynamicTable.FindIndex` | source/hpack.c:212-262 | a non-zero index names an entry with the same name, and the same value when found is set; an exact match is preferred to a name, the static table to the dynamic one; within the dynamic table the index is, and is zero, exactly as `HpackLookup.FieldIndex` and `HpackLookup.NameIndex` say for the history of the table |
| `HpackRing.DynamicTable.EvictBack` | source/hpack.c:265-303 | removing the oldest entry leaves the lookups that the history of the table calls for, also when a younger entry has the same name or value |
| `HpackRing.DynamicTable.Shrink` | source/hpack.c:265-303 | the loop removes exactly what eviction to the limit removes, keeps the recorded size the sum of the entries, and forgets what each eviction takes from the lookups |
| `HpackRing.DynamicTable.Relayout` | source/hpack.c:305-379 | copying the two parts of a wrapped buffer into a new one from slot 0 keeps the entries and their order |
| `HpackRing.DynamicTable.RebuildLookups` | source/hpack.c:380-393 | re-inserting newest first makes every lookup lead to the oldest of equal entries, whatever the maps held before |
| `HpackRing.DynamicTable.ResizeBuffer` | source/hpack.c:305-396 | changing the capacity keeps the entries and rebuilds the lookups |
| `HpackRing.DynamicTable.MakeRoom` | source/hpack.c:413-430 | before an insertion: eviction just enough, then growth exactly when the buffer is full |
| `HpackRing.DynamicTable.PushFront` | source/hpack.c:432-482 | with a free slot, moving element 0 back one slot prepends the entry, through wrap-around, and makes its name and field lead to it and all others where they led |
| `HpackRing.DynamicTable.InsertFitting` | source/hpack.c:413-487 | an entry that fits is prepended after just enough eviction, with the lookups this history calls for, or the buffer claims more elements than slots, exactly in the capacity 1 case |
| `HpackRing.DynamicTable.InsertHeader` | source/hpack.c:398-487 | refines insertion at the front of a sequence; a field larger than the table is an error that changes nothing |
| `HpackRing.DynamicTable.ResizeTable` | source/hpack.c:489-525 | refines dropping the shortest suffix; refused exactly above the maximum allowed, and then nothing changes |
| `HpackRing.PushKeepsExact` | source/hpack.c:468-480 | pointing both maps at the new slot makes the new name and field lead to it, and every other search end at the entry it ended at, although every index moves by one |
| `HpackRing.EvictFieldsExact` | source/hpack.c:273-288 | without the evicted entry's key the map of fields is what a search finds among the other entries |
| `HpackRing.EvictNamesExact` | source/hpack.c:273-288 | the map of names loses the evicted name exactly if it led to the evicted slot, and is then what a search finds among the other entries |
| `HpackRing.RebuildOneMore` | source/hpack.c:380-393 | an older entry put into the lookups takes over its name and its field |
| `HpackRing.DynamicTable.SearchEnds` | source/hpack.c:212-262 | a key is in a lookup exactly if the history of the table lets a search find it, and then leads to the entry where the search ends |
| `HpackRing.RotateBack` | source/hpack.c:432-445 | writing at the slot before element 0 is prepending, for every position of element 0 |
| `HpackLookup.NoteName` | source/hpack.c:468-480 | after an insertion a search for a name ends at the new entry if it has the name, and else where it did |
| `HpackLookup.NoteKey` | source/hpack.c:468-480 | the same for a field |
| `HpackLookup.DropName` | source/hpack.c:273-288 | an eviction takes a name from the lookups exactly if the search for it ended at the evicted entry |
| `HpackLookup.DropKey` | source/hpack.c:273-288 | an eviction takes a field from the lookups exactly if the evicted entry is equal to it, also if a younger one is too |
| `HpackLookup.MemoryIsHistory` | source/hpack.c:265-303 | over any history, a name is lost exactly if an entry with it was evicted since the last rebuild, and a field exactly if one was evicted since that and since it was last inserted |
| `HpackLookup.FoundExactly` | source/hpack.c:212-262 | over any history, a name that the table holds is found if and only if an entry with it that was inserted since the last rebuild is still there or none was evicted since; a field that it holds is found if and only if none equal to it was evicted since it was last inserted or since the last rebuild |
| `HpackLookup.RunIsHistory` | source/hpack.c:398-525 | any run of insertions and resizes of a table is such a history, step by step, and leads to the same entries and the same lookups |
| `HpackLookup.NameLossIsReachable` | source/hpack.c:380-393 | for any two fields of one name and a third of another that fit: insert the two, resize, insert the third, and the table holds the name but a search for it ends nowhere |
| `HpackLookup.FieldLossIsReachable` | source/hpack.c:273-288 | for any field inserted twice and one that evicts the older copy, the table holds the field but a search for it ends nowhere |
| `HpackDecoder.HuffmanSplit` | source/hpack_decoder.c:133-228 | Huffman decoding resumes across buffers as if they were one |
| `HpackDecoder.StringSplit` | source/hpack_decoder.c:133-228 | decoding a string from two buffers is decoding it from one, for every state of progress |
| `HpackDecoder.EntrySplit` | source/hpack_decoder.c:230-446 | decoding an entry from two buffers is decoding it from one: same entry, error, table and unread rest |
| `HpackDecoder.RunSplit` | source/hpack_decoder.c:230-446 | the same for any number of entries, wherever the division falls |
| `HpackDecoder.SplitInvariance` | source/hpack_decoder.c:230-446 | for every division of the input into buffers: same events, same first error, same final decoder and table |
| `HpackEncoder.StringRoundTrip` | source/hpack_encoder.c:133-254 | every encoded string, Huffman-coded or not as the mode decides, is decoded to itself and nothing of what follows is read |
| `HpackEncoder.FieldRoundTrip` | source/hpack_encoder.c:277-360 | an encoded field, in each of its representations, is decoded to itself and changes the decoder's table as it changed the encoder's |
| `HpackEncoder.FieldsRoundTrip` | source/hpack_encoder.c:408-415 | a list of fields is decoded to itself and leaves equal tables, although each field's index depends on those before it |
| `HpackEncoder.ResizesRoundTrip` | source/hpack_encoder.c:369-406 | announced table sizes within the decoder's limit are taken over in order and leave equal tables |
| `HpackEncoder.PendingOrdered` | source/hpack_encoder.c:36-50 | over any sequence of limits, the smallest pending limit never exceeds the latest, and the latest is the last received |
| `HpackEncoder.BlockLockstep` | source/hpack_encoder.c:362-418 | a successfully encoded block, divided in any way, is decoded to the announced sizes and exactly the header list, and the tables are equal again |
| `HpackEncoder.ExchangeLockstep` | source/hpack_encoder.c:362-418 | one exchange, with the limits received before it, keeps encoder and decoder in lockstep |
| `HpackEncoder.SessionLockstep` | source/hpack_encoder.c:362-418 | every sequence of successfully encoded blocks with any limits between them and any division of the bytes is received as exactly the header lists, with equal tables at the end |
| `HpackCodec.TakeValue` | source/hpack_decoder.c:177-212 | takes what there is of a string's body and no more than its announced length |
| `HpackCodec.DecodeStringLoop` | source/hpack_decoder.c:133-228 | the resumable string state machine over a cursor meets its specification |
| `HpackCodec.EntryDecoder.constructor` | source/hpack_decoder.c:16-28 | a new decoder waits for an entry, limited to the table's maximum size |
| `HpackCodec.EntryDecoder.UpdateMaxTableSize` | source/hpack_decoder.c:46-48 | only the limit for later size updates changes |
| `HpackCodec.EntryDecoder.RunIndexed` | source/hpack_decoder.c:286-305 | running the state keeps the outcome of the whole entry, and makes progress or concludes |
| `HpackCodec.EntryDecoder.RunLiteral` | source/hpack_decoder.c:315-350 | running the state keeps the outcome of the whole entry, and makes progress or concludes |
| `HpackCodec.EntryDecoder.RunName` | source/hpack_decoder.c:353-367 | running the state keeps the outcome of the whole entry, and makes progress or concludes |
| `HpackCodec.EntryDecoder.RunValue` | source/hpack_decoder.c:371-400 | running the state keeps the outcome of the whole entry, and makes progress or concludes |
| `HpackCodec.EntryDecoder.RunResize` | source/hpack_decoder.c:404-430 | running the state keeps the outcome of the whole entry, and makes progress or concludes |
| `HpackCodec.EntryDecoder.RunState` | source/hpack_decoder.c:241-436 | one turn of the state machine keeps the outcome of the whole entry and cannot go on for ever |
| `HpackCodec.EntryDecoder.FinishResize` | source/hpack_decoder.c:414-430 | a size above the limit, or one the table refuses, is an error; otherwise the table is resized |
| `HpackCodec.EntryDecoder.FinishLiteral` | source/hpack_decoder.c:384-400 | a literal is reported, and saved exactly when its kind asks for it |
| `HpackCodec.EntryDecoder.Decode` | source/hpack_decoder.c:230-446 | consumes input up to the end of one entry with the outcome, table and cursor of the specification |
| `HpackCodec.HeaderEncoder.UpdateMaxTableSize` | source/hpack_encoder.c:36-50 | keeps the smallest and the latest of the limits received since the last block |
| `HpackCodec.HeaderEncoder.AppendString` | source/hpack_encoder.c:133-254 | appends the string's encoding to the output |
| `HpackCodec.HeaderEncoder.AppendField` | source/hpack_encoder.c:277-360 | the search of the tables is sound, what is appended is the field's encoding for that search, and the table changes as the specification says, with both failures told apart |
| `HpackCodec.HeaderEncoder.AppendUpdates` | source/hpack_encoder.c:369-406 | announces what is pending, which `HpackLimits.ResizesLead` shows to be the smallest limit set since the last block, if it is not the last, and the last; or fails exactly when the table refuses one |
| `HpackCodec.HeaderEncoder.AppendFields` | source/hpack_encoder.c:408-415 | appends the encoding of the list, or fails exactly as encoding the list with the searches made fails |
| `HpackCodec.HeaderEncoder.EncodeHeaderBlock` | source/hpack_encoder.c:362-418 | appends a block that meets the premises of lockstep, or fails exactly as encoding the block with the searches made fails |
| `HpackLimits.PendingIs` | source/hpack_encoder.c:36-50 | whatever limits are set before a block, what is pending is their smallest and their last |
| `HpackLimits.ResizeEvicts` | source/hpack.c:489-525 | a resize succeeds exactly up to the largest size, and keeps the longest run of newest entries that fits |
| `HpackLimits.ResizesLead` | source/hpack_encoder.c:369-406 | for any limits since the last block, the sizes announced include the smallest and end with the last, at most two and rising; the table is evicted to the smallest and ends with the last; refused exactly if the last is too large |
| `HpackLimits.LimitsObeyed` | source/hpack_encoder.c:362-418 | for any limits, fields and division of the bytes, both tables lose what the smallest limit evicts before the first field, the decoder reads first a size update with the smallest limit and last one with the last, and reports the fields as given |
| `HpackLimits.LimitsRefused` | source/hpack_encoder.c:369-406 | a block after a last limit too large is refused |
| `HpackEntries.IntegerExactly` | source/hpack_decoder.c:58-131 | for every input, the integer read is the prefix plus the sum of its continuation bytes by weight; refused exactly if it has too many of them |
| `HpackEntries.StringExactly` | source/hpack_decoder.c:133-228 | for every input, a string is the bytes its length says, as they are or decoded |
| `HpackEntries.EntryExactly` | source/hpack_decoder.c:230-446 | for every input and every table, which of the forms of section 6 of RFC 7541 the first byte selects, which field or size update the entry gives, which table it leaves, and that every other input is refused or incomplete |
| `HpackEntries.StringForm` | source/hpack_encoder.c:133-254 | a string is sent in the shorter form when the encoder may choose, plain if both are as long |
| `HpackEntries.FieldForm` | source/hpack_encoder.c:277-360 | each compression mode has its own form: never indexed, without indexing, indexed exactly when the whole field was found, and otherwise with indexing, which alone inserts; a name that was found is sent as its index |
| `HpackEntries.PlainIsCorrect` | source/hpack_decoder.c:133-228 | coders as the other results require exist |
| `ConnectionManager.FailAllMoves` | source/connection_manager.c:482-530 | failing acquisitions moves them from the front of the queue to the end of the list in order |
| `ConnectionManager.FailAllEffect` | source/connection_manager.c:510-530 | as many acquisitions wait afterwards as allowed, and nothing else changes |
| `ConnectionManager.NeededSuffices` | source/connection_manager.c:609-631 | what is asked for leaves no acquisition stranded and stays within the maximum |
| `ConnectionManager.BuildKeeps` | source/connection_manager.c:577-661 | building a transaction keeps the bounds, strands nothing while ready, keeps the count of references, and leaves at most one success with nothing beside it |
| `ConnectionManager.BuildMoves` | source/connection_manager.c:577-661 | building a transaction takes acquisitions from the front of the queue in order and loses none |
| `ConnectionManager.BuildTakesNewest` | source/connection_manager.c:584-607 | building a transaction only takes idle connections from the newest end |
| `ConnectionManager.DispatchIsComplete` | source/connection_manager.c:425-470 | for every transaction the manager can build, the early return of the loop leaves no completion behind |
| `ConnectionManager.CullExact` | source/connection_manager.c:1487-1534 | on a list sorted by time, the scan that stops early finds exactly the expired connections |
| `ConnectionManager.RemoveFinds` | source/connection_manager.c:1295-1306 | a removal is reported exactly when the connection was idle |
| `ConnectionManager.RemoveKeepsSorted` | source/connection_manager.c:1467-1478 | removal anywhere keeps the list sorted and invents nothing |
| `ConnectionManagerRuns.AnswerOk` | source/connection_manager.c:1155-1534 | every critical section that the environment may enter is allowed by the counters, keeps all bounds and returns a well-formed transaction |
| `ConnectionManagerRuns.AnswerTakes` | source/connection_manager.c:1155-1534 | every critical section takes acquisitions from the front of the queue in order |
| `ConnectionManagerRuns.StepKeeps` | source/connection_manager.c:1040-1153 | every step of manager, executed transactions and environment keeps the whole invariant, finds every counter it asserts (also 614-617, that the pool is within its maximum), and has a reference to give up |
| `ConnectionManagerRuns.StepKeepsTimes` | source/connection_manager.c:1189-1216 | push at the back, pop at the back and removal anywhere keep the idle list sorted, with a monotone clock |
| `ConnectionManagerRuns.RunInv` | source/connection_manager.c:577-661 | the invariant holds at every point of every run |
| `ConnectionManagerRuns.NeverStrands` | source/connection_manager.c:577-661 | at every unlock of every run the pool is within its maximum, and while ready a waiting acquisition means no idle connection and either enough connects under way or a full pool |
| `ConnectionManagerRuns.TransactionsWhole` | source/connection_manager.c:425-470 | in every run every live transaction holds at most one success and nothing beside it, so its dispatch is complete |
| `ConnectionManagerRuns.DispatchedOnce` | source/connection_manager.c:1040-1153 | in every run an acquisition is in exactly one of queue, transaction and dispatched, and is dispatched exactly once when nothing is left to do |
| `ConnectionManagerRuns.SafeDestruction` | source/connection_manager.c:552-575 | in every run the count equals what it accounts for, and when it is zero everything asserted before destruction (674-687) holds and nothing can happen any more |
| `ConnectionManagerRuns.NeverZeroUnderLock` | source/connection_manager.c:552-575 | in every run, at no point of a critical section is the count of references zero, after any of the releases and acquisitions before and after the transaction is built |
| `ConnectionManagerRuns.CullingIsExact` | source/connection_manager.c:1487-1534 | in every run culling releases exactly the expired idle connections, oldest first |
| `ConnectionManagerRuns.RunNeverAborts` | source/connection_manager.c:614-617 | in every run every step that may come finds what it asserts, so that there is a state after it |
| `ConnectionPool.Pool.constructor` | source/connection_manager.c:791-911 | a new manager is ready with one external reference, and one for the cull task if there is one |
| `ConnectionPool.Pool.MoveFront` | source/connection_manager.c:482-508 | the oldest waiting acquisition moves to the list, with its connection or as a failure |
| `ConnectionPool.Pool.FailExcess` | source/connection_manager.c:510-530 | the loop meets its specification |
| `ConnectionPool.Pool.VendNewest` | source/connection_manager.c:584-607 | the newest idle connection goes to the oldest acquisition, and is counted as vended and referenced |
| `ConnectionPool.Pool.VendIdle` | source/connection_manager.c:584-607 | the loop pairs acquisitions, oldest first, with idle connections, newest first |
| `ConnectionPool.Pool.BuildTransaction` | source/connection_manager.c:577-661 | for a pool within its maximum, as 614-617 asserts, the new state and the transaction are those for which the invariants and, in `ConnectionCustody`, the conservation of connections are proved |
| `ConnectionPool.Pool.RemoveIdle` | source/connection_manager.c:1295-1306 | the scan removes the connection if it is idle, and keeps the order of the others |
| `ConnectionPool.Pool.Acquire` | source/connection_manager.c:1155-1187 | new state and transaction of an acquisition, as in the runs |
| `ConnectionPool.Pool.ReleaseReference` | source/connection_manager.c:920-958 | new state and transaction when an external reference is released, as in the runs |
| `ConnectionPool.Pool.Release` | source/connection_manager.c:1218-1268 | new state and transaction of a release, as in the runs; refused exactly when nothing is vended |
| `ConnectionPool.Pool.OnGoaway` | source/connection_manager.c:1270-1313 | new state and transaction of a GOAWAY, as in the runs |
| `ConnectionPool.Pool.OnReadyOrFailed` | source/connection_manager.c:1315-1351 | new state and transaction of the shared tail of setup and settings, as in the runs |
| `ConnectionPool.Pool.OnSetup` | source/connection_manager.c:1383-1440 | new state and transaction of a setup, for each of its results, as in the runs |
| `ConnectionPool.Pool.OnSettings` | source/connection_manager.c:1353-1381 | new state and transaction of the first settings, as in the runs |
| `ConnectionPool.Pool.OnShutdown` | source/connection_manager.c:1442-1485 | new state and transaction of a shutdown, as in the runs |
| `ConnectionPool.Pool.CullIdle` | source/connection_manager.c:1487-1534 | the loop with its early stop releases what the specification culls |
| `ConnectionPool.Pool.RetakeLock` | source/connection_manager.c:1105-1140 | taking the lock again for failed connects fails the acquisitions that can no longer be served |
| `ConnectionPool.CompleteAcquisitions` | source/connection_manager.c:425-470 | the dispatch loop, with its early return, dispatches and leaves what the specification says |
| `ConnectionCustody.BuildConserves` | source/connection_manager.c:577-661 | building a transaction loses and repeats no connection: those idle before are those idle after, those in its completions and those it releases, each once; when the manager shuts down, all idle ones are released |
| `ConnectionCustody.AnswerConserves` | source/connection_manager.c:1155-1534 | the same for every critical section there is: setup, release, GOAWAY, settings, culling, shutdown, with the connection that it brings or takes back |
| `ConnectionCustody.StepKeepsCustody` | source/connection_manager.c:425-470 | every step, the execution of a transaction included, keeps each connection in one place |
| `ConnectionCustody.InOnePlace` | source/connection_manager.c:577-661 | in every run, every connection ever set up is in exactly one place: awaiting its settings, idle, on its way in a transaction, lent to a user, or released |
| `ConnectionCustody.AllReleasedOnce` | source/connection_manager.c:632-661 | in every run a connection is released at most once, never while idle or lent, and exactly once when a manager that shuts down has it neither lent nor on its way; when the count is zero, every connection was released exactly once |
| `StreamPlacement.ChoiceIsCandidate` | source/http2_stream_manager.c:134-244 | the connection chosen may take another stream, whichever two were drawn |
| `StreamPlacement.PlaceKeeps` | source/http2_stream_manager.c:150-244 | a placement keeps limits, set membership and the count of streams, and adds one stream to the chosen connection |
| `StreamPlacement.PlaceAllKeeps` | source/http2_stream_manager.c:342-396 | placing until nothing is pending or no connection can take more keeps all of that and stops only then |
| `StreamPlacement.PlaceAllTakesFront` | source/http2_stream_manager.c:342-396 | acquisitions leave the queue from the front in order, none lost |
| `StreamPlacement.CeilFits` | source/http2_stream_manager.c:301-331 | the rounded quotient is the least number of connections that carries the pending acquisitions |
| `StreamPlacement.AskSuffices` | source/http2_stream_manager.c:301-331 | after asking, nothing is stranded and the maximum is kept |
| `StreamPlacement.AskNothing` | source/http2_stream_manager.c:301-331 | nothing is asked for when nothing was stranded and no more is pending |
| `StreamPlacement.BuildPlaces` | source/http2_stream_manager.c:342-396 | building a transaction keeps placement exact, loses no stream and strands nothing while ready |
| `StreamPlacement.BuildUsesFresh` | source/http2_stream_manager.c:567-638 | a connection that arrives when no other is ideal gets a stream in the same critical section if anything is pending |
| `StreamManagerRuns.FirstCheckAsksNothing` | source/http2_stream_manager.c:762-797 | when a stream finishes, the first check for new connections asks for none |
| `StreamManagerRuns.StepKeeps` | source/http2_stream_manager.c:924-986 | every step of manager, scheduled jobs, callbacks and executed transactions keeps the whole invariant and finds the counters it lowers above zero |
| `StreamManagerRuns.RunInv` | source/http2_stream_manager.c:342-396 | the invariant holds at every point of every run |
| `StreamManagerRuns.NeverStrands` | source/http2_stream_manager.c:301-396 | at every unlock of every run, while ready, a pending acquisition means no ideal connection, no non-ideal one if no more may be held, and either enough connections on their way or the maximum reached |
| `StreamManagerRuns.SecondCheckOverwritesNothing` | source/http2_stream_manager.c:762-797 | in every run the second check for new connections overwrites a zero |
| `StreamManagerRuns.PlacementIsExact` | source/http2_stream_manager.c:706-760 | in every run a held connection has a stream, and no more than its limit exactly when that is not zero; an available one is in the set its load says; loads add up to open streams and pending requests |
| `StreamManagerShutdown.SafeDestruction` | source/http2_stream_manager.c:1019-1032 | in every run the count equals what it accounts for; when it is zero, both sets are empty, no connection is held, and only the finishing job can still run |
| `StreamManagerShutdown.RunEnding` | source/http2_stream_manager.c:272-298 | at every point of every run destruction has begun once for a dip, once if the count is zero now, and once more for a finishing job that outlived the count and has run; after a dip no request is left, and while an outliving job is still to run the count stays zero |
| `StreamManagerShutdown.DestroyedOnceExactly` | source/http2_stream_manager.c:1019-1032 | in every run destruction begins a second time only if the count dipped or the finishing job outlived it; at the end of a run it began once for the end, once for a dip and once for an outliving job, so exactly once if and only if neither happened |
| `StreamManagerShutdown.FlagsAreHistory` | source/http2_stream_manager.c:819-844 | these two are recorded exactly if some request job found one reference, and if at some point the count was zero with the finishing job to run |
| `StreamManagerShutdown.ReleasedBefore` | source/http2_stream_manager.c:1034-1051 | a manager that shuts down was released at a point of the run, after which nothing is pending if nothing was, and nothing on its way if nothing was |
| `StreamManagerShutdown.OutlivedOnlyIf` | source/http2_stream_manager.c:272-298 | in every run, if the count is zero with the finishing job to run, the last reference was released with an acquisition pending and a connection on its way |
| `StreamManagerShutdown.OutlivedIf` | source/http2_stream_manager.c:272-298 | every run that reaches such a point, with any settings, goes on to one in which the count is zero with the finishing job to run |
| `StreamManagerShutdown.RunOut` | source/http2_stream_manager.c:567-638 | from every such state after the release, failing the connections on their way and running all other work empties the count |
| `StreamManagerRuns.AnsweredOnce` | source/http2_stream_manager.c:924-986 | in every run each acquisition is in exactly one place on its way to its one callback |
| `StreamManagerShutdown.ExchangeDips` | source/http2_stream_manager.c:836-839 | between giving up one count and taking the other the references are zero exactly when the manager is shutting down and this request is all that is left |
| `StreamManagerShutdown.DipIsReachable` | source/http2_stream_manager.c:836-839 | a run in which the dip happens |
| `StreamManagerShutdown.TaskOutlivesCount` | source/http2_stream_manager.c:272-298 | a run in which the count is zero while the finishing job is still scheduled |
| `StreamManagerAsserts.SectionBuildsPrepared` | source/http2_stream_manager.c:342-396 | every critical section places streams from a state that the placement loop may start from |
| `StreamManagerAsserts.SectionAssertsHold` | source/http2_stream_manager.c:242 | in every critical section the assertions on the sets and counters (242 and 756-758) hold at each placement and at each move between sets |
| `StreamManagerAsserts.RequestAsserts` | source/http2_stream_manager.c:840-842 | the assertions met by a request job hold exactly when the connection's limit is not zero and the count does not dip while the connection is in a set, which destruction asserts empty |
| `StreamManagerAsserts.CloseAsserts` | source/http2_stream_manager.c:97-132 | the assertions met when a transaction ends hold exactly unless it takes away the last count after a request job's dip, or after the counts were gone before the finishing job ran |
| `StreamManagerAsserts.AssertedExactly` | source/http2_stream_manager.c:1019-1032 | at every point of every run and for every step that may come, the assertions of the source hold if and only if: a request job's connection has a limit of at least 1 and the count does not dip with it in a set, and a transaction that takes away the last count ends when no request job has made the count dip before and the counts were never gone with the finishing job still to come |
| `StreamManagerAsserts.OverloadIsReachable` | source/http2_stream_manager.c:840-842 | a run that holds a connection of limit 0 and in which the request job's assertion is false |
| `StreamPool.Pool.constructor` | source/http2_stream_manager.c:1053-1163 | a new manager is ready and empty, with zero limits read as unlimited |
| `StreamPool.Pool.AssignFromIdeal` | source/http2_stream_manager.c:156-202 | one more stream on an ideal connection, which changes its set when it has to |
| `StreamPool.Pool.AssignFromNonideal` | source/http2_stream_manager.c:203-241 | one more stream on a non-ideal connection, which leaves the set when it is full |
| `StreamPool.Pool.TryAssign` | source/http2_stream_manager.c:150-244 | finds a connection exactly when one may take a stream, and it is the less loaded of two drawn (`StreamManagerExact.ChosenIsLeastLoaded`) |
| `StreamPool.Pool.AssignPending` | source/http2_stream_manager.c:346-368 | the loop meets its specification |
| `StreamPool.Pool.CheckNewConnections` | source/http2_stream_manager.c:301-331 | asks for the number for which nothing is stranded |
| `StreamPool.Pool.BuildTransaction` | source/http2_stream_manager.c:342-396 | the new state and the transaction are those for which the invariants are proved |
| `StreamPool.Pool.Acquire` | source/http2_stream_manager.c:1179-1206 | new state and transaction of an acquisition, as in the runs |
| `StreamPool.Pool.ReleaseLast` | source/http2_stream_manager.c:1034-1051 | new state and transaction when the last external reference goes, as in the runs |
| `StreamPool.Pool.RunFinishTask` | source/http2_stream_manager.c:272-298 | the shutdown task fails all that is pending, as in the runs |
| `StreamPool.Pool.TakeUnfit` | source/http2_stream_manager.c:547-565 | fails the oldest acquisitions that the connections still on their way cannot carry; `StreamManagerExact.AnsweredExactly` has the exact set in every run |
| `StreamPool.Pool.OnConnectionAcquired` | source/http2_stream_manager.c:567-638 | new state and transaction when a connection arrives, is refused or fails, as in the runs |
| `StreamPool.Pool.HoldConnection` | source/http2_stream_manager.c:502-531 | a connection is held as ideal, limited by both ends |
| `StreamPool.Pool.UpdateSets` | source/http2_stream_manager.c:706-760 | a connection that lost a stream moves to the set it now belongs to |
| `StreamPool.Pool.LoseStream` | source/http2_stream_manager.c:706-760 | one stream less, and out of both sets if no longer available |
| `StreamPool.Pool.ReleaseConnection` | source/http2_stream_manager.c:762-797 | giving back a connection without streams, and asking again, as in the runs |
| `StreamPool.Pool.OnStreamFinished` | source/http2_stream_manager.c:762-797 | new state and transaction when a stream finishes, as in the runs |
| `StreamPool.Pool.RunRequestTask` | source/http2_stream_manager.c:819-844 | the exchange of counts in the request job's critical section, whether the count is zero in between, and whether the assertion on the limit holds |
| `StreamManagerExact.ChosenIsLeastLoaded` | source/http2_stream_manager.c:134-244 | the connection that gets a stream is one of the two drawn from the ideal ones, or from the others if there is no ideal one and no more connections may be had, and it is the one with fewer streams, the first if they have the same |
| `StreamManagerExact.AnsweredExactly` | source/http2_stream_manager.c:547-638 | in every run, a failed connection fails exactly the oldest pending acquisitions beyond what the connections still on their way can carry, in order and no others; an acquired one fails none |
| `StreamManagerExact.AskedExactly` | source/http2_stream_manager.c:301-340 | in every run, every critical section leaves as many connections on their way as the pending acquisitions need, and no more than that, up to the maximum |
| `StreamManagerExact.HeldExactly` | source/http2_stream_manager.c:706-797 | in every run, a connection is held exactly if a stream is open on it or about to be |
| `StreamManagerExact.GivenBackExactly` | source/http2_stream_manager.c:706-797 | in every run, the end of a stream gives its connection back exactly if the manager stops holding it, and touches no other connection |
| `StreamManagerExact.LimitIsHistory` | source/http2_stream_manager.c:502-531 | in every run, the limit of a held connection is the smaller of the configured one and the one its peer had announced when it was acquired |
| `StreamManagerExact.ZeroLimitOnce` | source/http2_stream_manager.c:706-797 | in every run, a connection whose limit is zero gets no second stream: it is given back at the end of its first |
| `FlowCredit.SendSome` | source/h2_frames.c:359-442 | sending DATA within both windows keeps the direction balanced |
| `FlowCredit.DataFits` | source/h2_connection.c:1205-1263 | in a balanced direction, arriving DATA fits both of the receiver's windows |
| `FlowCredit.TakeData` | source/h2_stream.c:1039-1119 | crediting received bytes again keeps the direction balanced, whether the stream goes on, ends or is closed |
| `FlowCredit.TakeConnCredit` | source/h2_connection.c:1561-1588 | connection credit never lifts the window above the maximum and keeps the balance |
| `FlowCredit.TakeStreamCredit` | source/h2_stream.c:1138-1167 | stream credit never lifts the window above the maximum and keeps the balance |
| `FlowCredit.TakeSettings` | source/h2_connection.c:1391-1478 | applying new initial sizes on receipt, with the acknowledgement sent, keeps the balance |
| `FlowCredit.TakeAck` | source/h2_connection.c:1480-1559 | an acknowledgement always finds announced settings, and applying them then keeps the balance |
| `FlowCredit.Announce` | source/h2_connection.c:2251-2308 | announcing settings that are not yet applied keeps the balance |
| `FlowBalance.ApplyPeerViews` | source/h2_connection.c:1430-1456 | in a balanced state no valid size makes a stream's send window exceed the maximum, and relative windows stay |
| `FlowBalance.ApplySelfViews` | source/h2_connection.c:1480-1559 | the same for receive windows |
| `FlowBalance.ActKeeps` | source/h2_connection.c:1189-1617 | whatever an endpoint does next, with a frame on a stream it has not forgotten: no connection error, no reset for flow control, and both directions stay balanced |
| `FlowOrder.SendOrderly` | source/h2_stream.c:85-200 | on a channel, a stream's frames stay in order when another is sent: nothing but a reset after its end, nothing after its reset |
| `FlowOrder.TakeOrderly` | source/h2_connection.c:930-1072 | they stay so when the first is taken, and what its receiver has recorded of the stream is what it has been sent |
| `FlowConduct.ActOrder` | source/h2_connection.c:930-1072 | whatever an endpoint does next, the frames of every stream stay in order on both channels, so that no frame finds its stream ended by its sender |
| `FlowConduct.ActKept` | source/h2_connection.c:1820-1868 | whatever it does, the streams it remembers as closed are closed ones, none twice, no more than the cache holds, and all of them until the cache is full |
| `FlowConduct.ForgotAfterMany` | source/h2_connection.c:364-371 | a closed stream is forgotten only after more streams were closed than can be remembered |
| `FlowRuns.LinkedKeeps` | source/h2_connection.c:930-1072 | whatever one end of a pair does next: PROTOCOL_ERROR exactly on a frame of a stream that it closed and forgot, and else balance and order are kept |
| `FlowRuns.StepKeeps` | source/h2_connection.c:1189-1617 | the same for either end of the pair |
| `FlowRuns.RunInv` | source/h2_connection.c:1708-1771 | both directions are balanced at every point of every run of two endpoints over two channels |
| `FlowRuns.NoFlowControlErrors` | source/h2_connection.c:930-1072 | in no run does either end raise a flow-control or stream-closed error or reset a stream for one; a connection error is raised if and only if a frame arrives on a stream that was closed and forgotten, and it is PROTOCOL_ERROR, after more streams were closed than are remembered |
| `FlowRuns.ForgettingIsReachable` | source/h2_connection.c:364-371 | with a client that remembers one closed stream and any server: a run after which the DATA under way is a connection error |
| `FlowRuns.CreditIsConserved` | source/h2_connection.c:1189-1203 | at every point of every run, sender's window plus DATA and WINDOW_UPDATE under way is the receiver's credit, per connection and stream, and every window is in range |
| `FlowRuns.PayloadFits` | source/h2_frames.c:359-442 | a DATA payload fits the buffer and both windows and leaves neither negative |
| `FlowRuns.WindowByHistory` | source/h2_stream.c:644-657 | over every run of a pair a stream's relative window is the increments accepted less the bytes sent; `FlowEndpoint.RelativeWindow` has it for any peer |
| `FlowRuns.WindowIsHistory` | source/h2_stream.c:722-726 | the same for both ends of a pair: at every point of every run an active stream's send window is the current initial setting plus increments accepted less bytes sent |
| `FlowEndpoint.StepKeeps` | source/h2_connection.c:1189-1617 | whatever one endpoint sends or receives next, from any peer: unless it raises an error, its windows stay in bounds |
| `FlowEndpoint.RunInBounds` | source/h2_connection.c:1189-1617 | the bounds, and the record of closed streams, hold at every point of every run of one endpoint with any peer |
| `FlowEndpoint.RelativeWindow` | source/h2_stream.c:644-657 | with any peer, a stream's window relative to the initial setting is the increments accepted less the bytes sent |
| `FlowEndpoint.WindowsAreInRange` | source/h2_stream.c:722-726 | with any peer, at every point of every run without an error: 0 to 2^31-1 for the connection, and every active stream's send window is the initial setting plus increments accepted less bytes sent, between -(2^31-1) and 2^31-1 |
| `FlowEndpoint.SumsNeverOverflow` | source/h2_connection.c:1430-1449 | with any peer, no sum formed for any frame that can be encoded, DATA, credit, settings or the acknowledgement of the end's own, leaves the 32 bits, signed or unsigned, in which the source forms it |
| `FlowEndpoint.RefusedExactly` | source/h2_connection.c:930-1072 | with any peer, exactly which frames raise which connection error. FLOW_CONTROL_ERROR: DATA longer than the connection's receive window, which is always back at its maximum, a connection increment above the maximum, a setting that lifts some stream above it. STREAM_CLOSED: DATA or HEADERS on a stream that both sides have ended. PROTOCOL_ERROR: DATA, an update or a reset on a stream never opened or forgotten, HEADERS on one unless they open it at a server, a connection increment of zero, an acknowledgement of nothing |
| `FlowEndpoint.EndsAreHistory` | source/h2_stream.c:859-870 | with any peer, a stream is taken as ended by a side only if a turn of the run ended it there, and as ended by both only if both are |
| `FlowEndpoint.ApplySelfKeeps` | source/h2_connection.c:1480-1559 | the endpoint's own announced sizes, once acknowledged, never fail to apply, whatever the peer did |
| `FlowEndpoint.SettingsRefused` | source/h2_connection.c:1391-1478 | a list of initial sizes is refused exactly if one of them lifts a stream above the maximum, although they apply one after the other |
| `FlowWindows.Windows.constructor` | source/h2_connection.c:1755-1765 | nothing is closed yet; the connection's receive window is raised to the maximum at once, and the peer told |
| `FlowWindows.Windows.Activate` | source/h2_stream.c:694-757 | a new stream starts with the current initial sizes |
| `FlowWindows.Windows.ResetAndClose` | source/h2_stream.c:614-642 | the stream is reset and closed, which is recorded |
| `FlowWindows.Windows.Close` | source/h2_connection.c:1820-1868 | a closed stream is recorded with how it was closed, and the oldest record is dropped when there are too many |
| `FlowWindows.Windows.FindActive` | source/h2_connection.c:930-1072 | what a frame finds: an active stream, one that was closed and how, with the answer this calls for, or an error |
| `FlowWindows.Windows.OnEndStream` | source/h2_stream.c:1169-1230 | the end of a stream, in order or out of it, as in the runs |
| `FlowWindows.Windows.OnHeadersFrame` | source/h2_connection.c:1075-1095 | HEADERS on a stream in any state, as in the runs |
| `FlowWindows.Windows.OnResetFrame` | source/h2_connection.c:1305-1325 | RST_STREAM on a stream in any state, as in the runs |
| `FlowWindows.Windows.EncodeData` | source/h2_frames.c:314-456 | a frame is written exactly when there is space and something to say, with all that is available or all that fits, and ends the stream exactly when the body is all sent |
| `FlowWindows.Windows.Announce` | source/h2_connection.c:2251-2308 | settings are sent and wait for their acknowledgement |
| `FlowWindows.Windows.OnStreamDataBegin` | source/h2_stream.c:1039-1119 | checks, debits and credits of a stream on DATA, as in the runs |
| `FlowWindows.Windows.OnDataFrame` | source/h2_connection.c:1205-1263 | checks, debits and credits of the connection on DATA for a stream that is active, closed in any way or not found, as in the runs |
| `FlowWindows.Windows.OnConnectionUpdate` | source/h2_connection.c:1561-1588 | connection credit with its two errors, as in the runs |
| `FlowWindows.Windows.OnUpdate` | source/h2_stream.c:1138-1167 | stream credit with its two errors, as in the runs; resumption is signalled exactly when the window passes the minimum |
| `FlowWindows.Windows.ShiftPeerWindows` | source/h2_connection.c:1430-1449 | every stream's send window is shifted, or the loop stops, exactly when some window would exceed the maximum, and then each is as it was or shifted within the maximum |
| `FlowWindows.Windows.ShiftSelfWindows` | source/h2_connection.c:1506-1525 | the same for receive windows |
| `FlowWindows.Windows.OnSettingsFrame` | source/h2_connection.c:1391-1478 | all sizes of a frame apply in order and it is acknowledged, as in the runs |
| `FlowWindows.Windows.OnAcknowledgement` | source/h2_connection.c:1480-1559 | the oldest announced settings apply; one that was never asked for is an error |
| `FlowAnswers.ResetsExactly` | source/h2_connection.c:937-1072 | whatever arrives on whatever stream, it is answered by RST_STREAM with a code if and only if the state of the stream and the frame call for that code |
| `FlowAnswers.AnsweredEachTime` | source/h2_connection.c:1000-1072 | after the peer reset a stream, each callback of a further frame is answered by one RST_STREAM and nothing else changes |
| `FlowAnswers.CreditExactly` | source/h2_connection.c:1205-1263 | for every arriving frame, which window updates and settings it is answered by, and how often: the connection gets back what DATA used, also of streams that do not take it; the stream gets back what it used unless DATA was its last |
| `FlowAnswers.StreamExactly` | source/h2_stream.c:1039-1167 | what a frame does to the stream it is for: reset, closed by both ends, or its windows moved by the frame, and nothing of any other stream |
| `FlowAnswers.OthersStay` | source/h2_connection.c:937-1072 | a frame for a stream that is not open changes nothing, except that HEADERS opens one at a server |
| `FlowAnswers.ActCloses` | source/h2_connection.c:1813-1868 | no action closes more than one stream; what is closed stays so |
| `FlowAnswers.RecentIsLast` | source/h2_connection.c:1837-1850 | in every run, the closed streams that are remembered are the last to be closed, in order, as many as the cache holds |
| `FlowAnswers.RoomExactly` | source/h2_connection.c:659-664 | DATA is sent exactly if both windows have room for more than 256 bytes, so no frame is smaller for want of window |
| `WireOrder.PassedFrames` | source/h2_connection.c:583-607 | a high-priority frame goes behind the frame in progress and all high-priority frames, and before the first other |
| `WireOrder.EnqueueWaiting` | source/h2_connection.c:583-607 | a new frame joins the waiting ones exactly behind those it may not pass, and the frame in progress stays in front |
| `WireOrder.EnqueueKeeps` | source/h2_connection.c:583-607 | queueing a frame keeps the order of queue, wire and encoding |
| `WireOrder.AttemptKeeps` | source/h2_connection.c:760-807 | an attempt at the head of the queue, finished or not, keeps it |
| `WireOrder.DataKeeps` | source/h2_connection.c:830-895 | DATA in a round that began with an empty queue keeps it, also if frames were queued since |
| `WireRuns.StepKeeps` | source/h2_connection.c:649-757 | queueing, activation, writing, rounds of DATA and resets in them keep order, streams and round together |
| `WireRuns.RunInv` | source/h2_connection.c:649-757 | this holds at every point of every run |
| `WireRuns.QueueShape` | source/h2_connection.c:583-607 | in every run the queue is an optional frame in progress, then high-priority frames, then normal ones, each class first in, first out |
| `WireRuns.NeverPreempted` | source/h2_frames.c:1186-1223 | in every run the encoder is never asked for another frame while one is in progress, nor for DATA (710-721 of h2_connection.c) |
| `WireRuns.WireIsOrdered` | source/h2_connection.c:760-807 | in every run the pieces of a frame are contiguous, frames of one priority are in order, and DATA comes after everything queued before its round began |
| `WireRuns.DataBehindQueue` | source/h2_connection.c:710-721 | whenever DATA is written in a run, the queue holds exactly the frames queued since its round began, so it is empty if and only if there are none |
| `WireRuns.BehindAllUnlessOvertaken` | source/h2_connection.c:809-918 | in every run, each DATA on the wire comes after all that was queued before it if and only if no frame that is on the wire was queued, by a Queue or Reset event, between the beginning of a round and DATA of that round |
| `WireRuns.OvertakingIsReachable` | source/h2_stream.c:798-806 | from every start, a run in which a failing body queues RST_STREAM and DATA of another stream then precedes it on the wire |
| `WireRuns.HeadersAreComplete` | source/h2_stream.c:694-758 | whenever DATA is written in a run, its stream's HEADERS were encoded whole and none of them is queued or in progress |
| `WireRuns.StreamOrder` | source/h2_stream.c:760-857 | on the wire of every run, for every stream: all pieces of its HEADERS before its DATA, all of its DATA and HEADERS before its RST_STREAM, and one HEADERS frame only |
| `WireRuns.HpackOrderIsWireOrder` | source/h2_frames.c:743-781 | in every run frames are on the wire in the order in which their encoding, and with it HPACK, began, each once |
| `OutgoingFrames.DrainKeeps` | source/h2_connection.c:760-807 | the write loop keeps the order, is never refused by the encoder, and stops with nothing queued or a frame in progress; it complains of too small a message exactly if frames are left and nothing was written |
| `OutgoingFrames.DrainIsRun` | source/h2_connection.c:760-807 | the write loop takes the sender where steps of a run could |
| `OutgoingFrames.TurnKeeps` | source/h2_connection.c:830-895 | one turn of the DATA loop, whether the stream sends, stalls, waits, ends or fails, keeps the sender and the lists of streams in order |
| `OutgoingFrames.TurnsKeep` | source/h2_connection.c:830-895 | so does the loop, for any outcome of each turn |
| `OutgoingFrames.RoundKeeps` | source/h2_connection.c:809-918 | a whole round leaves the sender in order, every sending stream in exactly one list and none put by; `OutgoingTurns.RoundRobin` says in which |
| `OutgoingFrames.FrameWriter.Insert` | source/h2_connection.c:583-607 | the insertion loop puts the frame where the specification does |
| `OutgoingFrames.FrameWriter.FindSlot` | source/h2_connection.c:583-607 | the search stops behind the frame in progress and the high-priority frames |
| `OutgoingFrames.FrameWriter.Add` | source/h2_connection.c:583-607 | a queued control frame keeps everything in order |
| `OutgoingFrames.FrameWriter.ActivateStream` | source/h2_connection.c:1872-1928 | activation queues the stream's HEADERS and, if it has a body, puts it in the list that its state says |
| `OutgoingFrames.FrameWriter.EncodeHead` | source/h2_connection.c:760-807 | one attempt at the head of the queue, finished or still in progress |
| `OutgoingFrames.FrameWriter.EncodeQueue` | source/h2_connection.c:760-807 | the loop over the queue meets its specification and is never refused by the encoder |
| `OutgoingFrames.FrameWriter.EncodeFromFront` | source/h2_connection.c:830-895 | the first stream of the list takes its turn and moves to the list its result says |
| `OutgoingFrames.FrameWriter.EncodeData` | source/h2_connection.c:809-918 | a round of DATA takes the sender and all four lists where the specification does, of which `OutgoingTurns.RoundRobin` says where each stream is afterwards |
| `OutgoingFrames.FrameWriter.WriteMessage` | source/h2_connection.c:649-757 | one buffer: the queue first, then a round of DATA exactly if that left it empty and there is a stream and window for it |
| `OutgoingFrames.DropKeepsLists` | source/h2_connection.c:1773-1794 | a stream that completes, with or without a reset, is taken off whichever list it is in; every other sending stream stays in exactly one |
| `OutgoingFrames.ResumeKeepsLists` | source/h2_stream.c:381-386 | a stream that has data or window again moves to the end of the ready list, from whichever list it was in, and stays in exactly one |
| `OutgoingFrames.FrameWriter.DropStream` | source/h2_connection.c:1773-1794 | removal from the lists meets its specification and keeps everything in order |
| `OutgoingFrames.FrameWriter.ResetAndDrop` | source/h2_stream.c:614-642 | a reset of a stream queues RST_STREAM and removes the stream from its list |
| `OutgoingFrames.FrameWriter.Resume` | source/h2_connection.c:1592-1613 | a stream set free moves to the end of the ready list |
| `OutgoingTurns.TurnsTaken` | source/h2_connection.c:830-895 | which streams take the turns of the DATA loop, for any outcomes: the ready list is a queue to whose end come back the streams that can send more |
| `OutgoingTurns.RoundRobin` | source/h2_connection.c:809-918 | a whole round, for any outcomes of its turns: streams take turns in the order of the ready list; it ends exactly when the turns or the streams are used up; afterwards every stream is where its last turn left it, those put by behind the others in the ready list, and none is lost; DATA on the wire is of the streams that wrote, in turn |
| `H2Fields.WholeExactly` | source/h2_decoder.c:1241-1414 | a block is found malformed exactly when its list breaks a rule (pseudo-headers known, on the right side, none twice, first; a status of three digits; trailers and informational responses as they may end a stream; lower-case names, none connection-specific, no content length where forbidden); otherwise it delivers pseudo-headers in their order, other fields in their own, and cookies joined as one |
| `H2Fields.DeliveredAsGiven` | source/h2_decoder.c:1128-1236 | a well-formed list is delivered as it was given exactly when its pseudo-headers are in the fixed order and it has no cookie but one that is not empty, at its end |
| `H2Fields.ProcessConcat` | source/h2_decoder.c:1241-1391 | processing a list in two parts is processing the whole |
| `H2Fields.ProcessKeepsKind` | source/h2_decoder.c:1241-1391 | what is delivered is delivered as of one type of block, and nothing is after a block is found malformed |
| `H2Decoder.StepOk` | source/h2_decoder.c:372-451 | every state leaves a valid decoder and uses input or moves down a fixed order of states, so decoding terminates |
| `H2Decoder.StepSplit` | source/h2_decoder.c:457-515 | a state given its input in two parts does what it does with the whole, whether it waits, streams or is run from the scratch space |
| `H2Decoder.DecodeSplit` | source/h2_decoder.c:372-451 | a call on two inputs joined is a call on the first followed by a call on the second, with the callbacks for header fields as the block delivers them |
| `H2Decoder.SplitInvariance` | source/h2_decoder.c:372-451 | for every byte stream and every division into buffers: same callbacks, also for header fields (1128-1414), same first error, same final state as one undivided call |
| `H2Frames.PrefixRoundTrip` | source/h2_frames.c:248-283 | length, type, flags and stream of every frame prefix are read back |
| `H2Frames.PriorityRoundTrip` | source/h2_frames.c:912-938 | a PRIORITY frame is accepted and reports nothing |
| `H2Frames.SimpleRoundTrip` | source/h2_frames.c:945-975 | RST_STREAM, PING and WINDOW_UPDATE frames are read back |
| `H2Frames.AckRoundTrip` | source/h2_frames.c:982-1036 | a SETTINGS acknowledgement is reported and the limits announced for it apply from then on |
| `H2Frames.SettingsRoundTrip` | source/h2_frames.c:982-1036 | SETTINGS of any number of valid values are read back in order |
| `H2Frames.GoawayRoundTrip` | source/h2_frames.c:1079-1131 | GOAWAY with any debug data is read back |
| `H2Frames.DataRoundTrip` | source/h2_frames.c:314-456 | DATA with any padding is read back, with its whole body and its end |
| `H2Frames.FlagsExactly` | source/h2_frames.c:248-283 | every frame carries the flags it should and no others |
| `H2Frames.PriorityForm` | source/h2_frames.c:204-232 | a priority block holds the dependency in 31 bits, whether it is exclusive in the bit before, and the weight |
| `H2Frames.FrameRoundTrip` | source/h2_decoder.c:570-1110 | every frame within bounds is reported as it was given and leaves the decoder ready for the next |
| `H2Headers.FragmentLenFits` | source/h2_frames.c:181-197 | a fragment fits the buffer and the frame size, and is never empty unless it is the last |
| `H2Headers.FragmentExactly` | source/h2_frames.c:604-675 | for any space, frame size and rest of a block: a frame is written exactly if it fits at all and either ends the block or can carry as many bytes of it as it costs; it then carries all that fits |
| `H2Headers.FragmentsMakeBlock` | source/h2_frames.c:743-781 | for any buffers, the fragments put together with what is left are the block, and no payload exceeds the frame size |
| `H2Headers.AmpleBuffersFinish` | source/h2_frames.c:651-675 | the rule that a frame has to be worth sending never stops a block when buffers are large enough for any first frame |
| `H2Headers.FragmentRuns` | source/h2_decoder.c:1419-1552 | a fragment, wherever its entries are cut, does to the block what the entries HPACK finds in it do, one after the other |
| `H2Headers.FirstFrameRuns` | source/h2_frames.c:604-741 | a HEADERS or PUSH_PROMISE frame with padding and priority is read back, with END_HEADERS where it was set |
| `H2Headers.ContinuationRuns` | source/h2_decoder.c:1105-1111 | a CONTINUATION frame goes on with the block in progress and its fields so far |
| `H2Headers.BlockRoundTrip` | source/h2_decoder.c:1419-1552 | a block divided in any way over its frames is reported as one block, made of the fields of the whole |
| `H2Headers.HeaderListRoundTrip` | source/h2_frames.c:743-781 | for any list and any buffers, once a block is finished, the decoder reports the list as one block of the stream, as `H2Headers.BlockReport` has it, and its table equals the encoder's, also if the list is malformed |
| `H2Headers.HeaderListExactly` | source/h2_decoder.c:936-982 | for any list and any buffers, a finished block is reported so if and only if it is not a promise, or a promise of an even stream to a client that has pushes enabled; else the decoder fails with PROTOCOL_ERROR |
| `H2Headers.BlockUnwelcome` | source/h2_decoder.c:936-982 | a promise of an odd stream, or one to a server or with pushes disabled, is refused, whatever the block holds and however it is divided |
| `H2Headers.ReportedExactly` | source/h2_decoder.c:1128-1414 | a list is marked malformed exactly when it is not well formed, and is reported exactly as it was given if and only if it is well formed, its pseudo-headers are in order and its cookies are at most one, at the end |
| `H2Headers.FieldsReported` | source/h2_decoder.c:1419-1552 | all fields of a block are reported as of the type of block it turns out to be |
| `H2Codec.FrameDecoder.constructor` | source/h2_decoder.c:292-348 | a server waits for the client's greeting unless that is skipped, a client for a frame |
| `H2Codec.FrameDecoder.Collect` | source/h2_decoder.c:404-420 | bytes are added to the scratch buffer behind those it holds, never beyond its size |
| `H2Codec.FrameDecoder.RunDirect` | source/h2_decoder.c:392-402 | a state that finds all it needs in the input does what the specification says |
| `H2Codec.FrameDecoder.RunState` | source/h2_decoder.c:383-444 | one turn of the loop, from the input or from the scratch buffer, is one step of the specification |
| `H2Codec.FrameDecoder.Decode` | source/h2_decoder.c:372-451 | a call reports what the specification reports, header fields as the block delivers them, and ends in its state or with its error; `H2Streams.BytesCome` says what that is for any bytes |
| `H2Codec.HeadersWriter.WriteFrame` | source/h2_frames.c:604-741 | the next frame is written whole with the specified fragment, or nothing is |
| `H2Codec.HeadersWriter.Write` | source/h2_frames.c:743-781 | what is written to a buffer is exactly the frames of the fragments specified for it, and fits |
| `H2Codec.HeadersWriter.WriteAll` | source/h2_frames.c:743-781 | over any sequence of buffers, what is written is exactly the frames of the fragments specified for all of them, and each part fits its buffer |
| `H2Codec.PrebuiltFrame.Write` | source/h2_frames.c:811-907 | what has been written and what is left are always the whole frame; writing stops only for want of space |
| `H2Codec.PrebuiltFrame.WriteAll` | source/h2_frames.c:811-907 | over any sequence of buffers, the parts and what is left are the whole frame, which is complete exactly when the buffers are large enough together |
| `H2Meaning.PrefixIs` | source/h2_decoder.c:570-690 | for every nine bytes in every state, whether a frame is refused at its prefix, and with which error: first frame not SETTINGS, size, stream, and a header block in progress that only CONTINUATION on its stream may follow |
| `H2Meaning.SettingsListComes` | source/h2_decoder.c:866-938 | any list of settings is read as six bytes each, up to the first that is out of range |
| `H2Meaning.FragmentFails` | source/h2_decoder.c:1419-1552 | a fragment in which HPACK, or the end of a block within an entry, fails ends with that error after the fields before it |
| `H2Meaning.FragmentComes` | source/h2_decoder.c:1419-1552 | any fragment of any block, with any padding, comes to the fields that HPACK reads in it, and at its end to a finished block or one in progress |
| `H2Meaning.FrameComes` | source/h2_decoder.c:570-1126 | for every decoder between two frames and every frame, well formed or not, the state machine comes to the meaning of its bytes, which is defined without states: the same callbacks, the same error, the same decoder |
| `H2Streams.StreamComes` | source/h2_decoder.c:372-451 | so for any sequence of frames, up to the first that is refused |
| `H2Streams.BytesCome` | source/h2_decoder.c:372-451 | so for any bytes at all, cut into frames by their length fields, and a rest |
| `H2Streams.OpenInStream` | source/h2_decoder.c:641-645 | after any accepted frames, a header block is in progress, and on which stream, exactly as the types and flags of those frames say |
| `H2Streams.HeaderExactly` | source/h2_decoder.c:570-690 | after any accepted frames, the next is refused at its prefix if and only if its nine bytes, those frames and the largest frame size call for it, with that error and before its payload is read |
| `H2Streams.BlocksAreWhole` | source/h2_decoder.c:641-668 | in any accepted sequence, between a frame that begins a header block and the one that ends it there is nothing but CONTINUATION on the same stream |
| `H2Streams.GreetingComes` | source/h2_decoder.c:1557-1577 | a server takes the connection preface, and refuses any other bytes in its place |
| `H2Exchange.Feed` | source/h2_decoder.c:372-451 | the decoder object given any sequence of parts reports, and ends, as one call on all of them would, or stops at the first error |
| `H2Exchange.FramesArrive` | source/h2_decoder.c:570-1110 | any sequence of frames, arriving in parts of any sizes, is reported frame by frame and leaves the decoder ready |
| `H2Exchange.ExchangeFrame` | source/h2_frames.c:811-907 | from end to end: a frame written to any buffers and read in parts of any sizes is complete exactly when the buffers suffice, and then reported as it was given |
| `H2Exchange.ListArrives` | source/h2_decoder.c:1419-1552 | a finished header block, arriving in parts of any sizes, is reported as the list calls for and leaves equal tables, or is refused if it is a promise that cannot be taken |
| `H2Exchange.SendList` | source/h2_frames.c:743-781 | encoding a list and writing it to any buffers gives the frames of the fragments of its encoding |
| `H2Exchange.ExchangeList` | source/h2_frames.c:743-781 | from end to end: a header list through the encoder's ring buffer, any output buffers and parts of any sizes is reported as the list calls for, and encoder and decoder are in step again, or is refused if it is a promise that cannot be taken; it is complete when there are enough ample buffers; otherwise the decoder is untouched |
| `H1Syntax.TrimmedHoldsNoLineEnd` | source/strutil.c:7-36 | a value that is valid once trimmed holds no line end before either |
| `H1Syntax.HexRoundTrip` | source/h1_encoder.c:469-512 | a chunk size written in hexadecimal is read back, for every 64-bit size |
| `H1Syntax.LineOfPlain` | source/h1_decoder.c:56-89 | a line is found where its CRLF is, with lone CR or LF characters before it excluded |
| `H1Decoder.StepOk` | source/h1_decoder.c:717-737 | every state leaves a valid decoder and uses input if it goes on, so decoding terminates |
| `H1Decoder.DecodeSplit` | source/h1_decoder.c:93-131 | a call on two inputs joined is a call on the first followed by a call on the second, also where CR and LF are parted |
| `H1Decoder.SplitInvariance` | source/h1_decoder.c:717-737 | for every division of the input: same reports, same refusal, same final state |
| `H1Codings.AddedExactly` | source/h1_decoder.c:468-520 | of the lists of transfer codings that the encoder lets through, the decoder takes exactly those whose codings are all known, with no new one after chunked, whatever lists came before |
| `H1Codings.ScanEnds` | source/h1_encoder.c:76-102 | the encoder lets no coding follow chunked, and finds a list chunked exactly if it ends so |
| `H1RoundTrip.HeaderProcessed` | source/h1_decoder.c:344-542 | the decoder's reading of a header line agrees with the encoder's scan of it about length and codings, or refuses it, exactly if it is a length where none may be or lists a coding that cannot be read |
| `H1RoundTrip.HeadersRun` | source/h1_encoder.c:229-247 | every readable header section is read back, values trimmed, and leaves the framing that the encoder found |
| `H1RoundTrip.HeadersFail` | source/h1_decoder.c:405-542 | every other header section that the encoder accepts is refused at its first unreadable line |
| `H1RoundTrip.SizeRoundTrip` | source/h1_encoder.c:469-512 | the size is what the decoder reads from a chunk's first line, whatever its extensions and wherever in them the line ends |
| `H1RoundTrip.ChunksRun` | source/h1_decoder.c:251-342 | any chunks up to the one without data are read back as one whole body |
| `H1RoundTrip.TrailerRuns` | source/h1_encoder.c:514-530 | a trailer is read back, values trimmed |
| `H1RoundTrip.BodyRoundTrip` | source/h1_decoder.c:221-290 | what follows the headers, with a length, in chunks, or nothing, is read back and the decoder is reset |
| `H1RoundTrip.MessageRoundTrip` | source/h1_encoder.c:249-432 | every accepted request and response whose headers are readable and whose chunks' first lines end where they should is read back: start line, headers trimmed, whole body, trailer, and the decoder is ready for the next message |
| `H1RoundTrip.UnreadableFails` | source/h1_decoder.c:405-542 | every accepted message with unreadable headers is refused, whatever follows them |
| `H1RoundTrip.ReadBackExactly` | source/h1_encoder.c:23-157 | an accepted message that is not chunked is read back if and only if no content length but zero stands in a response that has no body, and its transfer codings are known with no new one after chunked; a chunked one is read back if this holds and no line end is in its chunks' extensions, and only if this holds; with unreadable headers every message is refused |
| `H1RoundTrip.HeadRuns` | source/h1_encoder.c:249-432 | start line and readable headers are read back and leave the decoder where the body begins, with the framing that the encoder found |
| `H1Chunks.ChunkExactly` | source/h1_decoder.c:251-342 | a chunk with data has been delivered when it has been sent, and nothing else has happened, if and only if its first line has no line end before its own; lone CR and LF do no harm |
| `H1Chunks.LastExactly` | source/h1_decoder.c:251-342 | the same for the chunk without data, which ends the body |
| `H1Chunks.SteadyExactly` | source/h1_encoder.c:469-558 | an accepted chunked message is delivered chunk by chunk as it is sent if and only if its headers are readable and no chunk's extensions hold a line end |
| `H1Chunks.BrokenIsAccepted` | source/h1_encoder.c:469-512 | a chunked request with CRLF in the value of an extension is accepted by the encoder, and its headers are readable, but the decoder refuses it |
| `H1RoundTrip.OverruledIsAccepted` | source/h1_encoder.c:23-157 | a 204 response with content lengths 5 and then 0 is accepted by the encoder and refused by the decoder |
| `H1RoundTrip.OddlyCodedIsAccepted` | source/h1_encoder.c:76-102 | so is a request with an unknown transfer coding before chunked |
| `H1RoundTrip.DeliveredInAnyParts` | source/h1_decoder.c:717-737 | however the bytes of a message are divided, the message is all that is reported |
| `H1Codec.ScanForCrlf` | source/h1_decoder.c:56-89 | finds the first CRLF of scratch and input together, also when CR is the last byte of the scratch space |
| `H1Codec.MessageDecoder.RunLine` | source/h1_decoder.c:93-131 | a line, collected over any number of calls, is processed as the specification says |
| `H1Codec.MessageDecoder.RunBody` | source/h1_decoder.c:221-290 | body and chunk bytes are passed on up to their length |
| `H1Codec.MessageDecoder.Decode` | source/h1_decoder.c:717-737 | a call stops after at most one message, reported done last and once, and what is left decodes as the next message |
| `H1Codec.MessageEncoder.constructor` | source/h1_encoder.c:249-432 | what is to be written is the whole message |
| `H1Codec.MessageEncoder.Copy` | source/h1_encoder.c:595-606 | as much of a piece as fits, from where the last call stopped |
| `H1Codec.MessageEncoder.RunHead` | source/h1_encoder.c:723-743 | what is written is the front of what remained; it stops only when the buffer is full |
| `H1Codec.MessageEncoder.RunBody` | source/h1_encoder.c:745-759 | what is written is the front of what remained; it stops only for want of space or of body data |
| `H1Codec.MessageEncoder.RunChunkLine` | source/h1_encoder.c:788-806 | what is written is the front of what remained; the chunk without data leads to the trailer |
| `H1Codec.MessageEncoder.RunChunkBody` | source/h1_encoder.c:809-826 | what is written is the front of what remained; it stops only for want of space or of chunk data |
| `H1Codec.MessageEncoder.RunChunkEnd` | source/h1_encoder.c:829-841 | the CRLF after a chunk is written whole or not at all |
| `H1Codec.MessageEncoder.RunTrailer` | source/h1_encoder.c:844-858 | what is written is the front of what remained; a trailer that was set is written in parts, also if it has no fields |
| `H1Codec.MessageEncoder.RunState` | source/h1_encoder.c:708-866 | one state: the front of what remained, and a reason when the state does not change |
| `H1Codec.MessageEncoder.Process` | source/h1_encoder.c:886-906 | for every buffer size and whatever chunks come later, output and what remains are always the whole message; it is done exactly when nothing remains; with body data and chunks at hand a buffer is filled but for at most one byte, and the message is finished if and only if the buffer has room for what remains |
| `H1Codec.MessageEncoder.AddChunk` | source/h1_encoder.c:763-784 | a chunk submitted while writing comes after those submitted before: what remains is what remained with it to come |
| `H1Codec.MessageEncoder.Drive` | source/h1_encoder.c:886-906 | over any sequence of buffers and submitted chunks, the outputs and what remains are what remained at first with all those chunks; it is finished exactly when nothing remains, and always when the buffers after the chunk without data have room |
| `H1Codec.Send` | source/h1_encoder.c:886-906 | over any sequence of buffers and submitted chunks, what is written is a beginning of the message's encoding with all its chunks, complete if and only if it is all of it, and always complete when the buffers after the chunk without data have room |
| `H1Codec.Receive` | source/h1_decoder.c:717-737 | calls that each stop after a message, repeated over a buffer, report what one undivided decoding does |
| `H1Codec.Exchange` | source/h1_encoder.c:886-906 | from end to end: a readable message written to any buffers, with chunks submitted between, and read in parts of any sizes, is reported as it was given once it is complete, which it is when the buffers have room |
| `H1Grammar.TokenChars` | source/strutil.c:45-100 | the characters of a token are the visible ones that are not delimiters |
| `H1Grammar.ContentChars` | source/strutil.c:105-200 | the characters of a field value are the visible ones, space, tab and those above 127 |
| `H1Grammar.TrimmedIs` | source/strutil.c:7-37 | trimming takes off spaces and tabs at both ends, all of them and nothing else |
| `H1Grammar.NumberExactly` | source/h1_decoder.c:292-342 | for every line, a number is parsed exactly if all are digits and it fits 64 bits, and then it is the value of the digits |
| `H1Grammar.RequestExactly` | source/h1_decoder.c:544-614 | a request line is accepted only as method, target and version with one space between, and reports those |
| `H1Grammar.RequestTaken` | source/h1_decoder.c:544-614 | and every such line is accepted |
| `H1Grammar.StatusExactly` | source/h1_decoder.c:620-710 | a status line is accepted only as version, three digits and a phrase |
| `H1Grammar.StatusTaken` | source/h1_decoder.c:616-710 | and every such line is accepted, with that code, and with no body for 1xx and 204, none expected for 304 |
| `H1Grammar.SizeExactly` | source/h1_decoder.c:292-342 | for every line, which chunk sizes are accepted, and where they lead: the data, or the trailer if zero |
| `H1Grammar.ListExactly` | source/h1_decoder.c:405-542 | for every list of codings after any others, it is accepted exactly if each is known, not repeated and none follows chunked |
| `H1Grammar.LineExactly` | source/h1_decoder.c:344-542 | for every header line after any others, whether it is accepted and what is known after it |
| `H1Grammar.SectionExactly` | source/h1_decoder.c:344-542 | for any lines at all, the section is accepted if and only if every line fits those before it; then its fields are reported in order, and otherwise decoding fails |
| `H1Grammar.BothRefusedExactly` | source/h1_decoder.c:405-542 | lines that are all right by themselves are refused exactly if there is a second length, or codings and a length that is not zero, in either order |
| `H1Grammar.BlankExactly` | source/h1_decoder.c:344-403 | what follows the blank line: chunks, a body of the length given, or the end of the message |
| `H1Acceptance.ScanIs` | source/h1_encoder.c:20-116 | for any headers, whether the encoder finds them in order, and what it knows of the body: the last length given, and chunked exactly if that is the last of all codings listed |
| `H1Acceptance.AcceptedExactly` | source/h1_encoder.c:20-157 | for every message, accepted if and only if names, values, lengths and codings are in order, codings end with chunked and come with neither length nor body stream, a response without body has neither codings nor a length but zero, and a length that counts comes with a body |

## Left out

- HPACK growth from capacity 1: what the table holds after an insertion that found no slot is not modelled; the outcome is reported as lost and runs end there.
- The HPACK static table is a parameter: any list of fields. Lookups in it are by first match.
- The Huffman code is a parameter: any coder whose decoding undoes its encoding; its 256-leaf table and its bit-stream driver are not part of this model.
- Strings are limited to lengths below 2^63, as the integers of section 5.1 are; `size_t` is taken to be 64 bits wide.
- HpackCodec.HeaderEncoder.AppendString: allocation failure and the reservation of output space are not modelled.
- Connection manager: connections are identified by numbers, connects and settings under way are counted; timestamps are unbounded; a user who releases too often is modelled only as far as the code notices (nothing vended).
- Connection manager: proxies, TLS, network interfaces, the choice of HTTP version and metrics do not bear on the counters and are not modelled.
- Both managers: the order in which a transaction's work is executed is free, which includes the order of the source.
- Stream manager: the two random draws of a placement are a parameter; pings and the policy on server errors are not modelled.
- Flow control: only automatic window management; manual windows, padding-only updates, GOAWAY, pushes, PRIORITY and errors of the user's callbacks are left out; malformed content and a body of the wrong length are flags of an arriving frame. The source has no server that accepts streams, so the server of a pair opens a stream when HEADERS arrive, as section 5.1 of RFC 7540 has it, and otherwise does what the client's code does.
- FlowWindows.Windows.ShiftPeerWindows: which windows were shifted when the loop stopped is not stated, because it depends on the order of a hash table, and the connection ends there.
- FlowWindows.Windows.ShiftSelfWindows: the same.
- Wire order: a frame's pieces are abstract; how many fit, and what each turn of a round of DATA comes to, are parameters; of the frames that streams queue, HEADERS at activation and RST_STREAM are told apart and all others are control frames.
- HTTP/2 decoder: errors returned by callbacks are left out; body and debug bytes are reported one by one, which merges adjacent pieces; the type of a block is reported for pushes too, where the source has only one.
- H2Frames.PriorityRoundTrip: the decoder drops the contents of PRIORITY frames, so all that is stated is that they are accepted.
- OutgoingFrames.FrameWriter.Resume: a window update that sets free a stream with nothing left to send, which the source would put in the ready list again, is not modelled.
- H2Codec.FrameDecoder.Decode: the state functions act on a value of the decoder's fields, which is then loaded; only the scratch buffer is updated in place byte by byte.
- HTTP/1.1: names and codings are recognised by parameter functions; the reason phrase is a parameter; the list of names forbidden in trailers is reduced to those that concern framing; a body source that gives a different number of bytes than announced is not modelled.
- H1RoundTrip.ReadBackExactly: of a chunked message with readable headers and a line end in an extension it does not say whether the whole is read back, because chunk data that follows can look like the framing that was lost; `H1Chunks.SteadyExactly` has the exact condition for delivery chunk by chunk.
- source/connection.c, source/h1_connection.c, source/h1_stream.c, source/proxy_connection.c, source/websocket.c and the server side: channels, sockets and callback wiring; only their callbacks appear, as steps of the environment.
- source/connection_monitor.c, source/statistics.c, source/http.c, source/random_access_set.c: easy or library-like members only.
- Memory, logging and error names.
