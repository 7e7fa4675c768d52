# A verified model of the MongoDB Node.js driver's core

This project models six components of the driver and proves what they promise, for all inputs, all interleavings and all
runs. Every theorem is about the driver's own operations: their branches, constants and error cases are those of the source.

* **Wire protocol** (`BufferPool`, `LittleEndian`, `OpMsg`, `MessageStream`, `WireEndToEnd`, `LegacyOps`). A list of socket
  buffers behaves as one byte string; the split of that string into chunks does not matter; what `writeCommand` pushes,
  compressed or not, is emitted and decoded on the other side as the longest complete prefix. The legacy encoders invert.
* **GridFS** (`GridFsUpload`, `GridFsDownload`, `GridFsRoundTrip`). Writes of any size are re-blocked into chunks; in every
  interleaving of acknowledgements and errors the files document appears at most once and exactly when every chunk was
  acknowledged; a ranged download returns the written bytes.
* **Bulk writes** (`BulkBatches`, `BulkOrdered`, `BulkUnordered`, `BulkResults`, `BulkWrite`). The greedy splitters use the
  fewest batches possible, encoded batches stay within the byte limit, errors name the user's operations, and merged
  counts are conserved.
* **Connection pool** (`PoolProtocol`, `PoolAnswers`, `ConnectionPool`). A step system in which user code may run between any
  two steps of the pool's loops: nothing is lost or answered twice, every answer has its reason, and a cleared connection is
  never handed out. The class's methods are runs of those steps.
* **Sessions and transactions** (`Transactions`, `WithTransaction`, `ServerSessionPool`, `TransactionIdentity`,
  `TransactionPairs`, `TransactionSteps`). The transition table is never left, `withTransaction` ends and succeeds only with a
  commit, and no (lsid, txnNumber) pair is used for two purposes.
* **Cursors and change streams** (`Cursor`, `ChangeStream`). Iteration loses and repeats nothing; a change stream delivers
  each matching event once, and all of them, across resumptions.
* **Shuffle** (`Shuffle`). Every arrangement comes from exactly one choice of random indexes.

`Common` holds sequence facts. `dafny verify dfyconfig.toml` verifies everything.

Code that changes things step by step is a class or a method with loops; its contract ties it to a function on values
(`Contents()`, `View()`, `Remaining()`), and the theorems are about those functions. Callbacks are separate steps. Clocks,
random numbers, the network and the server are parameters: lists of replies, sets of timed-out sessions, draws, and
nondeterministic choices in `withTransaction`. A document is a byte string whose first four bytes give its length.
Integer widths are explicit (`int32`, `int64`, `byte`).

Nine properties do not hold as one might expect. Each has an exact condition, over all inputs; where a small input shows the
failure, a lemma or method gives it:

* GridFS: an empty range that starts on a chunk boundary before the end of the file is read to the end of the file, because
  the cursor's limit is then 0, which means no limit (`ServedAsAsked`).
* Bulk: an exception thrown while a batch is started is merged as an error at user index 0, with the batch's first
  operation. So the indexes of the write errors are the recorded positions of their operations if and only if no such
  exception came from a batch that begins elsewhere; in ordered mode, from any batch but the first (`ErrorsLocated`,
  `WriteOrdered`, `WrongIndex`). A reply with `ok: 0` never gets that far: the connection turns it into an error.
* Bulk: the index of an upsert is computed from the batch's first position, so it is the user's if and only if the operations
  before it in the batch are those before it in the user's list; always in ordered mode (`UpsertsLocated`, `UpsertsName`,
  `WrongUpsert`).
* Bulk: an empty batch is handed over exactly when maxWriteBatchSize is below 2 (`SplitOrdered`, `SplitUnordered`).
* Legacy: `GetMore` does not check its namespace, and the fields are read back exactly when it has no zero byte
  (`GetMoreInverts`, `GetMoreLoses`).
* Legacy: the encoders store lengths and counts by four byte stores, which wrap. The declared length is the number of
  bytes, and a list of cursor ids is read back, exactly when the number fits 31 bits (`KillCursorInverts`,
  `KillCursorLoses`). A list of cursor ids that long needs a buffer of 16 GB, which `Buffer.alloc` may refuse first; the
  encoders themselves do not.
* Transactions: a transaction number can be drawn in vain, by a retryable write that fails before its command is built, or by
  a `startTransaction` whose options the new transaction refuses (an unacknowledged write concern) after the number is
  drawn. A `commitTransaction` repeated after that goes out under the number drawn. All commands of every transaction carry
  its number exactly when no commit is repeated so (`FaithfulUnlessOvertaken`, with both failing runs in
  `OvertakenExample`).
* Change streams: `resumeOptions` drops `startAtOperationTime` while the cursor's server is unknown, because its version
  then counts as 0. So a stream that is given only a start time, and whose first `next` fails with a resumable error, begins
  at the end of the log as it is when the cursor reopens. It begins where it was asked to exactly when that does not
  happen, or happens to be the same place (`ChangeStreams.Drive`, `LostStart`).
* Change streams: a stream is resumed only if its new cursor finds a change before it fails again, because `processError`
  closes the stream on any error of the first `hasNext`. It ends exactly when an error is not resumable, or comes when
  nothing has been found since the last one (`FailureEnds`, `Drive`, `LostAgain`); all other failures cannot be seen
  (`FailuresUnseen`).

## Model

| member | source | states |
|---|---|---|
| `BufferPools.BufferPool.Append` | src/utils.ts:1214-1217 | the contents grow by the buffer, and the cached length follows |
| `BufferPools.BufferPool.Peek` | src/utils.ts:1220-1222 | the first bytes, or nothing if there are too few; the buffers do not change; a negative size is an error |
| `BufferPools.BufferPool.Read` | src/utils.ts:1225-1287 | returns and, when asked, consumes exactly the first `size` bytes of the flat contents, or nothing if there are too few |
| `BufferPools.BufferPool.ReadAcross` | src/utils.ts:1255-1284 | the copy loop over several buffers, including leftover empty ones at the front, returns the flat prefix and leaves the flat rest |
| `BufferPools.TakeAndDrop` | src/utils.ts:1225-1287 | all or nothing: what is read and what is left make up the whole, and nothing is read of too few bytes |
| `BufferPools.Replay` | src/utils.ts:1200-1288 | any sequence of append, peek and read gives the answers of a flat byte string |
| `LittleEndian.Int32RoundTrip` | src/cmap/commands.ts:216-248 | four bytes, the least significant first, give back every 32-bit integer, negative ones included |
| `LittleEndian.Int32Slice` | src/cmap/commands.ts:523-527 | a field is read back from anywhere inside a buffer |
| `LittleEndian.WriteInt32LE` | src/cmap/commands.ts:730-734 | writes those four bytes at an offset and touches nothing else |
| `LittleEndian.StoreInt32` | src/cmap/commands.ts:216-248 | the four byte stores, for any integer, which wraps |
| `LittleEndian.WrappedSlice` | src/cmap/commands.ts:216-248 | what is read back from the bytes of any integer is its 32-bit image |
| `LittleEndian.LongRoundTrip` | src/cmap/commands.ts:351-364 | the low and high halves give back every 64-bit cursor id |
| `OpMsg.Msg.ToBin` | src/cmap/commands.ts:703-747 | the pieces concatenate to the OP_MSG layout with the total length in the header; a total beyond int32 is an error |
| `OpMsg.BinMsg.Parse` | src/cmap/commands.ts:827-876 | the section loop yields the documents of the sections; payload type 1 is an error and an unknown type byte is passed over; a second call does nothing |
| `OpMsg.SectionsInvert` | src/cmap/commands.ts:852-865 | parsing any printed list of documents gives the list back |
| `OpMsg.SectionsGoOn` | src/cmap/commands.ts:852-871 | behind any printed list of documents: payload type 1 is an error, a cut-off length is one, any other type byte is passed over |
| `OpMsg.BodyDecodes` | src/cmap/commands.ts:703-747 | an encoded body decodes to its command and its three flags |
| `OpMsg.HeaderDecodes` | src/cmap/commands.ts:730-735 | the four header fields are read back from any message that starts with them |
| `MessageStreams.MessageStream.Write` | src/cmap/message_stream.ts:63-66 | after a chunk, exactly the messages of the flat stream so far have been emitted, and the rest is buffered or the error reported |
| `MessageStreams.MessageStream.ProcessIncomingData` | src/cmap/message_stream.ts:130-209 | the recursive cutting of the buffer equals framing the flat string, with the size limits and both decompression errors |
| `MessageStreams.SizeDecides` | src/cmap/message_stream.ts:132-155 | exactly which declared sizes wait, which stop the stream and with what error |
| `MessageStreams.PlainExactly` | src/cmap/message_stream.ts:157-177 | a plain frame opens, to everything behind its header, exactly if its fixed fields are there |
| `MessageStreams.CompressedExactly` | src/cmap/message_stream.ts:179-208 | a compressed frame opens exactly if its body inflates to the declared size; the error for each other case |
| `MessageStreams.NextFrameStable` | src/cmap/message_stream.ts:132-155 | once a frame is decided, later bytes do not change it |
| `MessageStreams.FrameAppend` | src/cmap/message_stream.ts:130-209 | framing a stream and then more of it is framing the whole; an error stays |
| `MessageStreams.Receive` | src/cmap/message_stream.ts:63-209 | for every split of a byte string into socket chunks the emitted messages and the buffered rest are the same |
| `MessageStreams.FrameAll` | src/cmap/message_stream.ts:130-209 | a run of whole frames is emitted in order, and framing goes on behind it |
| `MessageStreams.FramePrefix` | src/cmap/message_stream.ts:130-209 | after any prefix of a run of frames, exactly the longest complete prefix is emitted and the partial frame is buffered |
| `WireEndToEnd.Outgoing.WriteCommand` | src/cmap/message_stream.ts:74-119 | pushes the plain message or its OP_COMPRESSED wrapping, and nothing when encoding or compression fails |
| `WireEndToEnd.SentForm` | src/cmap/message_stream.ts:74-119 | with an agreed compressor and a compressible command an OP_COMPRESSED frame with the opcode, size, compressor and compressed body in their places, else the OP_MSG; both declare their own length |
| `WireEndToEnd.PlainOpens` | src/cmap/message_stream.ts:157-177 | a plain frame opens to the request id, flags and command that were sent |
| `WireEndToEnd.CompressedOpens` | src/cmap/message_stream.ts:179-208 | so does a compressed one, for every compressor, if decompressing inverts compressing |
| `WireEndToEnd.FrameDecodes` | src/cmap/message_stream.ts:74-119 | each pushed command within the size limit is one whole frame that opens to it |
| `WireEndToEnd.ReceivedPrefix` | src/cmap/message_stream.ts:130-209 | what is emitted from a prefix of the sent bytes is the longest complete prefix of the sent commands, decoded |
| `WireEndToEnd.Transfer` | src/cmap/message_stream.ts:63-209 | end to end: any commands, any compressors, any socket chunks; the emitted messages decode to the commands in order, and the buffer holds the rest |
| `LegacyOps.GetMore.ToBin` | src/cmap/commands.ts:296-368 | fills the OP_GET_MORE layout; the declared length is the number of bytes exactly when that fits 31 bits |
| `LegacyOps.GetMoreInverts` | src/cmap/commands.ts:296-368 | decoding returns the fields if and only if the namespace has no zero byte |
| `LegacyOps.GetMoreLoses` | src/cmap/commands.ts:296-368 | a namespace that is one zero byte is read back as empty |
| `LegacyOps.KillCursor.ToBin` | src/cmap/commands.ts:387-458 | fills the OP_KILL_CURSORS layout in its loop, for a list of any length; the same of the declared length |
| `LegacyOps.KillCursorInverts` | src/cmap/commands.ts:387-458 | a list of 64-bit cursor ids is read back in order if and only if its length fits the count field |
| `LegacyOps.KillCursorLoses` | src/cmap/commands.ts:387-458 | of a list one id too long nothing is read back, since its count has wrapped |
| `LegacyOps.Query.ToBin` | src/cmap/commands.ts:139-270 | refuses a namespace with a zero byte, else produces the OP_QUERY layout; the same of the declared length |
| `LegacyOps.QueryInverts` | src/cmap/commands.ts:139-270 | request id, all seven flags, namespace, skip, batch size and both documents are read back |
| `LegacyOps.Response.constructor` | src/cmap/commands.ts:500-543 | the fixed OP_REPLY fields, the cursor id from its two halves |
| `LegacyOps.Response.Parse` | src/cmap/commands.ts:549-608 | the reply loop yields what the length prefixes cut out, for any bytes, once |
| `LegacyOps.RawDocumentsInvert` | src/cmap/commands.ts:571-595 | any list of length-prefixed documents is recovered exactly |
| `LegacyOps.ParseReply` | src/cmap/commands.ts:500-608 | constructing and parsing a reply body gives back its documents and cursor id |
| `GridFsUpload.Reblock` | src/gridfs/upload.ts:425-499 | re-blocking in two steps gives the chunks and the remainder of the whole |
| `GridFsUpload.GridFSBucketWriteStream.Absorb` | src/gridfs/upload.ts:458-493 | one turn of the copy loop keeps buffer and issued chunks the re-blocking of all bytes written, and both outstanding counters right |
| `GridFsUpload.GridFSBucketWriteStream.FlushWrite` | src/gridfs/upload.ts:452-499 | the whole loop, for an input of any size |
| `GridFsUpload.GridFSBucketWriteStream.DoWrite` | src/gridfs/upload.ts:425-499 | buffers or flushes the input; an aborted stream refuses it and changes nothing |
| `GridFsUpload.GridFSBucketWriteStream.Write` | src/gridfs/upload.ts:130-138 | appends to the file unless aborted |
| `GridFsUpload.GridFSBucketWriteStream.End` | src/gridfs/upload.ts:185-219 | with or without a last chunk: ends the stream once, and the remnant follows the last write |
| `GridFsUpload.GridFSBucketWriteStream.WriteRemnant` | src/gridfs/upload.ts:528-555 | issues the last, shorter chunk, or completes at once if there is none |
| `GridFsUpload.GridFSBucketWriteStream.CheckDone` | src/gridfs/upload.ts:296-328 | done exactly when ended, nothing is outstanding and nothing failed |
| `GridFsUpload.GridFSBucketWriteStream.ChunkInserted` | src/gridfs/upload.ts:473-485 | exactly this insert becomes acknowledged, both counters go down, the remnant may follow, and the completion invariant is kept |
| `GridFsUpload.GridFSBucketWriteStream.ChunkFailed` | src/gridfs/upload.ts:222-235 | exactly this insert has failed, which is remembered, so the files document can never follow |
| `GridFsUpload.GridFSBucketWriteStream.Abort` | src/gridfs/upload.ts:149-164 | which of the two errors, or the abort |
| `GridFsUpload.RunUpload` | src/gridfs/upload.ts:130-555 | every interleaving of writes, end, abort, acknowledgements and errors: at most one files document, inserted if and only if the stream was ended and all inserts acknowledged; its length and chunks are those of the bytes written |
| `GridFsUpload.FinishUpload` | src/gridfs/upload.ts:296-555 | progress: an upload that was ended and of which no insert fails is stored once the server has answered everything |
| `GridFsDownload.GridFSBucketReadStream.Init` | src/gridfs/download.ts:309-386 | reading begins exactly for a range within a file that is not empty; the argument errors in the order of the code, and the skip, trim and cursor window of a valid range |
| `GridFsDownload.RefusedRanges` | src/gridfs/download.ts:403-456 | a range is refused exactly if it does not lie within the file, and each refusal has its own exact condition |
| `GridFsDownload.GridFSBucketReadStream.DoRead` | src/gridfs/download.ts:207-307 | a chunk of the wrong number or size is its error; a right one is cut and pushed |
| `GridFsDownload.ReadChunks` | src/gridfs/download.ts:207-307 | any collection, damaged or not: chunks are read while they have their number and size, and the first that has not is reported with its error |
| `GridFsDownload.ChunkArithmetic` | src/gridfs/download.ts:403-456 | the recursive floor and product used in the proofs are `/`, `%` and `*` |
| `GridFsRoundTrip.ChunkAt` | src/gridfs/upload.ts:425-499 | chunk k of a stored file is the file from k times the chunk size to the next boundary or the end |
| `GridFsRoundTrip.CursorRange` | src/gridfs/download.ts:358-456 | the chunks the cursor delivers for a valid range; an empty range on a boundary lifts the limit |
| `GridFsRoundTrip.OneChunk` | src/gridfs/download.ts:207-307 | each stored chunk passes validation, and its cut part continues the output |
| `GridFsRoundTrip.ReadRange` | src/gridfs/download.ts:207-456 | reading a stored file: without an error exactly for ranges within it; `data[start..end]` if start < end, the rest of the file for an empty range on a chunk boundary, nothing for another empty one; else the reason, and nothing is pushed |
| `GridFsRoundTrip.ServedAsAsked` | src/gridfs/download.ts:403-456 | the served bytes are `data[start..end]` if and only if the range is not empty on a chunk boundary before the end; the defaults serve the whole file |
| `GridFsRoundTrip.DefaultServesAll` | src/gridfs/download.ts:130-134 | the default options 0 and 0 serve the whole file |
| `GridFsRoundTrip.PiecesWritten` | src/gridfs/upload.ts:130-219 | however the answers of the server fall between the calls, what is written is the concatenation of the pieces, the one given to `end` included |
| `GridFsRoundTrip.StoreAndRead` | src/gridfs/upload.ts:130-555 | round trip, for any chunk size and any interleaving of calls and answers: the file is stored exactly when ended and all inserts are acknowledged; a download of `start` to `end` then pushes that range of what was written, the default one pushes all of it, and only a range outside is refused |
| `BulkBatches.Limits.NotFitting` | src/bulk/ordered.ts:41-51 | the test that closes a batch holds only when the operation would break a limit |
| `BulkBatches.Limits.FitsMeans` | src/bulk/ordered.ts:41-51 | a batch is within the limits exactly if it has one type, fewer operations than maxWriteBatchSize and, from two on, documents and largest keys together below maxBatchSizeBytes |
| `BulkBatches.DigitsExact` | src/bulk/common.ts:963-968 | the digits counted for a key are those of its decimal form |
| `BulkBatches.Limits.GreedyHolds` | src/bulk/ordered.ts:34-79 | whatever the limits, first fit holds each operation once and in order |
| `BulkBatches.Limits.GreedySplits` | src/bulk/ordered.ts:34-79 | when a batch may hold two operations, first fit cuts them into batches within all limits |
| `BulkBatches.Limits.GreedyIsShortest` | src/bulk/ordered.ts:34-79 | no split within the limits has fewer batches |
| `BulkBatches.Limits.EncodedWithin` | src/bulk/common.ts:963-968 | the real BSON array size of a batch is at most the tracked byte count |
| `BulkBatches.Limits.BatchWithinLimit` | src/bulk/ordered.ts:41-78 | and below the byte limit for every batch of two or more |
| `BulkBatches.DigitsMonotone` | src/bulk/common.ts:963-968 | no index has more decimal digits than the largest one |
| `BulkOrdered.OrderedBulkOperation.AddToOperationsList` | src/bulk/ordered.ts:15-81 | the errors for oversized and array documents; otherwise the operation is added and the batches stay first fit with matching size trackers |
| `BulkOrdered.OrderedBulkOperation.Execute` | src/bulk/common.ts:1225-1260 | the saved batches and the open one, or the error for an empty bulk |
| `BulkOrdered.OrderedBulkOperation.ExecutedBatches` | src/bulk/ordered.ts:34-80 | what is handed over is a split as below |
| `BulkOrdered.GreedyWellSplit` | src/bulk/ordered.ts:34-80 | first-fit batches hold each operation once, in order, within the limits, and are as few as possible |
| `BulkOrdered.GreedyNoneEmpty` | src/bulk/ordered.ts:41-61 | first fit leaves a batch empty exactly when a batch may not hold two operations |
| `BulkOrdered.SplitOrdered` | src/bulk/ordered.ts:15-81 | for every limit and sequence of adds: each accepted operation is in exactly one batch of its type, in order, with consecutive user indexes; from a maxWriteBatchSize of 2 on, within the limits and in the fewest batches; below, and only there, an empty batch is handed over |
| `BulkUnordered.UnorderedBulkOperation.AddToOperationsList` | src/bulk/unordered.ts:24-108 | as above with one open batch per type |
| `BulkUnordered.UnorderedBulkOperation.Execute` | src/bulk/common.ts:1225-1260 | the saved batches, then the open insert, update and remove batches |
| `BulkUnordered.UnorderedBulkOperation.ExecutedBatches` | src/bulk/unordered.ts:45-107 | the batches of each type are a shortest split of the operations of that type, in order |
| `BulkUnordered.UnorderedBulkOperation.LaneHolds` | src/bulk/unordered.ts:45-107 | whatever the limits, the batches of each type are first fit and hold its operations once each, in order |
| `BulkUnordered.UnorderedBulkOperation.ExecutedBegin` | src/bulk/unordered.ts:45-107 | every batch begins at the position of its first operation |
| `BulkUnordered.OfKindNumbered` | src/bulk/unordered.ts:45-107 | each operation keeps its user index |
| `BulkUnordered.SplitUnordered` | src/bulk/unordered.ts:24-108 | the same as for ordered bulks, per type, for every limit and sequence of adds |
| `BulkResults.BulkResult.MergeBatchResults` | src/bulk/common.ts:449-583 | the new totals, upserts, errors and operation time after any reply or error document |
| `BulkResults.Conservation` | src/bulk/common.ts:449-583 | over any run of successful replies: inserted and removed are the sums of n, matched plus upserted is the sum of update n, and the upserted count is the list's length |
| `BulkResults.ModifiedConserved` | src/bulk/common.ts:553-564 | the modified count is the sum over the updates that found something, when each of them reports a number |
| `BulkResults.ModifiedSince` | src/bulk/common.ts:553-564 | in general it is the sum since the last update that reported none |
| `BulkResults.ConcernsKept` | src/bulk/common.ts:580-582 | every write concern error of a run is kept, in order |
| `BulkResults.OpTimeIsLatest` | src/bulk/common.ts:484-520 | over any run, the operation time is the lexicographic maximum of all that were reported |
| `BulkResults.ErrorsName` | src/bulk/common.ts:566-578 | an error is reported with the user's index and operation exactly when it points into the batch |
| `BulkResults.ErrorsHoldOps` | src/bulk/common.ts:466-578 | over any run, every write error holds the operation it comes from |
| `BulkResults.ErrorsHoldCodes` | src/bulk/common.ts:466-578 | and the code that was reported of it |
| `BulkResults.ErrorsLocated` | src/bulk/common.ts:466-578 | over any run, every write error's index is the recorded position of the operation it holds if and only if no top-level error was kept of a batch that begins elsewhere than at the first operation |
| `BulkResults.RunErrorsName` | src/bulk/common.ts:566-578 | and then every write error names a user operation |
| `BulkResults.UpsertsName` | src/bulk/common.ts:532-551 | over any run of ordered batches, every merged upsert carries the id the server gave and, where it points into its batch, the user's index |
| `BulkResults.UpsertsLocated` | src/bulk/common.ts:532-551 | over any run, an upsert carries the user's index if and only if its operation is as far from the batch's first in the user's list as in the batch |
| `BulkResults.SplitRecords` | src/bulk/ordered.ts:34-80 | the batches of either splitter record the positions of their operations |
| `BulkResults.ErrorsRemembered` | src/bulk/common.ts:1266-1297 | the result has errors exactly if some reply was no success, had a write error or had a write concern error |
| `BulkResults.ExecuteCommands` | src/bulk/common.ts:585-707 | from the outcomes alone: an ordered bulk ends behind the first batch that got no reply or one with an error, an unordered one behind the first without a reply; it succeeds if and only if every batch got a reply without an error; the totals merge exactly the executed batches, and an exception leaves the callback with nothing |
| `BulkWrites.OrderedBegins` | src/bulk/ordered.ts:34-80 | only the first batch of an ordered bulk begins at position 0 |
| `BulkWrites.MisplacedByException` | src/bulk/common.ts:653-683 | in a run of the batches, an error is misplaced exactly by an exception of a batch that begins elsewhere |
| `BulkWrites.WriteOrdered` | src/bulk/common.ts:585-707 | adds, splitting, execution and merging together: where the run ends and whether it succeeds, as above; every merged upsert has the user's index; every batch handed over is within the byte limit once encoded; for any replies that point into their batches, each error holds its operation, and the indexes are the user's if and only if no exception came after the first batch |
| `BulkWrites.WriteUnordered` | src/bulk/unordered.ts:16-108 | the same, with the exception of a batch that does not begin with the first operation; the upserts have the user's indexes if and only if each is in step with its batch |
| `BulkWrites.TwoBatchesSplit` | src/bulk/ordered.ts:34-80 | an insert and a delete are split into these two batches |
| `BulkWrites.WrongIndex` | src/bulk/common.ts:676-682 | when the delete throws, the error holds the delete under the index of the insert, and the caller gets no result |
| `BulkWrites.WrongUpsert` | src/bulk/common.ts:532-551 | in an unordered bulk of an update, an insert and an update, the upsert of the second update is reported at the index of the insert |
| `Shuffles.Shuffle` | src/utils.ts:1447-1468 | the in-place loop computes the arrangement that the drawn indexes select; a limit beyond the length is an error |
| `Shuffles.ShuffledPermutes` | src/utils.ts:1455-1465 | every number of steps keeps the items and leaves the untouched end alone |
| `Shuffles.PickedSelects` | src/utils.ts:1447-1468 | a permutation for limit 0 or the full length, a selection of `limit` items otherwise, and nothing for a negative limit |
| `Shuffles.ChoicesDiffer` | src/utils.ts:1455-1465 | different draws give different arrangements |
| `Shuffles.ChoicesReach` | src/utils.ts:1455-1465 | every arrangement is reached |
| `Shuffles.PartialBijection` | src/utils.ts:1447-1468 | each ordered selection comes from exactly one sequence of draws |
| `Shuffles.WholeBijection` | src/utils.ts:1447-1468 | each permutation comes from exactly one sequence of draws |
| `PoolProtocol.ConnStep` | src/cmap/connection_pool.ts:332-678 | every step keeps the account of permits, the disjointness of held connections and the single creation for the queue |
| `PoolProtocol.RequestStep` | src/cmap/connection_pool.ts:285-678 | every step keeps each request answered once or waiting once, and the line in arrival order |
| `PoolProtocol.PoolConserves` | src/cmap/connection_pool.ts:332-678 | in every reachable open state maxPoolSize = permits + pending + available + checked out; permits are not negative, no connection is held twice, and at most one creation for the wait queue is in flight |
| `PoolProtocol.EveryCheckOutAnswered` | src/cmap/connection_pool.ts:285-439 | no check-out callback is called twice, and once the pool is closed every one has been called exactly once |
| `PoolProtocol.ServedInOrder` | src/cmap/connection_pool.ts:597-678 | requests served by the pool are served in arrival order |
| `PoolAnswers.AnswersHaveReasons` | src/cmap/connection_pool.ts:285-678 | in every run the answers are exactly those for which the events give reason: the first available connection goes to the front of the line only if it is of the present generation and usable; what else a timer, an attempt, closing or a closed pool answers, and to whom |
| `PoolAnswers.ServedIsLent` | src/cmap/connection_pool.ts:624-660 | who is answered with a connection has it lent, and nothing else lends one |
| `PoolAnswers.TurnTakes` | src/cmap/connection_pool.ts:619-641 | a connection found stale or unusable is destroyed, its permit comes back and the line stays |
| `PoolAnswers.ClearedNeverServed` | src/cmap/connection_pool.ts:359-377 | after `clear`, whatever follows, no connection that was available or lent is handed out again |
| `PoolAnswers.CheckInReturns` | src/cmap/connection_pool.ts:332-351 | on an open pool a connection of the present generation that is not broken goes to the front of the deque; any other is destroyed and its permit comes back |
| `PoolAnswers.EstablishedGoes` | src/cmap/connection_pool.ts:531-674 | where a new connection goes, and that a closed pool keeps none |
| `PoolAnswers.CheckOutWaits` | src/cmap/connection_pool.ts:285-325 | a check-out on an open pool joins the end of the line, with its timer |
| `PoolAnswers.MinimumReached` | src/cmap/connection_pool.ts:494-505 | exactly the connections missing by the pool's own count are opened |
| `PoolAnswers.MatchedInOrder` | src/cmap/connection_pool.ts:603-641 | the reference of a pass: the first waiting request is matched with the first fit connection, and so on |
| `ConnectionPools.ConnectionPool.CheckOut` | src/cmap/connection_pool.ts:285-325 | enqueues a member with its timer, or answers at once when closed |
| `ConnectionPools.ConnectionPool.TimedOut` | src/cmap/connection_pool.ts:302-320 | cancels and answers the member, which stays in the queue |
| `ConnectionPools.ConnectionPool.CheckIn` | src/cmap/connection_pool.ts:332-351 | back to the front of the deque, or destroyed with its permit returned |
| `ConnectionPools.ConnectionPool.Clear` | src/cmap/connection_pool.ts:359-377 | a new generation |
| `ConnectionPools.ConnectionPool.Close` | src/cmap/connection_pool.ts:382-439 | the drain loop is a run of drain steps from the back; afterwards the queue is empty and the pool closed |
| `ConnectionPools.ConnectionPool.EnsureMinPoolSize` | src/cmap/connection_pool.ts:494-505 | opens as many connections as the pool's own count says are missing |
| `ConnectionPools.ConnectionPool.Turn` | src/cmap/connection_pool.ts:603-641 | one turn of the wait-queue loop; it takes nothing from what is still to be served |
| `ConnectionPools.ConnectionPool.ProcessWaitQueue` | src/cmap/connection_pool.ts:597-678 | the loop and the decision to open a connection are one pass of steps; the requests that waited are answered with the fit connections, one by one in order; whoever still waits found none, and one is opened unless the maximum is reached |
| `ConnectionPools.ConnectionPool.Established` | src/cmap/connection_pool.ts:531-674 | where a new connection goes: the front waiter, the deque, or nobody if the pool has closed |
| `ConnectionPools.ConnectionPool.NotEstablished` | src/cmap/connection_pool.ts:531-674 | the permit comes back and the front waiter gets the error |
| `ConnectionPools.RunThen` | src/cmap/connection_pool.ts:285-678 | steps after a run are a longer run, so method calls on a pool make up one run of the protocol |
| `ConnectionPools.Handle` | src/cmap/connection_pool.ts:285-678 | each call on the object extends the run by exactly its steps |
| `ConnectionPools.Operate` | src/cmap/connection_pool.ts:196-678 | any calls on a new pool object: the account, the single answers and the order hold of its fields |
| `Transactions.Transaction.Transition` | src/transactions.ts:153-170 | moves along the table, unpinning where it must, or reports an illegal transition and changes nothing |
| `Transactions.Transaction.PinServer` | src/transactions.ts:173-177 | pins only in an active transaction |
| `Transactions.ClientSession.StartTransaction` | src/sessions.ts:377-422 | the four refusals in the order of the code, that of the new transaction's own options last, else a new transaction is starting and unpinned |
| `Transactions.ClientSession.ApplySession` | src/sessions.ts:940-1018 | the first command in a transaction starts it; a command outside leaves the last one behind |
| `Transactions.ClientSession.Execute` | src/operations/execute_operation.ts:129-284 | the state, the answer and the pinned server after an operation with one or two tries |
| `Transactions.ClientSession.CommitTransaction` | src/sessions.ts:642-797 | the state after a commit from every state; its answer is the server's last one, labelled when the result is unknown, or one of the three errors; and the unpinning |
| `Transactions.CommitReports` | src/sessions.ts:728-796 | a commit succeeds exactly if its last command does; otherwise the error is the server's, with the label exactly when the result is unknown |
| `Transactions.CommitLetsGo` | src/sessions.ts:730-748 | which failures unpin the server and which leave the result unknown |
| `Transactions.LifeCycle` | src/sessions.ts:642-720 | where start, command, commit and abort lead from every state |
| `Transactions.SessionLife` | src/sessions.ts:257-294 | ending a session leaves no transaction active; an operation moves it only by building its command |
| `Transactions.TableForbids` | src/transactions.ts:22-45 | what the transition table rules out |
| `Transactions.ClientSession.AbortTransaction` | src/sessions.ts:642-797 | aborting an active transaction succeeds and unpins; the three errors otherwise |
| `Transactions.ClientSession.PerformAll` | src/sessions.ts:257-797 | any sequence of calls leaves the table's states as computed and attempts no illegal transition |
| `Transactions.RunSession` | src/sessions.ts:257-797 | from a new session: the illegal-transition error is unreachable, and a pinned server implies a state other than no transaction or aborted |
| `WithTransaction.AttemptCommit` | src/sessions.ts:550-573 | the tries follow from one another as they should, from the commit on, and no transaction stays active |
| `WithTransaction.AttemptTransaction` | src/sessions.ts:585-640 | the same from an attempt on; success leaves no transaction active, nor does a failure unless one was active before |
| `WithTransaction.Conclude` | src/sessions.ts:597-639 | what follows when the user's function has ended: abort, commit, retry or the error |
| `WithTransaction.RetriesExactly` | src/sessions.ts:550-640 | exactly when a commit is repeated, when everything is, and when a first commit is made |
| `WithTransaction.FineMeans` | src/sessions.ts:585-620 | success means that the last thing done was a commit that succeeded, or that the user's function had ended the transaction |
| `WithTransaction.Bounded` | src/sessions.ts:473-482 | times that only go up run out |
| `WithTransaction.WithTransaction` | src/sessions.ts:464-640 | whatever the user's function and the server do: the call ends, each try follows from the one before, every retry begins inside 120000 ms without an active transaction, there are at most as many tries as milliseconds, success means a commit that succeeded or a transaction the user ended, and no transaction is left active that was not before |
| `ServerSessions.ServerSessionPool.Acquire` | src/sessions.ts:882-893 | the first session that has not timed out, with the ones before it dropped |
| `ServerSessions.ServerSessionPool.Release` | src/sessions.ts:902-930 | trims the end of the pool and puts the session at the front unless it is dirty or timed out |
| `ServerSessions.UsableFinds` | src/sessions.ts:885-890 | only timed-out sessions are dropped, and a found one has not timed out |
| `ServerSessions.TrimmedKeeps` | src/sessions.ts:913-920 | only timed-out sessions are trimmed |
| `ServerSessions.CandidatesFind` | src/sessions.ts:882-893 | a session is made only if every pooled one has timed out; behind a load balancer, only if none is pooled |
| `ServerSessions.ReleasedKeeps` | src/sessions.ts:902-930 | a released session is pooled, at the front, exactly if it is neither timed out nor dirty, and no usable session leaves the pool |
| `TransactionIdentity.AcquireOwned` | src/sessions.ts:198-205 | a server session is with one client session or once in the pool |
| `TransactionIdentity.StepKeeps` | src/sessions.ts:257-1018 | every step, a refused start included, keeps numbers, log and client sessions in agreement; only an overtaken commit breaks faithfulness |
| `TransactionIdentity.FaithfulUnlessOvertaken` | src/sessions.ts:642-797 | all commands of every transaction carry its number if and only if no commit was overtaken |
| `TransactionPairs.StepPairs` | src/sessions.ts:257-1018 | every step leaves what was sent under the present number of a server session to one purpose |
| `TransactionPairs.PairHasOnePurpose` | src/operations/execute_operation.ts:248-284 | in every run, no (lsid, txnNumber) pair serves two transactions or retryable writes, however server sessions are released and reacquired |
| `TransactionIdentity.PurposeHasOnePair` | src/operations/execute_operation.ts:173-284 | all tries of a retryable write carry one pair, and so do all commands of a transaction |
| `TransactionIdentity.FirstCommandStarts` | src/sessions.ts:998-1017 | exactly the first command of a transaction has startTransaction |
| `TransactionIdentity.ReachingRunsFaithful` | src/sessions.ts:940-1018 | if every operation gets as far as building its command and no start is refused after drawing its number, no commit is overtaken |
| `TransactionIdentity.OvertakenExample` | src/sessions.ts:402-419 | two concrete runs that are not faithful: after a retryable write that is not built, and after a refused start |
| `TransactionIdentity.OvertakenAfter` | src/operations/execute_operation.ts:271-279 | any run that reaches a committed transaction can be continued, in either way, to one that is not faithful |
| `TransactionSteps.StepSends` | src/sessions.ts:257-1018 | how many commands each step sends and for which purpose, and exactly which steps draw a number |
| `TransactionSteps.StepMoves` | src/sessions.ts:257-1018 | where each step takes the transaction of its session, and that only `endSession` ends it |
| `TransactionSteps.AcquireReuses` | src/sessions.ts:198-205 | a pooled server session is reused if there is one fit for it; else one is made with number 0 |
| `TransactionSteps.ReleaseReturns` | src/sessions.ts:255-275 | the server session of a session that ends is pooled exactly if it is fit for reuse |
| `TransactionSteps.NumbersConsecutive` | src/sessions.ts:359-365 | in every run the numbers of a server session count up by one |
| `Cursors.Cursor.Fetch` | src/cursor/abstract_cursor.ts:600-622 | a getMore needs an empty buffer and an open cursor, and what remains is unchanged |
| `Cursors.Cursor.Advance` | src/cursor/abstract_cursor.ts:643-736 | returns the first remaining document; a blocking null means nothing remains |
| `Cursors.Cursor.Next` | src/cursor/abstract_cursor.ts:300-327 | `next` and `tryNext`, with the exhausted error exactly on a closed cursor; `tryNext` is null only at the end or after a getMore that brought nothing |
| `Cursors.Cursor.HasNext` | src/cursor/abstract_cursor.ts:273-297 | looks ahead without changing what remains; its answer is true exactly if something does |
| `Cursors.Cursor.ToArray` | src/cursor/abstract_cursor.ts:407-439 | collects what remains; all of it on a cursor that ends |
| `Cursors.Cursor.ForEach` | src/cursor/abstract_cursor.ts:334-376 | shows the documents in order up to the one that stops it; what is dropped is the end of that one batch |
| `Cursors.Drive` | src/cursor/abstract_cursor.ts:273-439 | any mix of calls returns a prefix of all batches, with nothing lost or repeated, and as long as there is more each `next` has returned a document |
| `Cursors.ReadAll` | src/cursor/abstract_cursor.ts:334-439 | on a new cursor that ends, `toArray` and a never-stopping `forEach` see everything |
| `Cursors.AllDocumentsMeans` | src/cursor/abstract_cursor.ts:600-622 | all there is to read: the batches put together, up to the first with a cursor id of zero |
| `ChangeStreams.MatchesSplit` | src/change_stream.ts:482-491 | what matches between two places splits at any place between |
| `ChangeStreams.ChangeStreamCursor.ProcessBatch` | src/change_stream.ts:482-491 | the token moves only on an empty batch |
| `ChangeStreams.ChangeStreamCursor.CacheResumeToken` | src/change_stream.ts:473-480 | the batch's token once the buffer is empty, else the change's own |
| `ChangeStreams.ChangeStreamCursor.ResumeOptions` | src/change_stream.ts:448-471 | the cached token, as `startAfter` until a change has been received; without one, the start time, but only if the server is known |
| `ChangeStreams.ChangeStreamCursor.Initialize` | src/change_stream.ts:499-529 | opening keeps the delivered changes exactly those up to the cached place |
| `ChangeStreams.ChangeStreamCursor.GetMore` | src/change_stream.ts:531-543 | so does every batch, empty or not |
| `ChangeStreams.ChangeStreamCursor.Advance` | src/cursor/abstract_cursor.ts:643-736 | opens the cursor if it has to and fetches until there is a change, as far as the answers bring it; a failure before opening closes it, one after kills it, and from then on it only fails for good |
| `ChangeStreams.ChangeStreamCursor.Deliver` | src/change_stream.ts:684-719 | the cached place follows the delivered change and never passes an undelivered one |
| `ChangeStreams.ChangeStream.Resume` | src/change_stream.ts:750-778 | a new cursor takes up at the token with nothing delivered twice; without a token it opens anew; it gets as far as the remaining answers bring it |
| `ChangeStreams.ChangeStream.Next` | src/change_stream.ts:329-346 | delivers the next change, resuming as often as needed; waits only when all answers are used up and everything is delivered; fails only where the answers end the stream |
| `ChangeStreams.ChangeStream.ProcessError` | src/change_stream.ts:721-782 | after a resumable error the call is made again on the new cursor, and answers as that one's course says; any other error closes the stream |
| `ChangeStreams.ChangeStream.HasNext` | src/change_stream.ts:316-324 | delivers nothing, keeps the place and is true exactly if a change is found; an error it reports, which needs a failure of the server, leaves a cursor on which the next `next` closes the stream |
| `ChangeStreams.Drive` | src/change_stream.ts:314-782 | exactly once and all of it: for any log, start option, server answers and mix of calls, each `next` returns the next matching event between where the stream began and where the answers bring it, across all failures that are resumed from; then it waits or, if the answers end the stream, fails; where it began, and the exact condition for that being the place asked for |
| `ChangeStreams.FailureEnds` | src/change_stream.ts:745-782 | a failure ends the stream exactly if it is not resumable or nothing was found since the last one; otherwise the stream opens at its token again |
| `ChangeStreams.FailuresUnseen` | src/change_stream.ts:721-782 | failures that a stream survives cannot be seen: it gets exactly as far as the batches reach |
| `ChangeStreams.Survives` | src/change_stream.ts:750-778 | it survives a resumable failure between batches |
| `ChangeStreams.Resumed` | src/change_stream.ts:750-778 | a stream that fails between two events delivers both |
| `ChangeStreams.LostAgain` | src/change_stream.ts:767-774 | a second failure before anything is found ends the stream |
| `ChangeStreams.LostStart` | src/change_stream.ts:456-468 | a stream from a start time whose first `next` fails begins at the end of the log, and the events before are lost |
| `ChangeStreams.DeliveredIsPrefix` | src/change_stream.ts:314-782 | so it is a prefix of everything that ever matches |

## Left out

- Sockets, TLS, DNS, authentication, BSON and the compression algorithms: documents are byte strings, and compression is a pair of functions assumed to be inverse where that is stated.
- SDAM, server selection, option parsing and the CRUD wrappers: they would add cases without a harder property.
- `OpMsg.BinMsg.Parse`: raw mode only; deserializing and the `documentsReturnedIn` modes belong to BSON.
- `LegacyOps.Response.Parse`: raw mode only, for the same reason.
- `LegacyOps.Query.ToBin`: `numberToReturn` is the batch size that the code writes in its place.
- `GridFsUpload.GridFSBucketWriteStream.Write`: the wait for index creation before the first write is not modelled; a write after `end` is excluded, as the stream's own contract does.
- `GridFsUpload.GridFSBucketWriteStream.DoWrite`: the abort tests inside the loop, in `writeRemnant` and in `checkDone` cannot succeed, since they run synchronously after one that failed; they do not appear.
- `GridFsDownload.GridFSBucketReadStream.Init`: finding the files document and the abort of a download are not modelled.
- `BulkOrdered.SplitOrdered`: its operations are not arrays. The class models the refusal of an array; the batch selected for it stays, so a bulk that was given one may hand over an empty batch.
- `BulkUnordered.SplitUnordered`: the same. After an array the source has saved the open batch without clearing it.
- `BulkResults.UpsertsName`: `insertedIds` is not modelled.
- `BulkResults.ExecuteCommands`: the driver's own failures are one outcome; early errors and options are not modelled.
- `BulkWrites.WriteOrdered`: promises nothing of the errors when maxWriteBatchSize is below 2, since an empty batch is then sent; nor does the unordered one.
- `PoolProtocol.PoolConserves`: each connection is checked in once per check-out. That `minPoolSize` is reached, that `totalConnectionCount` is exact, and that a connection newly made for a waiter is fresh are not claimed, because the code does not ensure them.
- `ConnectionPools.ConnectionPool.ProcessWaitQueue`: event listeners are taken not to call back into the pool. Callbacks may: the protocol allows any step between two turns. Load-balanced pinning, service generations, metrics and the `kCheckedOut` counter are not modelled.
- `ConnectionPools.ConnectionPool.Close`: destroying the available connections is a later step, as it is asynchronous.
- `Transactions.ClientSession.StartTransaction`: of the transaction's options only the refusal of an unacknowledged write concern; read and write concerns sent with commands, recovery tokens, cluster times and load-balanced pinning are not modelled.
- `WithTransaction.WithTransaction`: each attempt and each commit take at least a millisecond.
- `ServerSessions.ServerSessionPool.Acquire`: which sessions have timed out is given; the source reduces idle time modulo an hour, so freshness is not claimed. Ids are unique.
- `TransactionPairs.PairHasOnePurpose`: one call at a time on each client session; commit and abort commands come only from the session's own methods.
- `Cursors.Drive`: no transform, no errors, one call at a time; `close`, `rewind`, the stream interface and replies without a cursor document are not modelled.
- `ChangeStreams.Drive`: `next` and `hasNext` only, one call at a time, since `tryNext` caches no token and emitter mode reads ahead; the server always sends postBatchResumeToken and does not end a cursor, and once known it is of wire version 7 or later. The wait for the topology is not modelled.
