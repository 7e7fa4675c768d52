/** Re-blocking of writes into chunks and the completion protocol of an upload (src/gridfs/upload.ts). */
module GridFsUpload {
  import opened Common
  import opened BufferPools

  datatype Chunk = Chunk(n: nat, data: Bytes)

  datatype FilesDoc = FilesDoc(length: nat, chunkSize: nat)

  // ---------------------------------------------------------------- the reference chunking

  /** The full chunks of `data`, numbered from `first`. */
  function Full(data: Bytes, size: nat, first: nat): seq<Chunk>
    requires size > 0
    decreases |data|
  {
    if |data| < size then [] else [Chunk(first, data[..size])] + Full(data[size..], size, first + 1)
  }

  /** What is left behind the full chunks. */
  function Rest(data: Bytes, size: nat): (r: Bytes)
    requires size > 0
    ensures |r| < size
    decreases |data|
  {
    if |data| < size then data else Rest(data[size..], size)
  }

  /** The chunk documents of a finished file: the full chunks, then the remnant if there is one. */
  function ChunksOf(data: Bytes, size: nat): seq<Chunk>
    requires size > 0
  {
    var full := Full(data, size, 0);
    if Rest(data, size) == [] then full else full + [Chunk(|full|, Rest(data, size))]
  }

  /** Re-blocking a stream in two steps gives the chunks of the whole. */
  lemma {:induction false} Reblock(a: Bytes, b: Bytes, size: nat, first: nat)
    requires size > 0
    ensures Full(a + b, size, first)
         == Full(a, size, first) + Full(Rest(a, size) + b, size, first + |Full(a, size, first)|)
    ensures Rest(a + b, size) == Rest(Rest(a, size) + b, size)
    decreases |a|
  {
    if |a| >= size {
      assert (a + b)[..size] == a[..size];
      assert (a + b)[size..] == a[size..] + b;
      Reblock(a[size..], b, size, first + 1);
      Associative([Chunk(first, a[..size])], Full(a[size..], size, first + 1),
                  Full(Rest(a, size) + b, size, first + |Full(a, size, first)|));
    } else {
      assert [] + Full(a + b, size, first) == Full(a + b, size, first);
    }
  }

  /** A piece that does not fill the buffer stays in it. */
  lemma Kept(w: Bytes, part: Bytes, size: nat)
    requires size > 0 && |Rest(w, size)| + |part| < size
    ensures Full(w + part, size, 0) == Full(w, size, 0) && Rest(w + part, size) == Rest(w, size) + part
  {
    Reblock(w, part, size, 0);
    assert Full(w, size, 0) + [] == Full(w, size, 0);
  }

  /** A piece that fills the buffer exactly flushes one chunk. */
  lemma Flushed(w: Bytes, part: Bytes, size: nat)
    requires size > 0 && |Rest(w, size)| + |part| == size
    ensures Full(w + part, size, 0) == Full(w, size, 0) + [Chunk(|Full(w, size, 0)|, Rest(w, size) + part)]
    ensures Rest(w + part, size) == []
  {
    Reblock(w, part, size, 0);
    var whole := Rest(w, size) + part;
    assert whole[..size] == whole && whole[size..] == [];
    assert Full(whole[size..], size, |Full(w, size, 0)| + 1) == [];
  }

  // ---------------------------------------------------------------- the stream

  datatype Status = InFlight | Acked | Failed

  /** An issued chunk insert; `flush` names the write whose callback counts it, `None` for the remnant. */
  datatype Insert = Insert(chunk: Chunk, flush: Option<nat>, status: Status)

  /** The closure of one flushing write: its own counter, and whether its callback writes the remnant. */
  datatype Flush = Flush(outstanding: int, thenRemnant: bool)

  datatype StreamError = StreamAborted | AlreadyCompleted | AlreadyAborted

  /** Inserts not acknowledged: in flight or failed. */
  function Unacked(inserts: seq<Insert>): nat {
    if inserts == [] then 0 else
      Unacked(inserts[..|inserts| - 1]) + (if inserts[|inserts| - 1].status != Acked then 1 else 0)
  }

  /** Those that one write counts. */
  function UnackedOf(inserts: seq<Insert>, flush: nat): nat {
    if inserts == [] then 0 else
      var last := inserts[|inserts| - 1];
      UnackedOf(inserts[..|inserts| - 1], flush) + (if last.status != Acked && last.flush == Some(flush) then 1 else 0)
  }

  /** Every write counts its own unacknowledged inserts. */
  ghost predicate FlushesCount(inserts: seq<Insert>, flushes: seq<Flush>) {
    && (forall i :: 0 <= i < |inserts| && inserts[i].flush.Some? ==> inserts[i].flush.value < |flushes|)
    && (forall f :: 0 <= f < |flushes| ==> flushes[f].outstanding == UnackedOf(inserts, f))
  }

  /** An error is remembered exactly if an insert has failed. */
  ghost predicate FailuresKnown(inserts: seq<Insert>, errored: bool, first: nat) {
    && (forall i :: 0 <= i < |inserts| && inserts[i].status == Failed ==> errored)
    && (errored ==> first < |inserts| && inserts[first].status == Failed)
  }

  /** One insert of a flush less is outstanding. */
  function Fewer(flushes: seq<Flush>, flush: Option<nat>): seq<Flush> {
    if flush.Some? && flush.value < |flushes| then
      var f := flushes[flush.value];
      flushes[flush.value := f.(outstanding := f.outstanding - 1)]
    else flushes
  }

  /** One of the inserts is acknowledged; others may have followed. */
  ghost predicate AckedIn(before: seq<Insert>, after: seq<Insert>, i: nat) {
    && i < |before| <= |after| && after[i].status == Acked
    && forall j :: 0 <= j < |before| && j != i ==> after[j] == before[j]
  }

  /** No callback of a write will write the remnant. */
  ghost predicate NoneWritesRemnant(flushes: seq<Flush>) {
    forall f :: 0 <= f < |flushes| ==> !flushes[f].thenRemnant
  }

  /** One insert of a flush more is outstanding. */
  function OneMore(flushes: seq<Flush>, flush: Option<nat>): seq<Flush> {
    if flush.Some? && flush.value < |flushes| then
      var f := flushes[flush.value];
      flushes[flush.value := f.(outstanding := f.outstanding + 1)]
    else flushes
  }

  /** The counters follow an insert that is issued. */
  lemma IssuedCounts(inserts: seq<Insert>, flushes: seq<Flush>, errored: bool, first: nat, issued: Insert)
    requires FlushesCount(inserts, flushes) && FailuresKnown(inserts, errored, first)
    requires issued.status == InFlight && (issued.flush.Some? ==> issued.flush.value < |flushes|)
    ensures Unacked(inserts + [issued]) == Unacked(inserts) + 1
    ensures FlushesCount(inserts + [issued], OneMore(flushes, issued.flush))
    ensures FailuresKnown(inserts + [issued], errored, first)
  {
    assert (inserts + [issued])[..|inserts|] == inserts;
  }

  lemma FewerEach(flushes: seq<Flush>, flush: Option<nat>)
    ensures |Fewer(flushes, flush)| == |flushes|
    ensures forall f :: 0 <= f < |flushes| ==>
              && Fewer(flushes, flush)[f].thenRemnant == flushes[f].thenRemnant
              && Fewer(flushes, flush)[f].outstanding == flushes[f].outstanding - (if flush == Some(f) then 1 else 0)
  {
  }

  function ChunkDocs(inserts: seq<Insert>): seq<Chunk> {
    seq(|inserts|, i requires 0 <= i < |inserts| => inserts[i].chunk)
  }

  class GridFSBucketWriteStream {
    const chunkSizeBytes: nat
    const bufToStore: array<byte>
    var length: nat
    var n: nat
    var pos: nat
    var streamEnd: bool
    var outstandingRequests: int
    var errored: bool
    var aborted: bool
    var done: bool

    // what the collections were asked for, and the pending closures
    var inserts: seq<Insert>
    var flushes: seq<Flush>
    var filesDocs: seq<FilesDoc>

    ghost var written: Bytes
    ghost var remnantHandled: bool
    ghost var firstFailure: nat
    ghost var lastFlush: Option<nat>  // the flush whose callback writes the remnant

    /** The buffer and the issued chunks are the re-blocking of everything written. */
    ghost predicate Blocked()
      reads this, bufToStore
    {
      && 0 < chunkSizeBytes == bufToStore.Length
      && length == |written|
      && Buffered()
      && ChunkDocs(inserts) == (if remnantHandled then ChunksOf(written, chunkSizeBytes)
          else Full(written, chunkSizeBytes, 0))
    }

    ghost predicate Buffered()
      requires 0 < chunkSizeBytes == bufToStore.Length
      reads this, bufToStore
    {
      && n == |Full(written, chunkSizeBytes, 0)|
      && pos == |Rest(written, chunkSizeBytes)|
      && bufToStore[..pos] == Rest(written, chunkSizeBytes)
    }

    /** The two levels of counters count unacknowledged inserts; an error is remembered. */
    ghost predicate Counted()
      reads this
    {
      && outstandingRequests == Unacked(inserts) && FlushesCount(inserts, flushes)
      && FailuresKnown(inserts, errored, firstFailure)
    }

    /** An ended stream has handled its remnant, or waits for the write that will. */
    ghost predicate Ending()
      reads this
    {
      && (lastFlush.Some? ==> lastFlush.value < |flushes|)
      && (forall f :: 0 <= f < |flushes| ==> (flushes[f].thenRemnant <==> lastFlush == Some(f)))
      && (if streamEnd then remnantHandled == LastFlushAcked() else !remnantHandled && lastFlush.None?)
      && !(aborted && streamEnd)
    }

    ghost predicate LastFlushAcked()
      requires lastFlush.Some? ==> lastFlush.value < |flushes|
      reads this
    {
      lastFlush.Some? ==> flushes[lastFlush.value].outstanding == 0
    }

    /** The files document: at most one, for acknowledged chunks that are exactly those of the file. */
    ghost predicate Completed()
      reads this
    {
      && |filesDocs| <= 1
      && (done <==> filesDocs != [])
      && (done ==> remnantHandled && Unacked(inserts) == 0)
      && (done ==> filesDocs == [FilesDoc(|written|, chunkSizeBytes)])
    }

    /** Nothing left to wait for means the files document has been asked for. */
    ghost predicate Prompt()
      reads this
    {
      remnantHandled && outstandingRequests == 0 && !errored ==> done
    }

    ghost predicate Valid()
      reads this, bufToStore
    {
      Blocked() && Counted() && Ending() && Completed()
    }

    constructor (chunkSizeBytes: nat)
      requires chunkSizeBytes > 0
      ensures Valid() && Prompt() && fresh(bufToStore) && written == [] && !streamEnd && !aborted
      ensures this.chunkSizeBytes == chunkSizeBytes
    {
      this.chunkSizeBytes := chunkSizeBytes;
      bufToStore := new byte[chunkSizeBytes];
      length, n, pos := 0, 0, 0;
      streamEnd, outstandingRequests, errored, aborted, done := false, 0, false, false, false;
      inserts, flushes, filesDocs := [], [], [];
      written, remnantHandled, lastFlush, firstFailure := [], false, None, 0;
    }

    /** `chunks.insertOne(doc, ...)`: one more request is outstanding, for the stream and for the write. */
    method InsertChunk(data: Bytes, flush: Option<nat>)
      requires Counted() && (flush.Some? ==> flush.value < |flushes|)
      modifies this`outstandingRequests, this`inserts, this`flushes
      ensures Counted()
      ensures inserts == old(inserts) + [Insert(Chunk(n, data), flush, InFlight)]
      ensures flushes == OneMore(old(flushes), flush)
    {
      var issued := Insert(Chunk(n, data), flush, InFlight);
      IssuedCounts(inserts, flushes, errored, firstFailure, issued);
      outstandingRequests := outstandingRequests + 1;
      flushes := OneMore(flushes, flush);
      inserts := inserts + [issued];
    }

    /** One turn of the loop: copy a part into the buffer and flush the buffer when that fills it. */
    method Absorb(part: Bytes, flush: nat)
      requires 0 < chunkSizeBytes == bufToStore.Length && Buffered()
      requires ChunkDocs(inserts) == Full(written, chunkSizeBytes, 0)
      requires Counted() && flush < |flushes| && pos + |part| <= chunkSizeBytes
      modifies this`pos, this`n, this`outstandingRequests, this`inserts, this`flushes, this`written, bufToStore
      ensures written == old(written) + part
      ensures Buffered() && ChunkDocs(inserts) == Full(written, chunkSizeBytes, 0) && Counted()
      ensures pos == if old(pos) + |part| == chunkSizeBytes then 0 else old(pos) + |part|
      ensures |flushes| == |old(flushes)| && flushes[flush].thenRemnant == old(flushes)[flush].thenRemnant
      ensures forall f :: 0 <= f < |flushes| && f != flush ==> flushes[f] == old(flushes)[f]
      ensures flushes[flush].outstanding ==
          old(flushes)[flush].outstanding + (if old(pos) + |part| == chunkSizeBytes then 1 else 0)
    {
      StoreAt(part);
      if pos + |part| == chunkSizeBytes {
        Flushed(written, part, chunkSizeBytes);
        assert bufToStore[..] == bufToStore[..chunkSizeBytes];
        ghost var docs := ChunkDocs(inserts);
        InsertChunk(bufToStore[..], Some(flush));
        assert ChunkDocs(inserts) == docs + [Chunk(n, bufToStore[..])];
        pos := 0;
        n := n + 1;
      } else {
        Kept(written, part, chunkSizeBytes);
        pos := pos + |part|;
      }
      written := written + part;
    }

    /**
     * `doWrite`: a chunk that fits stays in the buffer, otherwise every full buffer is flushed. The result is the
     * flush whose acknowledgements the callback waits for, if there is one. The abort check inside the loop cannot
     * fire, since nothing else runs between it and the check at the start.
     */
    method DoWrite(chunk: Bytes, thenRemnant: bool) returns (r: Result<Option<nat>, StreamError>)
      requires Blocked() && Counted() && !remnantHandled
      modifies this`length, this`pos, this`n, this`outstandingRequests, this`inserts, this`flushes, this`written,
               bufToStore
      ensures Blocked() && Counted()
      ensures aborted ==> r == Err(StreamAborted) && written == old(written)
      ensures aborted ==> inserts == old(inserts) && flushes == old(flushes)
      ensures !aborted ==> r.Ok? && written == old(written) + chunk
      ensures !aborted && r.value.None? ==> flushes == old(flushes) && inserts == old(inserts)
      ensures !aborted && r.value.Some? ==> r.value == Some(|old(flushes)|) && Launched(old(flushes), thenRemnant)
    {
      if aborted {
        return Err(StreamAborted);
      }
      if pos + |chunk| < chunkSizeBytes {
        // the input fits in the buffer
        Kept(written, chunk, chunkSizeBytes);
        StoreAt(chunk);
        pos := pos + |chunk|;
        written, length := written + chunk, length + |chunk|;
        return Ok(None);
      }
      var flush := FlushWrite(chunk, thenRemnant);
      length := length + |chunk|;
      r := Ok(Some(flush));
    }

    /** The input is too big for the current chunk: copy and flush until it is used up. */
    method FlushWrite(chunk: Bytes, thenRemnant: bool) returns (flush: nat)
      requires 0 < chunkSizeBytes == bufToStore.Length && Buffered()
      requires ChunkDocs(inserts) == Full(written, chunkSizeBytes, 0)
      requires Counted() && pos + |chunk| >= chunkSizeBytes
      modifies this`pos, this`n, this`outstandingRequests, this`inserts, this`flushes, this`written, bufToStore
      ensures written == old(written) + chunk && Buffered() && ChunkDocs(inserts) == Full(written, chunkSizeBytes, 0)
      ensures Counted() && flush == |old(flushes)| && Launched(old(flushes), thenRemnant)
    {
      flush := |flushes|;
      NoneYet(inserts, flush);
      flushes := flushes + [Flush(0, thenRemnant)];
      var inputBufRemaining := |chunk|;
      var numToCopy := Min(chunkSizeBytes - pos, |chunk|);
      assert old(written) + chunk[..0] == old(written);
      while inputBufRemaining > 0
        invariant 0 <= inputBufRemaining <= |chunk| && 0 <= pos < chunkSizeBytes
        invariant numToCopy == Min(chunkSizeBytes - pos, inputBufRemaining)
        invariant written == old(written) + chunk[..|chunk| - inputBufRemaining]
        invariant Buffered() && ChunkDocs(inserts) == Full(written, chunkSizeBytes, 0)
        invariant Counted() && |flushes| == flush + 1 && flushes[flush].thenRemnant == thenRemnant
        invariant forall f :: 0 <= f < flush ==> flushes[f] == old(flushes)[f]
        invariant flushes[flush].outstanding > 0 || pos + inputBufRemaining >= chunkSizeBytes
      {
        var inputBufPos := |chunk| - inputBufRemaining;
        Extends(old(written), chunk, inputBufPos, numToCopy);
        Absorb(chunk[inputBufPos..inputBufPos + numToCopy], flush);
        inputBufRemaining := inputBufRemaining - numToCopy;
        numToCopy := Min(chunkSizeBytes - pos, inputBufRemaining);
      }
      assert chunk[..|chunk|] == chunk;
    }

    /** One more flush than before, with inserts outstanding. */
    ghost predicate Launched(before: seq<Flush>, thenRemnant: bool)
      reads this
    {
      && |flushes| == |before| + 1 && (forall f :: 0 <= f < |before| ==> flushes[f] == before[f])
      && flushes[|before|].thenRemnant == thenRemnant && flushes[|before|].outstanding > 0
    }

    /** `copy` into the buffer at the current position. */
    method StoreAt(part: Bytes)
      requires pos + |part| <= bufToStore.Length
      modifies bufToStore
      ensures bufToStore[..pos + |part|] == old(bufToStore[..pos]) + part
    {
      Copy(part, bufToStore, pos, |part|);
      assert part[..|part|] == part;
      assert bufToStore[..pos + |part|] == bufToStore[..pos] + bufToStore[pos..pos + |part|];
    }

    // -------------------------------------------------------------- completion protocol

    /** A user's `write`. */
    method Write(chunk: Bytes) returns (r: Result<(), StreamError>)
      requires Valid() && !streamEnd
      modifies this`length, this`pos, this`n, this`outstandingRequests, this`inserts, this`flushes, this`written,
               bufToStore
      ensures Valid() && Prompt()
      ensures written == if aborted then old(written) else old(written) + chunk
      ensures r.Err? <==> aborted
    {
      assert NoneWritesRemnant(flushes) && !done;
      ghost var before := flushes;
      var _ := DoWrite(chunk, false);
      if flushes != before {
        LaunchedNone(before);
      }
      StillOpen();
      if aborted {
        return Err(StreamAborted);
      }
      r := Ok(());
    }

    lemma LaunchedNone(before: seq<Flush>)
      requires NoneWritesRemnant(before) && Launched(before, false)
      ensures NoneWritesRemnant(flushes)
    {
    }

    /** A stream that has not ended has nothing to complete. */
    lemma StillOpen()
      requires !streamEnd && !remnantHandled && lastFlush.None? && !done && filesDocs == []
      requires NoneWritesRemnant(flushes)
      ensures Ending() && Completed() && Prompt()
    {
    }

    /** `end`, with or without a last chunk, whose callback writes the remnant. */
    method End(chunk: Option<Bytes>) returns (r: Result<(), StreamError>)
      requires Valid() && !streamEnd
      modifies this`length, this`pos, this`n, this`outstandingRequests, this`inserts, this`flushes, this`written,
               bufToStore
      modifies this`streamEnd, this`lastFlush, this`remnantHandled, this`done, this`filesDocs
      ensures Valid() && Prompt()
      ensures aborted ==> r == Err(StreamAborted) && !streamEnd && written == old(written)
      ensures !aborted ==> r == Ok(()) && streamEnd
      ensures !aborted ==> written == old(written) + if chunk.Some? then chunk.value else []
    {
      if aborted {
        return Err(StreamAborted);
      }
      if chunk.None? {
        assert written + [] == written;
        streamEnd := true;
        WriteRemnant();
      } else {
        EndWith(chunk.value);
      }
      r := Ok(());
    }

    method EndWith(chunk: Bytes)
      requires Valid() && !streamEnd && !aborted
      modifies this`length, this`pos, this`n, this`outstandingRequests, this`inserts, this`flushes, this`written,
               bufToStore
      modifies this`streamEnd, this`lastFlush, this`remnantHandled, this`done, this`filesDocs
      ensures Valid() && Prompt() && streamEnd && written == old(written) + chunk
    {
      assert !done && !remnantHandled && lastFlush.None?;
      streamEnd := true;
      var flush := DoWrite(chunk, true);
      assert !done;
      if flush.value.None? {
        assert forall f :: 0 <= f < |flushes| ==> !flushes[f].thenRemnant;
        WriteRemnant();
      } else {
        AwaitFlush(flush.value.value);
      }
    }

    /** The last write has been flushed; its callback will write the remnant. */
    ghost method AwaitFlush(f: nat)
      requires Blocked() && Counted() && Completed() && streamEnd && !aborted && !remnantHandled
      requires f < |flushes| && flushes[f].thenRemnant && flushes[f].outstanding > 0
      requires forall g :: 0 <= g < |flushes| && g != f ==> !flushes[g].thenRemnant
      modifies this`lastFlush
      ensures Valid() && Prompt()
    {
      lastFlush := Some(f);
    }

    /**
     * `writeRemnant`. Its re-check of `aborted` cannot fire: `end` refuses an aborted stream and `abort` an ended one,
     * which is what the precondition records.
     */
    method WriteRemnant()
      requires Blocked() && Counted() && Completed()
      requires streamEnd && !remnantHandled && !aborted && (lastFlush.Some? ==> lastFlush.value < |flushes|)
      requires LastFlushAcked()
      requires forall f :: 0 <= f < |flushes| ==> (flushes[f].thenRemnant <==> lastFlush == Some(f))
      modifies this`outstandingRequests, this`inserts, this`done, this`filesDocs, this`remnantHandled
      ensures Valid() && Prompt() && remnantHandled && old(inserts) <= inserts
    {
      if pos == 0 {
        remnantHandled := true;
        assert Blocked() && Ending() && Completed();
        CheckDone();
      } else {
        var remnant := bufToStore[..pos];
        IssueRemnant(remnant);
        remnantHandled := true;
        assert Blocked() && Completed();
        assert Ending();
      }
    }

    method IssueRemnant(remnant: Bytes)
      requires Counted()
      modifies this`outstandingRequests, this`inserts
      ensures Counted() && ChunkDocs(inserts) == ChunkDocs(old(inserts)) + [Chunk(n, remnant)]
      ensures outstandingRequests > 0 && old(inserts) <= inserts
    {
      var issued := Insert(Chunk(n, remnant), None, InFlight);
      IssuedCounts(inserts, flushes, errored, firstFailure, issued);
      assert OneMore(flushes, None) == flushes;
      DocsSnoc(inserts, issued);
      outstandingRequests := outstandingRequests + 1;
      inserts := inserts + [issued];
    }

    /** `checkDone`: `done` is set first, so that the files document is created once. */
    method CheckDone()
      requires Valid()
      modifies this`done, this`filesDocs
      ensures Valid()
      ensures done == (old(done) || (streamEnd && outstandingRequests == 0 && !errored))
    {
      if !done && streamEnd && outstandingRequests == 0 && !errored {
        if lastFlush.Some? {
          HasUnacked(inserts, lastFlush.value);
        }
        done := true;
        filesDocs := filesDocs + [FilesDoc(length, chunkSizeBytes)];
      }
    }

    /** The acknowledgement of one chunk insert. */
    method ChunkInserted(i: nat)
      requires Valid() && Prompt() && i < |inserts| && inserts[i].status == InFlight
      modifies this`inserts, this`outstandingRequests, this`flushes, this`done, this`filesDocs, this`remnantHandled
      ensures Valid() && Prompt()
      ensures AckedIn(old(inserts), inserts, i)
      ensures remnantHandled == old(remnantHandled) ==> |inserts| == |old(inserts)|
      ensures old(remnantHandled) ==> remnantHandled
    {
      var flush := inserts[i].flush;
      Decrement(i);
      if flush.None? {
        CheckDone();
      } else {
        Notify(flush.value);
      }
    }

    /** Both counters go down; the callback of the write may now be due. */
    method Decrement(i: nat)
      requires Valid() && i < |inserts| && inserts[i].status == InFlight
      modifies this`inserts, this`outstandingRequests, this`flushes
      ensures Blocked() && Counted() && Completed() && AckedIn(old(inserts), inserts, i)
      ensures |inserts| == |old(inserts)| && |flushes| == |old(flushes)|
      ensures old(inserts)[i].flush.None? ==> Ending()
      ensures old(inserts)[i].flush.Some? ==> Notifiable(old(inserts)[i].flush.value)
    {
      DoneIsSettled(i);
      DueOrNot(inserts[i].flush);
      Settle(i);
    }

    /** The write `f` may have been acknowledged fully; then its callback is due if it has one. */
    ghost predicate Notifiable(f: nat)
      reads this
    {
      f < |flushes| &&
        if flushes[f].thenRemnant && flushes[f].outstanding == 0 then RemnantDue(f) else Ending()
    }

    /** What one acknowledgement less to wait for means for the end of the stream. */
    lemma DueOrNot(flush: Option<nat>)
      requires Valid() && (flush.Some? ==> flush.value < |flushes| && flushes[flush.value].outstanding > 0)
      ensures var fewer := Fewer(flushes, flush);
              var due := flush.Some? && fewer[flush.value].outstanding == 0 && fewer[flush.value].thenRemnant;
              && |fewer| == |flushes|
              && (forall f :: 0 <= f < |fewer| ==> (fewer[f].thenRemnant <==> lastFlush == Some(f)))
              && (due ==> streamEnd && !remnantHandled && !aborted && lastFlush == flush)
              && (!due && streamEnd ==>
                    (remnantHandled <==> (lastFlush.Some? ==> fewer[lastFlush.value].outstanding == 0)))
    {
      FewerEach(flushes, flush);
    }

    /** The write `f` has been acknowledged fully, and its callback writes the remnant. */
    ghost predicate RemnantDue(f: nat)
      reads this
    {
      && f < |flushes| && flushes[f].outstanding == 0 && lastFlush == Some(f)
      && streamEnd && !remnantHandled && !aborted
      && forall g :: 0 <= g < |flushes| ==> (flushes[g].thenRemnant <==> g == f)
    }

    /** The insert of a write has been acknowledged: when it was the last of it, the callback runs, then the check. */
    method Notify(f: nat)
      requires Blocked() && Counted() && Completed() && Notifiable(f)
      modifies this`outstandingRequests, this`inserts, this`done, this`filesDocs, this`remnantHandled
      ensures Valid() && Prompt() && old(inserts) <= inserts
      ensures remnantHandled == old(remnantHandled) ==> inserts == old(inserts)
      ensures old(remnantHandled) ==> remnantHandled
    {
      if flushes[f].outstanding == 0 {
        if flushes[f].thenRemnant {
          WriteRemnant();
        }
        CheckDone();
      } else {
        HasUnacked(inserts, f);
      }
    }

    /** The two decrements. */
    method Settle(i: nat)
      requires Blocked() && Counted() && i < |inserts| && inserts[i].status == InFlight
      modifies this`inserts, this`outstandingRequests, this`flushes
      ensures Blocked() && Counted() && inserts == old(inserts)[i := old(inserts)[i].(status := Acked)]
      ensures inserts[i].flush == old(inserts)[i].flush
      ensures flushes == Fewer(old(flushes), inserts[i].flush)
    {
      AckTotal(inserts, i);
      SameDocs(inserts, i, Acked);
      AckFlushes(inserts, flushes, i);
      AckFailures(inserts, errored, firstFailure, i);
      var flush := inserts[i].flush;
      inserts := inserts[i := inserts[i].(status := Acked)];
      outstandingRequests := outstandingRequests - 1;
      flushes := Fewer(flushes, flush);
    }

    /** An acknowledgement cannot arrive after completion, and its write still counts it. */
    lemma DoneIsSettled(i: nat)
      requires Valid() && i < |inserts| && inserts[i].status == InFlight
      ensures !done
      ensures inserts[i].flush.Some? ==> flushes[inserts[i].flush.value].outstanding > 0
    {
      AckCounts(inserts, i);
    }

    /** A failed chunk insert: the request stays outstanding for ever. */
    method ChunkFailed(i: nat)
      requires Valid() && i < |inserts| && inserts[i].status == InFlight
      modifies this`inserts, this`errored, this`firstFailure
      ensures Valid() && errored && inserts == old(inserts)[i := old(inserts)[i].(status := Failed)]
    {
      FailedCounts(inserts, flushes, errored, firstFailure, i);
      SameDocs(inserts, i, Failed);
      firstFailure := if errored then firstFailure else i;
      errored := true;
      inserts := inserts[i := inserts[i].(status := Failed)];
    }

    method Abort() returns (r: Result<(), StreamError>)
      requires Valid()
      modifies this`aborted
      ensures Valid()
      ensures r == if streamEnd then Err(AlreadyCompleted) else if old(aborted) then Err(AlreadyAborted) else Ok(())
      ensures aborted == (old(aborted) || !streamEnd)
    {
      if streamEnd {
        return Err(AlreadyCompleted);
      }
      if aborted {
        return Err(AlreadyAborted);
      }
      aborted := true;
      r := Ok(());
    }
  }

  // ---------------------------------------------------------------- every interleaving

  datatype Event =
    | UserWrite(chunk: Bytes)
    | UserEnd(last: Option<Bytes>)
    | UserAbort
    | Acknowledged(i: nat)
    | Errored(i: nat)

  /** What an event contributes to the file: nothing once the stream is ended or aborted. */
  datatype Input = Input(written: Bytes, ended: bool, aborted: bool)

  function Contribute(input: Input, event: Event): Input {
    if input.ended || input.aborted then input else
    match event
    case UserWrite(chunk) => input.(written := input.written + chunk)
    case UserEnd(last) => Input(input.written + (if last.Some? then last.value else []), true, false)
    case UserAbort => input.(aborted := true)
    case _ => input
  }

  function InputOf(events: seq<Event>): Input {
    if events == [] then Input([], false, false)
    else Contribute(InputOf(events[..|events| - 1]), events[|events| - 1])
  }

  ghost function InputSoFar(stream: GridFSBucketWriteStream): Input
    reads stream
  {
    Input(stream.written, stream.streamEnd, stream.aborted)
  }

  method Apply(stream: GridFSBucketWriteStream, event: Event)
    requires stream.Valid() && stream.Prompt()
    modifies stream, stream.bufToStore
    ensures stream.Valid() && stream.Prompt()
    ensures !event.Errored? ==> stream.errored == old(stream.errored)
    ensures InputSoFar(stream) == Contribute(old(InputSoFar(stream)), event)
  {
    if event.Acknowledged? || event.Errored? {
      Answer(stream, event.i, event.Acknowledged?);
    } else {
      Call(stream, event);
    }
  }

  /** A call of the user; after `end` nothing is written, and there is no second one. */
  method Call(stream: GridFSBucketWriteStream, event: Event)
    requires stream.Valid() && stream.Prompt() && !event.Acknowledged? && !event.Errored?
    modifies stream, stream.bufToStore
    ensures stream.Valid() && stream.Prompt() && stream.errored == old(stream.errored)
    ensures InputSoFar(stream) == Contribute(old(InputSoFar(stream)), event)
  {
    match event {
      case UserWrite(chunk) =>
        if !stream.streamEnd {
          var _ := stream.Write(chunk);
        }
      case UserEnd(last) =>
        if !stream.streamEnd {
          var _ := stream.End(last);
        }
      case UserAbort =>
        var _ := stream.Abort();
    }
  }

  /** The server's answer to one insert in flight. */
  method Answer(stream: GridFSBucketWriteStream, i: nat, inserted: bool)
    requires stream.Valid() && stream.Prompt()
    modifies stream`inserts, stream`outstandingRequests, stream`flushes, stream`done, stream`filesDocs,
             stream`remnantHandled
    modifies stream`errored, stream`firstFailure
    ensures stream.Valid() && stream.Prompt()
    ensures inserted ==> stream.errored == old(stream.errored)
    ensures i < |old(stream.inserts)| ==> i < |stream.inserts| && stream.inserts[i].status != InFlight
  {
    if i < |stream.inserts| && stream.inserts[i].status == InFlight {
      if inserted {
        stream.ChunkInserted(i);
      } else {
        stream.ChunkFailed(i);
      }
    }
  }

  method Play(chunkSize: nat, events: seq<Event>) returns (stream: GridFSBucketWriteStream)
    requires chunkSize > 0
    ensures fresh(stream) && fresh(stream.bufToStore) && stream.Valid() && stream.Prompt()
    ensures stream.chunkSizeBytes == chunkSize
    ensures InputOf(events) == InputSoFar(stream)
    ensures (forall k :: 0 <= k < |events| ==> !events[k].Errored?) ==> !stream.errored
  {
    stream := new GridFSBucketWriteStream(chunkSize);
    for k := 0 to |events|
      invariant stream.Valid() && stream.Prompt() && fresh(stream) && fresh(stream.bufToStore)
      invariant stream.chunkSizeBytes == chunkSize
      invariant InputOf(events[..k]) == InputSoFar(stream)
      invariant (forall j :: 0 <= j < k ==> !events[j].Errored?) ==> !stream.errored
    {
      InputNext(events, k);
      Apply(stream, events[k]);
    }
    assert events[..|events|] == events;
  }

  lemma InputNext(events: seq<Event>, k: nat)
    requires k < |events|
    ensures InputOf(events[..k + 1]) == Contribute(InputOf(events[..k]), events[k])
  {
    assert events[..k + 1][..k] == events[..k];
  }

  /** The files document, exactly when the stream has ended and all its inserts are acknowledged. */
  ghost predicate Stored(input: Input, chunkSize: nat, inserts: seq<Insert>, filesDocs: seq<FilesDoc>)
    requires chunkSize > 0
  {
    && |filesDocs| <= 1
    && (filesDocs != [] <==> input.ended && forall i :: 0 <= i < |inserts| ==> inserts[i].status == Acked)
    && (filesDocs != [] ==>
          && !input.aborted && filesDocs == [FilesDoc(|input.written|, chunkSize)]
          && ChunkDocs(inserts) == ChunksOf(input.written, chunkSize))
  }

  lemma ValidStored(stream: GridFSBucketWriteStream)
    requires stream.Valid() && stream.Prompt()
    ensures Stored(InputSoFar(stream), stream.chunkSizeBytes, stream.inserts, stream.filesDocs)
  {
    AllAcked(stream.inserts);
    if stream.lastFlush.Some? {
      HasUnacked(stream.inserts, stream.lastFlush.value);
    }
  }

  /**
   * Any interleaving of writes, one `end`, aborts, acknowledgements and errors: the files document is inserted at most
   * once, and then the stream was ended, every issued chunk insert was acknowledged, and the chunks and the length are
   * those of everything written. Conversely an ended stream whose inserts are all acknowledged has inserted it.
   */
  method RunUpload(chunkSize: nat, events: seq<Event>) returns (inserts: seq<Insert>, filesDocs: seq<FilesDoc>)
    requires chunkSize > 0
    ensures Stored(InputOf(events), chunkSize, inserts, filesDocs)
  {
    var stream := Play(chunkSize, events);
    ValidStored(stream);
    inserts, filesDocs := stream.inserts, stream.filesDocs;
  }

  /** The server acknowledges whatever is in flight, until nothing is. */
  method AcknowledgeAll(stream: GridFSBucketWriteStream)
    requires stream.Valid() && stream.Prompt()
    modifies stream`inserts, stream`outstandingRequests, stream`flushes, stream`done, stream`filesDocs,
             stream`remnantHandled
    ensures stream.Valid() && stream.Prompt()
    ensures forall i :: 0 <= i < |stream.inserts| ==> stream.inserts[i].status != InFlight
  {
    var i := 0;
    while i < |stream.inserts|
      invariant 0 <= i <= |stream.inserts| && stream.Valid() && stream.Prompt()
      invariant forall j :: 0 <= j < i ==> stream.inserts[j].status != InFlight
      decreases !stream.remnantHandled, |stream.inserts| - i
    {
      if stream.inserts[i].status == InFlight {
        stream.ChunkInserted(i);
      }
      i := i + 1;
    }
  }

  /** An upload that was ended, and of which no insert fails, is stored once the server has answered everything. */
  method FinishUpload(chunkSize: nat, events: seq<Event>) returns (inserts: seq<Insert>, filesDocs: seq<FilesDoc>)
    requires chunkSize > 0
    ensures Stored(InputOf(events), chunkSize, inserts, filesDocs)
    ensures InputOf(events).ended && (forall k :: 0 <= k < |events| ==> !events[k].Errored?) ==> filesDocs != []
  {
    var stream := Play(chunkSize, events);
    AcknowledgeAll(stream);
    ValidStored(stream);
    inserts, filesDocs := stream.inserts, stream.filesDocs;
  }

  function Min(a: int, b: int): int {
    if a <= b then a else b
  }

  lemma Extends(base: Bytes, chunk: Bytes, from: nat, count: nat)
    requires from + count <= |chunk|
    ensures base + chunk[..from] + chunk[from..from + count] == base + chunk[..from + count]
  {
    assert chunk[..from + count] == chunk[..from] + chunk[from..from + count];
  }

  lemma {:induction false} NoneYet(inserts: seq<Insert>, flush: nat)
    requires forall i :: 0 <= i < |inserts| && inserts[i].flush.Some? ==> inserts[i].flush.value < flush
    ensures UnackedOf(inserts, flush) == 0
  {
    if inserts != [] {
      NoneYet(inserts[..|inserts| - 1], flush);
    }
  }

  lemma DocsSnoc(inserts: seq<Insert>, issued: Insert)
    ensures ChunkDocs(inserts + [issued]) == ChunkDocs(inserts) + [issued.chunk]
  {
  }

  lemma SameDocs(inserts: seq<Insert>, i: nat, status: Status)
    requires i < |inserts|
    ensures ChunkDocs(inserts[i := inserts[i].(status := status)]) == ChunkDocs(inserts)
  {
  }

  lemma {:induction false} AckCounts(inserts: seq<Insert>, i: nat)
    requires i < |inserts| && inserts[i].status != Acked
    ensures var after := inserts[i := inserts[i].(status := Acked)];
            && Unacked(after) == Unacked(inserts) - 1
            && forall f: nat :: UnackedOf(after, f) ==
                UnackedOf(inserts, f) - (if inserts[i].flush == Some(f) then 1 else 0)
  {
    var last := |inserts| - 1;
    var after := inserts[i := inserts[i].(status := Acked)];
    if i == last {
      assert after[..last] == inserts[..last];
    } else {
      assert after[..last] == inserts[..last][i := inserts[i].(status := Acked)];
      AckCounts(inserts[..last], i);
    }
  }

  lemma AckTotal(inserts: seq<Insert>, i: nat)
    requires i < |inserts| && inserts[i].status == InFlight
    ensures Unacked(inserts[i := inserts[i].(status := Acked)]) == Unacked(inserts) - 1
  {
    AckCounts(inserts, i);
  }

  lemma AckFlushes(inserts: seq<Insert>, flushes: seq<Flush>, i: nat)
    requires FlushesCount(inserts, flushes) && i < |inserts| && inserts[i].status == InFlight
    ensures FlushesCount(inserts[i := inserts[i].(status := Acked)], Fewer(flushes, inserts[i].flush))
  {
    AckCounts(inserts, i);
  }

  lemma AckFailures(inserts: seq<Insert>, errored: bool, first: nat, i: nat)
    requires FailuresKnown(inserts, errored, first) && i < |inserts| && inserts[i].status == InFlight
    ensures FailuresKnown(inserts[i := inserts[i].(status := Acked)], errored, first)
  {
  }

  lemma {:induction false} FailCounts(inserts: seq<Insert>, i: nat)
    requires i < |inserts| && inserts[i].status == InFlight
    ensures var after := inserts[i := inserts[i].(status := Failed)];
            && Unacked(after) == Unacked(inserts)
            && forall f: nat :: UnackedOf(after, f) == UnackedOf(inserts, f)
  {
    var last := |inserts| - 1;
    var after := inserts[i := inserts[i].(status := Failed)];
    if i == last {
      assert after[..last] == inserts[..last];
    } else {
      assert after[..last] == inserts[..last][i := inserts[i].(status := Failed)];
      FailCounts(inserts[..last], i);
    }
  }

  /** The counters stay when an insert fails, and the failure is known. */
  lemma FailedCounts(inserts: seq<Insert>, flushes: seq<Flush>, errored: bool, first: nat, i: nat)
    requires FlushesCount(inserts, flushes) && FailuresKnown(inserts, errored, first)
    requires i < |inserts| && inserts[i].status == InFlight
    ensures var after := inserts[i := inserts[i].(status := Failed)];
            && Unacked(after) == Unacked(inserts) && FlushesCount(after, flushes)
            && FailuresKnown(after, true, if errored then first else i)
  {
    FailCounts(inserts, i);
  }

  lemma {:induction false} HasUnacked(inserts: seq<Insert>, f: nat)
    ensures UnackedOf(inserts, f) <= Unacked(inserts)
  {
    if inserts != [] {
      HasUnacked(inserts[..|inserts| - 1], f);
    }
  }

  lemma {:induction false} AllAcked(inserts: seq<Insert>)
    ensures Unacked(inserts) == 0 <==> forall i :: 0 <= i < |inserts| ==> inserts[i].status == Acked
  {
    if inserts != [] {
      AllAcked(inserts[..|inserts| - 1]);
    }
  }
}
