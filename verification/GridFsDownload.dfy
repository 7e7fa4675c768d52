/** Ranged reads of a stored file: seeking, trimming and validating chunks (src/gridfs/download.ts). */
module GridFsDownload {
  import opened Common
  import opened GridFsUpload

  datatype DownloadError =
    | StartUndefined
    | EndUndefined
    | StartBeyondFile
    | NegativeStart
    | EndBeforeStart
    | EndBeyondFile
    | ChunkIsMissing
    | ExtraChunk
    | ChunkIsWrongSize

  /** What a step of the stream leaves behind. */
  datatype Progress = More | Ended

  // Chunk arithmetic, defined by repetition so that every proof about it stays linear; `ChunkArithmetic` ties it to
  // division and multiplication.

  /** `Math.floor(x / y)` */
  function Floor(x: nat, y: nat): nat
    requires y > 0
  {
    if x < y then 0 else 1 + Floor(x - y, y)
  }

  /** `Math.ceil(x / y)` */
  function Ceil(x: nat, y: nat): nat
    requires y > 0
  {
    Floor(x + y - 1, y)
  }

  /** `k * y` */
  function Times(k: nat, y: nat): nat {
    if k == 0 then 0 else Times(k - 1, y) + y
  }

  lemma {:induction false} ChunkArithmetic(x: nat, y: nat)
    requires y > 0
    ensures Times(x, y) == x * y
    ensures Floor(x, y) == x / y
    ensures x % y == x - Times(Floor(x, y), y)
  {
    TimesIsProduct(x, y);
    FloorFacts(x, y);
    TimesIsProduct(Floor(x, y), y);
    DivisionUnique(x, y, Floor(x, y));
  }

  lemma {:induction false} TimesIsProduct(k: nat, y: nat)
    ensures Times(k, y) == k * y
  {
    if k > 0 {
      TimesIsProduct(k - 1, y);
    }
  }

  lemma DivisionUnique(x: nat, y: nat, q: nat)
    requires y > 0 && q * y <= x < q * y + y
    ensures q == x / y && x % y == x - q * y
  {
    var p := x / y;
    assert x == p * y + x % y;
    SameMultiple(x, y, p, q);
    SameMultiple(x, y, q, p);
  }

  lemma SameMultiple(x: nat, y: nat, p: nat, q: nat)
    requires p * y <= x < q * y + y
    ensures p <= q
  {
    if p > q {
      ProductMonotone(q + 1, p, y);
    }
  }

  lemma ProductMonotone(a: nat, b: nat, y: nat)
    requires a <= b
    ensures a * y <= b * y
  {
  }

  /** The chunks a cursor sorted by `n` delivers: those from `skip` on, at most `limit` of them (0 for no limit). */
  function Find(collection: seq<Chunk>, skip: nat, limit: nat): seq<Chunk> {
    var from := From(collection, skip);
    if limit == 0 || limit >= |from| then from else from[..limit]
  }

  function From(collection: seq<Chunk>, skip: nat): seq<Chunk> {
    if collection == [] then [] else
      (if collection[0].n >= skip then [collection[0]] else []) + From(collection[1..], skip)
  }

  class GridFSBucketReadStream {
    const start: Option<int>
    const end: Option<int>
    const file: FilesDoc
    var bytesToSkip: nat
    var bytesToTrim: nat
    var bytesRead: nat
    var expected: nat
    var expectedEnd: nat
    var cursor: seq<Chunk>
    var pushed: Bytes

    constructor (file: FilesDoc, start: Option<int>, end: Option<int>)
      ensures this.file == file && this.start == start && this.end == end && pushed == [] && cursor == []
      ensures bytesToSkip == bytesToTrim == bytesRead == expected == expectedEnd == 0
    {
      this.file, this.start, this.end := file, start, end;
      bytesToSkip, bytesToTrim, bytesRead, expected, expectedEnd, cursor, pushed := 0, 0, 0, 0, 0, [], [];
    }

    /** `init`, once the files document is known and the chunks collection can be queried. */
    method Init(collection: seq<Chunk>) returns (r: Result<Progress, DownloadError>)
      requires file.chunkSize > 0
      modifies this
      ensures pushed == old(pushed)
      ensures file.length == 0 ==> r == Ok(Ended)
      ensures file.length > 0 ==> r == (match RangeError(file, start, end) case Some(e) => Err(e) case None => Ok(More))
      ensures r == Ok(More) <==>
                file.length > 0 && start.Some? && end.Some? && 0 <= start.value <= end.value <= file.length
      ensures r == Ok(More) ==>
                && expected == Floor(start.value, file.chunkSize) && bytesRead == Times(expected, file.chunkSize)
                && bytesToSkip == start.value - bytesRead
                && expectedEnd == Ceil(end.value, file.chunkSize)
                && bytesToTrim == Times(expectedEnd, file.chunkSize) - end.value
                && expected <= expectedEnd && cursor == Find(collection, expected, expectedEnd - expected)
    {
      if file.length <= 0 {
        return Ok(Ended);
      }
      // handleStartOption
      if start.None? {
        return Err(StartUndefined);
      }
      if start.value > file.length {
        return Err(StartBeyondFile);
      }
      if start.value < 0 {
        return Err(NegativeStart);
      }
      if end.Some? && end.value < start.value {
        return Err(EndBeforeStart);
      }
      var skip := Floor(start.value, file.chunkSize);
      FloorFacts(start.value, file.chunkSize);
      bytesRead := Times(skip, file.chunkSize);
      expected := skip;
      bytesToSkip := start.value - bytesRead;
      expectedEnd := Ceil(file.length, file.chunkSize);
      // handleEndOption
      if end.None? {
        return Err(EndUndefined);
      }
      if end.value > file.length {
        return Err(EndBeyondFile);
      }
      var last := Ceil(end.value, file.chunkSize);
      CeilFacts(end.value, file.chunkSize);
      CeilMonotone(start.value, end.value, file.chunkSize);
      cursor := Find(collection, skip, last - skip);
      expectedEnd := last;
      bytesToTrim := Times(last, file.chunkSize) - end.value;
      r := Ok(More);
    }

    /** `doRead`: the next chunk must carry the expected number and length; what lies outside the range is cut off. */
    method DoRead() returns (r: Result<Progress, DownloadError>)
      requires file.chunkSize > 0 && bytesToTrim < file.chunkSize && end.Some? && end.value >= 0
      modifies this
      ensures cursor == if old(cursor) == [] then [] else old(cursor)[1..]
      ensures bytesToTrim == old(bytesToTrim) && expectedEnd == old(expectedEnd)
      ensures old(cursor) == [] ==> r == Ok(Ended) && pushed == old(pushed)
      ensures old(cursor) != [] ==>
                var problem := Mismatch(file, old(cursor)[0], old(expected), old(bytesRead));
                && (problem.Some? ==> r == Err(problem.value) && pushed == old(pushed))
                && (problem.None? && old(cursor)[0].data == [] ==> r == Ok(Ended) && pushed == old(pushed))
                && (problem.None? && old(cursor)[0].data != [] ==>
                      && r == Ok(More) && expected == old(expected) + 1
                      && bytesRead == old(bytesRead) + |old(cursor)[0].data|
                      && bytesToSkip == 0
                      && pushed == old(pushed) + Cut(old(cursor)[0].data, old(bytesToSkip),
                                                     SliceEnd(old(cursor)[0].data, old(expected) + 1 == expectedEnd)))
    {
      if cursor == [] {
        return Ok(Ended);
      }
      var doc := cursor[0];
      cursor := cursor[1..];
      var bytesRemaining := file.length - bytesRead;
      var expectedN := expected;
      expected := expected + 1;
      var expectedLength := Min(file.chunkSize, bytesRemaining);
      if doc.n > expectedN {
        return Err(ChunkIsMissing);
      }
      if doc.n < expectedN {
        return Err(ExtraChunk);
      }
      if |doc.data| != expectedLength {
        if bytesRemaining <= 0 {
          return Err(ExtraChunk);
        }
        return Err(ChunkIsWrongSize);
      }
      bytesRead := bytesRead + |doc.data|;
      if |doc.data| == 0 {
        return Ok(Ended);
      }
      var sliceStart := bytesToSkip;
      bytesToSkip := 0;
      var atEndOfStream := expectedN == expectedEnd - 1;
      var sliceEnd := |doc.data|;
      if atEndOfStream {
        sliceEnd := file.chunkSize - bytesToTrim;
      } else if end.value != 0 && end.value < |doc.data| {
        sliceEnd := end.value;
      }
      pushed := pushed + Cut(doc.data, sliceStart, sliceEnd);
      r := Ok(More);
    }

    /** Where the kept part of a chunk ends. */
    ghost function SliceEnd(data: Bytes, last: bool): nat
      requires end.Some? && end.value >= 0 && bytesToTrim < file.chunkSize
      reads this
    {
      if last then file.chunkSize - bytesToTrim
      else if end.value != 0 && end.value < |data| then end.value
      else |data|
    }
  }

  /** `buf.slice(start, end)`; an end of 0 is replaced by the length before the call. */
  function Cut(data: Bytes, start: nat, end: nat): Bytes {
    var hi := if end == 0 || end > |data| then |data| else end;
    if start < hi then data[start..hi] else []
  }

  /** The argument errors, in the order in which they are looked for. */
  function RangeError(file: FilesDoc, start: Option<int>, end: Option<int>): Option<DownloadError> {
    if start.None? then Some(StartUndefined)
    else if start.value > file.length then Some(StartBeyondFile)
    else if start.value < 0 then Some(NegativeStart)
    else if end.Some? && end.value < start.value then Some(EndBeforeStart)
    else if end.None? then Some(EndUndefined)
    else if end.value > file.length then Some(EndBeyondFile)
    else None
  }

  /** A range is refused exactly when it does not lie within the file, and each refusal has its own reason. */
  lemma RefusedRanges(file: FilesDoc, start: Option<int>, end: Option<int>)
    ensures var e := RangeError(file, start, end);
            var startFits := start.Some? && 0 <= start.value <= file.length;
            && (e == None <==> startFits && end.Some? && start.value <= end.value <= file.length)
            && (e == Some(StartUndefined) <==> start == None)
            && (e == Some(StartBeyondFile) <==> start.Some? && start.value > file.length)
            && (e == Some(NegativeStart) <==> start.Some? && start.value < 0)
            && (e == Some(EndUndefined) <==> startFits && end == None)
            && (e == Some(EndBeforeStart) <==> startFits && end.Some? && end.value < start.value)
            && (e == Some(EndBeyondFile) <==> startFits && end.Some? && end.value > file.length)
            && (e.Some? ==> e.value !in {ChunkIsMissing, ExtraChunk, ChunkIsWrongSize})
  {
  }

  /** What is wrong with a chunk, given its place in the file. */
  function Mismatch(file: FilesDoc, doc: Chunk, expected: nat, bytesRead: nat): Option<DownloadError> {
    var remaining := file.length - bytesRead;
    if doc.n > expected then Some(ChunkIsMissing)
    else if doc.n < expected then Some(ExtraChunk)
    else if |doc.data| == Min(file.chunkSize, remaining) then None
    else if remaining <= 0 then Some(ExtraChunk)
    else Some(ChunkIsWrongSize)
  }

  // ---------------------------------------------------------------- arithmetic of chunk boundaries

  lemma {:induction false} FloorFacts(x: nat, y: nat)
    requires y > 0
    ensures Times(Floor(x, y), y) <= x < Times(Floor(x, y), y) + y
  {
    if x >= y {
      FloorFacts(x - y, y);
    }
  }

  lemma CeilFacts(x: nat, y: nat)
    requires y > 0
    ensures x <= Times(Ceil(x, y), y) < x + y
  {
    FloorFacts(x + y - 1, y);
  }

  lemma CeilMonotone(a: nat, b: nat, y: nat)
    requires y > 0 && a <= b
    ensures Floor(a, y) <= Ceil(b, y)
  {
    FloorFacts(a, y);
    CeilFacts(b, y);
    NotBeyond(a, y, Floor(a, y), Ceil(b, y));
  }

  lemma NotBeyond(a: nat, y: nat, p: nat, q: nat)
    requires Times(p, y) <= a < Times(q, y) + y
    ensures p <= q
  {
    if p > q {
      TimesMonotone(q + 1, p, y);
    }
  }

  lemma {:induction false} TimesMonotone(a: nat, b: nat, y: nat)
    requires a <= b
    ensures Times(a, y) <= Times(b, y)
  {
    if a < b {
      TimesMonotone(a, b - 1, y);
    }
  }

  // ---------------------------------------------------------------- damaged files

  /** The chunk has its number and the size that a chunk of that number must have. */
  predicate Intact(file: FilesDoc, chunk: Chunk, n: nat) {
    var begin := Times(n, file.chunkSize);
    && chunk.n == n
    && |chunk.data| == if begin >= file.length then 0 else Min(file.chunkSize, file.length - begin)
  }

  /** What is reported of a chunk that is not intact. */
  predicate Reported(file: FilesDoc, chunk: Chunk, n: nat, e: DownloadError) {
    if chunk.n > n then e == ChunkIsMissing
    else if chunk.n < n || Times(n, file.chunkSize) >= file.length then e == ExtraChunk
    else e == ChunkIsWrongSize
  }

  /** The chunks that the cursor of a range delivers. */
  function Window(file: FilesDoc, docs: seq<Chunk>, start: nat, end: nat): seq<Chunk>
    requires file.chunkSize > 0 && start <= end
  {
    CeilMonotone(start, end, file.chunkSize);
    Find(docs, Floor(start, file.chunkSize), Ceil(end, file.chunkSize) - Floor(start, file.chunkSize))
  }

  /** `found` are the chunks from number `first` on, of which `read` have been read. */
  ghost predicate Underway(stream: GridFSBucketReadStream, found: seq<Chunk>, first: nat, read: nat)
    reads stream
  {
    && read <= |found| && stream.cursor == found[read..] && stream.expected == first + read
    && stream.file.chunkSize > 0 && stream.bytesToTrim < stream.file.chunkSize
    && stream.end.Some? && stream.end.value >= 0
    && stream.bytesRead == Min(Times(first + read, stream.file.chunkSize), stream.file.length)
  }

  /** What the next chunk leads to. */
  ghost predicate NextRead(file: FilesDoc, found: seq<Chunk>, first: nat, read: nat,
                           r: Result<Progress, DownloadError>) {
    && (r.Err? <==> read < |found| && !Intact(file, found[read], first + read))
    && (r.Err? ==> Reported(file, found[read], first + read, r.error))
    && (r == Ok(Ended) && read < |found| ==> found[read].data == [])
    && (r == Ok(More) ==> read < |found|)
  }

  /** Chunks were read while they were intact; then the first that is not was reported, or nothing was left. */
  ghost predicate Inspected(file: FilesDoc, found: seq<Chunk>, first: nat, read: nat,
                            r: Result<Progress, DownloadError>) {
    && read <= |found| && (forall i :: 0 <= i < read ==> Intact(file, found[i], first + i))
    && NextRead(file, found, first, read, r)
  }

  method ReadNext(stream: GridFSBucketReadStream, ghost found: seq<Chunk>, ghost first: nat, ghost read: nat)
    returns (r: Result<Progress, DownloadError>)
    requires Underway(stream, found, first, read)
    modifies stream
    ensures r == Ok(More) ==> Underway(stream, found, first, read + 1)
    ensures NextRead(stream.file, found, first, read, r)
  {
    r := stream.DoRead();
    if r == Ok(More) {
      assert found[read..][1..] == found[read + 1..];
    }
  }

  method OpenStream(file: FilesDoc, docs: seq<Chunk>, start: nat, end: nat) returns (stream: GridFSBucketReadStream)
    requires file.chunkSize > 0 && start <= end <= file.length && file.length > 0
    ensures fresh(stream) && stream.file == file
    ensures Underway(stream, Window(file, docs, start, end), Floor(start, file.chunkSize), 0)
  {
    stream := new GridFSBucketReadStream(file, Some(start), Some(end));
    var _ := stream.Init(docs);
    CeilFacts(end, file.chunkSize);
    FloorFacts(start, file.chunkSize);
  }

  /**
   * Reading any collection, damaged or not: chunks are taken while they are intact, and the first that is not is
   * reported. So a download without an error has read intact chunks only, in order.
   */
  method ReadChunks(file: FilesDoc, docs: seq<Chunk>, start: nat, end: nat)
    returns (r: Result<Progress, DownloadError>, read: nat)
    requires file.chunkSize > 0 && start <= end <= file.length && file.length > 0
    ensures var first, found := Floor(start, file.chunkSize), Window(file, docs, start, end);
            r != Ok(More) && Inspected(file, found, first, read, r)
  {
    var stream := OpenStream(file, docs, start, end);
    ghost var first, found := Floor(start, file.chunkSize), Window(file, docs, start, end);
    read := 0;
    r := ReadNext(stream, found, first, read);
    while r == Ok(More)
      invariant stream.file == file && Inspected(file, found, first, read, r)
      invariant r == Ok(More) ==> Underway(stream, found, first, read + 1)
      decreases r == Ok(More), |found| - read
    {
      read := read + 1;
      r := ReadNext(stream, found, first, read);
      OneMoreRead(file, found, first, read, r);
    }
  }

  lemma OneMoreRead(file: FilesDoc, found: seq<Chunk>, first: nat, read: nat, r: Result<Progress, DownloadError>)
    requires 0 < read <= |found| && Inspected(file, found, first, read - 1, Ok(More))
    requires Intact(file, found[read - 1], first + (read - 1)) && NextRead(file, found, first, read, r)
    ensures Inspected(file, found, first, read, r)
  {
  }
}
