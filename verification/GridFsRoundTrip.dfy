/** Uploading and then downloading a range (src/gridfs/upload.ts, src/gridfs/download.ts). */
module GridFsRoundTrip {
  import opened Common
  import opened GridFsUpload
  import opened GridFsDownload

  // ---------------------------------------------------------------- the k-th chunk of a file

  lemma {:induction false} FullCount(data: Bytes, size: nat, first: nat)
    requires size > 0
    ensures |Full(data, size, first)| == Floor(|data|, size)
    decreases |data|
  {
    if |data| >= size {
      FullCount(data[size..], size, first + 1);
    }
  }

  lemma {:induction false} RestShape(data: Bytes, size: nat)
    requires size > 0
    ensures Times(Floor(|data|, size), size) <= |data|
    ensures Rest(data, size) == data[Times(Floor(|data|, size), size)..]
    decreases |data|
  {
    if |data| >= size {
      var tail := data[size..];
      RestShape(tail, size);
      DropTwice(data, size, Times(Floor(|tail|, size), size));
    }
  }

  lemma DropTwice(data: Bytes, m: nat, n: nat)
    requires m + n <= |data|
    ensures data[m..][n..] == data[n + m..]
  {
  }

  lemma {:induction false} FullAt(data: Bytes, size: nat, first: nat, k: nat)
    requires size > 0 && k < |Full(data, size, first)|
    ensures Times(k, size) + size <= |data|
    ensures Full(data, size, first)[k] == Chunk(first + k, data[Times(k, size)..Times(k, size) + size])
    decreases |data|
  {
    if k > 0 {
      var t := Times(k - 1, size);
      FullAt(data[size..], size, first + 1, k - 1);
      SliceOfSlice(data, size, |data|, t, t + size);
      assert data[size..] == data[size..|data|];
    }
  }

  /** Chunk `k` of a stored file holds the bytes from `k * size` up to the next boundary or the end of the file. */
  lemma ChunkAt(data: Bytes, size: nat, k: nat)
    requires size > 0 && k < |ChunksOf(data, size)|
    ensures Times(k, size) < |data|
    ensures ChunksOf(data, size)[k] == Chunk(k, data[Times(k, size)..Min(Times(k, size) + size, |data|)])
  {
    if k < |Full(data, size, 0)| {
      FullPartAt(data, size, k);
    } else {
      RemnantAt(data, size, k);
    }
  }

  lemma FullPartAt(data: Bytes, size: nat, k: nat)
    requires size > 0 && k < |Full(data, size, 0)|
    ensures k < |ChunksOf(data, size)| && Times(k, size) < |data|
    ensures ChunksOf(data, size)[k] == Chunk(k, data[Times(k, size)..Min(Times(k, size) + size, |data|)])
  {
    FullAt(data, size, 0, k);
    FullChunk(Full(data, size, 0), Rest(data, size), ChunksOf(data, size), k);
  }

  lemma RemnantAt(data: Bytes, size: nat, k: nat)
    requires size > 0 && |Full(data, size, 0)| <= k < |ChunksOf(data, size)|
    ensures Times(k, size) < |data|
    ensures ChunksOf(data, size)[k] == Chunk(k, data[Times(k, size)..Min(Times(k, size) + size, |data|)])
  {
    FullCount(data, size, 0);
    RestShape(data, size);
    LastChunk(data, size, Full(data, size, 0), Rest(data, size), ChunksOf(data, size), Times(k, size));
  }

  lemma LastChunk(data: Bytes, size: nat, full: seq<Chunk>, rest: Bytes, docs: seq<Chunk>, t: nat)
    requires t <= |data| && rest == data[t..] && |rest| < size
    requires docs == if rest == [] then full else full + [Chunk(|full|, rest)]
    requires |docs| > |full|
    ensures t < |data| && docs[|full|] == Chunk(|full|, data[t..Min(t + size, |data|)])
  {
    assert data[t..] == data[t..|data|];
  }

  lemma FullChunk(full: seq<Chunk>, rest: Bytes, docs: seq<Chunk>, k: nat)
    requires docs == if rest == [] then full else full + [Chunk(|full|, rest)]
    requires k < |full|
    ensures k < |docs| && docs[k] == full[k]
  {
  }

  lemma ChunkCount(data: Bytes, size: nat)
    requires size > 0
    ensures |ChunksOf(data, size)| == Ceil(|data|, size)
  {
    FullCount(data, size, 0);
    RestShape(data, size);
    FloorFacts(|data|, size);
    CeilUnique(|data|, size, |ChunksOf(data, size)|);
  }

  lemma CeilUnique(x: nat, y: nat, c: nat)
    requires y > 0 && x <= Times(c, y) < x + y
    ensures c == Ceil(x, y)
  {
    CeilFacts(x, y);
    var d := Ceil(x, y);
    if c < d {
      TimesMonotone(c + 1, d, y);
    } else if d < c {
      TimesMonotone(d + 1, c, y);
    }
  }

  lemma {:induction false} FromNumbered(collection: seq<Chunk>, skip: nat, base: nat)
    requires forall i :: 0 <= i < |collection| ==> collection[i].n == base + i
    ensures From(collection, skip) ==
              if skip <= base then collection else if skip - base <= |collection| then collection[skip - base..] else []
    decreases |collection|
  {
    if collection != [] {
      FromNumbered(collection[1..], skip, base + 1);
      HeadTail(collection);
    }
  }

  // ---------------------------------------------------------------- reading a range

  /** `x` is a multiple of `size`, in other words the first byte of a chunk. */
  predicate OnBoundary(x: nat, size: nat)
    requires size > 0
  {
    x == Times(Floor(x, size), size)
  }

  /**
   * The bytes a valid range is served: an empty range that starts on a chunk boundary is read to the end of the file.
   */
  function Served(data: Bytes, size: nat, start: nat, end: nat): Bytes
    requires size > 0 && start <= end <= |data|
  {
    if start == end && OnBoundary(start, size) then data[start..] else data[start..end]
  }

  /** The chunks the cursor delivers for a valid range. */
  lemma CursorRange(data: Bytes, size: nat, start: nat, end: nat) returns (stop: nat)
    requires size > 0 && start <= end <= |data|
    ensures Floor(start, size) <= stop <= |ChunksOf(data, size)| && Floor(start, size) <= Ceil(end, size)
    ensures Find(ChunksOf(data, size), Floor(start, size), Ceil(end, size) - Floor(start, size))
         == ChunksOf(data, size)[Floor(start, size)..stop]
    ensures stop == if start == end && OnBoundary(start, size) then Ceil(|data|, size) else Ceil(end, size)
  {
    var docs, skip, last := ChunksOf(data, size), Floor(start, size), Ceil(end, size);
    ChunkCount(data, size);
    CeilMonotone(start, |data|, size);
    CeilOrder(end, |data|, size);
    EmptyLimit(start, end, size);
    stop := if start == end && OnBoundary(start, size) then |docs| else last;
    Numbered(data, size);
    FindNumbered(docs, skip, last);
  }

  lemma Numbered(data: Bytes, size: nat)
    requires size > 0
    ensures forall i :: 0 <= i < |ChunksOf(data, size)| ==> ChunksOf(data, size)[i].n == i
  {
    forall i | 0 <= i < |ChunksOf(data, size)|
      ensures ChunksOf(data, size)[i].n == i
    {
      ChunkAt(data, size, i);
    }
  }

  /** What the cursor finds among chunks numbered from 0: those of the window, or all from its start if it is empty. */
  lemma FindNumbered(docs: seq<Chunk>, skip: nat, last: nat)
    requires skip <= last <= |docs| && forall i :: 0 <= i < |docs| ==> docs[i].n == i
    ensures Find(docs, skip, last - skip) == docs[skip..if last == skip then |docs| else last]
  {
    FromNumbered(docs, skip, 0);
    var from := docs[skip..];
    assert docs[skip..|docs|] == from;
    if last > skip {
      assert from[..last - skip] == docs[skip..last];
      if last - skip == |from| {
        assert from[..last - skip] == from;
      }
    }
  }

  lemma CeilOrder(a: nat, b: nat, y: nat)
    requires y > 0 && a <= b
    ensures Ceil(a, y) <= Ceil(b, y)
  {
    CeilFacts(a, y);
    CeilFacts(b, y);
    if Ceil(a, y) > Ceil(b, y) {
      TimesMonotone(Ceil(b, y) + 1, Ceil(a, y), y);
    }
  }

  /** The limit is 0, which means no limit, exactly for an empty range on a chunk boundary. */
  lemma EmptyLimit(start: nat, end: nat, size: nat)
    requires size > 0 && start <= end
    ensures Floor(start, size) <= Ceil(end, size)
    ensures Ceil(end, size) == Floor(start, size) <==> start == end && OnBoundary(start, size)
  {
    CeilMonotone(start, end, size);
    CeilFacts(end, size);
    FloorFacts(start, size);
    var q := Floor(start, size);
    if start == end && OnBoundary(start, size) {
      CeilUnique(end, size, q);
    }
  }

  /** Where serving stops. */
  function Limit(data: Bytes, size: nat, a: nat, b: nat): nat
    requires size > 0
  {
    if a == b && OnBoundary(a, size) then |data| else b
  }

  /** What has been pushed once the chunks before `k` are read. */
  function Piece(data: Bytes, size: nat, a: nat, b: nat, k: nat): Bytes
    requires size > 0 && a <= b <= |data|
  {
    if Times(k, size) <= a then [] else data[a..Min(Times(k, size), Limit(data, size, a, b))]
  }

  /** Reading chunk `k`: it passes validation, and the part that is kept continues what was pushed. */
  lemma OneChunk(data: Bytes, size: nat, a: nat, b: nat, k: nat, stop: nat, doc: Chunk)
    requires size > 0 && a <= b <= |data| && Floor(a, size) <= k < stop && Times(k, size) < |data|
    requires stop == if a == b && OnBoundary(a, size) then Ceil(|data|, size) else Ceil(b, size)
    requires doc == Chunk(k, data[Times(k, size)..Min(Times(k, size) + size, |data|)])
    ensures && Mismatch(FilesDoc(|data|, size), doc, k, Times(k, size)) == None
            && doc.data != [] && Times(k, size) + |doc.data| == Min(Times(k, size) + size, |data|)
            && Piece(data, size, a, b, k + 1)
            == Piece(data, size, a, b, k) + Cut(doc.data, SkipAt(size, a, k), StopAt(size, b, k, |doc.data|))
  {
    var lo, hi := Times(k, size), Min(Times(k, size) + size, |data|);
    KeptPart(data, size, a, b, k, stop);
    Matches(data, size, k, lo, doc);
    PieceStep(data, a, lo, Times(k + 1, size), Limit(data, size, a, b), SkipAt(size, a, k), StopAt(size, b, k, hi - lo),
              Piece(data, size, a, b, k), Piece(data, size, a, b, k + 1),
              Cut(doc.data, SkipAt(size, a, k), StopAt(size, b, k, |doc.data|)));
  }

  lemma Matches(data: Bytes, size: nat, k: nat, lo: nat, doc: Chunk)
    requires size > 0 && lo < |data| && doc == Chunk(k, data[lo..Min(lo + size, |data|)])
    ensures Mismatch(FilesDoc(|data|, size), doc, k, lo) == None
    ensures doc.data != [] && lo + |doc.data| == Min(lo + size, |data|)
  {
  }

  /** The same between two boundaries `lo` and `next`. */
  lemma PieceStep(data: Bytes, a: nat, lo: nat, next: nat, limit: nat, skip: nat, end: nat, before: Bytes,
                  after: Bytes, kept: Bytes)
    requires lo < next && lo < |data| && a < next && lo < limit <= |data| && a <= limit
    requires skip == Max(a, lo) - lo && end > 0
    requires Min(end, Min(next, |data|) - lo) == Min(Min(next, |data|), limit) - lo
    requires before == if lo <= a then [] else data[a..Min(lo, limit)]
    requires after == data[a..Min(next, limit)]
    requires kept == Cut(data[lo..Min(next, |data|)], skip, end)
    ensures after == before + kept
  {
    CutSlice(data, lo, Min(next, |data|), skip, end, Min(next, limit));
    Grow(data, a, lo, Min(next, limit));
  }

  /** Cutting a chunk that starts at `lo` cuts the file from `lo + skip` to `to`. */
  lemma CutSlice(data: Bytes, lo: nat, hi: nat, skip: nat, end: nat, to: nat)
    requires lo <= hi <= |data| && end > 0 && lo <= to && Min(end, hi - lo) == to - lo
    ensures Cut(data[lo..hi], skip, end) == if lo + skip < to then data[lo + skip..to] else []
  {
    if lo + skip < to {
      SliceOfSlice(data, lo, hi, skip, to - lo);
    }
  }

  /** Appending the next part to what starts at `a`. */
  lemma Grow(data: Bytes, a: nat, lo: nat, to: nat)
    requires lo <= to <= |data| && a <= to
    ensures data[a..to]
         == (if lo <= a then [] else data[a..lo]) + (if Max(a, lo) < to then data[Max(a, lo)..to] else [])
  {
  }

  function Max(a: int, b: int): int {
    if a <= b then b else a
  }

  function SkipAt(size: nat, a: nat, k: nat): nat {
    if Times(k, size) <= a then a - Times(k, size) else 0
  }

  /** The slice end of the code for chunk `k`. */
  function StopAt(size: nat, b: nat, k: nat, length: nat): (r: nat)
    requires size > 0
  {
    if k + 1 == Ceil(b, size) then CeilFacts(b, size); size - (Times(Ceil(b, size), size) - b)
    else if b != 0 && b < length then b
    else length
  }

  /** In file positions, the part of chunk `k` that survives the cut. */
  predicate KeepsPart(data: Bytes, size: nat, a: nat, b: nat, k: nat)
    requires size > 0
  {
    var lo, hi := Times(k, size), Min(Times(k, size) + size, |data|);
    lo < hi &&
      var end := StopAt(size, b, k, hi - lo);
      && a < lo + size && lo < Limit(data, size, a, b)
      && SkipAt(size, a, k) == Max(a, lo) - lo
      && end > 0 && Min(end, hi - lo) == Min(hi, Limit(data, size, a, b)) - lo
  }

  lemma KeptPart(data: Bytes, size: nat, a: nat, b: nat, k: nat, stop: nat)
    requires size > 0 && a <= b <= |data| && Floor(a, size) <= k < stop && Times(k, size) < |data|
    requires stop == if a == b && OnBoundary(a, size) then Ceil(|data|, size) else Ceil(b, size)
    ensures KeepsPart(data, size, a, b, k)
  {
    FloorFacts(a, size);
    TimesMonotone(Floor(a, size), k, size);
    if a == b && OnBoundary(a, size) {
      KeptToEnd(data, size, a, k);
    } else if k + 1 == stop {
      KeptLast(data, size, a, b, k);
    } else {
      KeptWhole(data, size, a, b, k);
    }
  }

  /** An empty range on a boundary: no chunk is trimmed, since the trimmed one would lie before. */
  lemma KeptToEnd(data: Bytes, size: nat, a: nat, k: nat)
    requires size > 0 && OnBoundary(a, size) && a < Times(k, size) + size && Times(k, size) < |data| && a <= |data|
    requires Floor(a, size) <= k
    ensures KeepsPart(data, size, a, a, k)
  {
    TimesMonotone(Floor(a, size), k, size);
    CeilUnique(a, size, Floor(a, size));
    if a != 0 {
      AtLeastOne(a, size);
    }
  }

  /** A boundary other than 0 is at least one chunk away. */
  lemma AtLeastOne(a: nat, size: nat)
    requires size > 0 && OnBoundary(a, size) && a != 0
    ensures a >= size
  {
    TimesMonotone(1, Floor(a, size), size);
    assert Times(1, size) == Times(0, size) + size;
  }

  /** The last chunk of a range is trimmed. */
  lemma KeptLast(data: Bytes, size: nat, a: nat, b: nat, k: nat)
    requires size > 0 && a <= b <= |data| && a < Times(k, size) + size && Times(k, size) < |data|
    requires k + 1 == Ceil(b, size) && !(a == b && OnBoundary(a, size))
    ensures KeepsPart(data, size, a, b, k)
  {
    CeilFacts(b, size);
    assert Times(k + 1, size) == Times(k, size) + size;
  }

  /** A chunk before the last is kept to its end. */
  lemma KeptWhole(data: Bytes, size: nat, a: nat, b: nat, k: nat)
    requires size > 0 && a <= b <= |data| && a < Times(k, size) + size && Times(k, size) < |data|
    requires k + 1 < Ceil(b, size) && !(a == b && OnBoundary(a, size))
    ensures KeepsPart(data, size, a, b, k)
  {
    CeilFacts(b, size);
    TimesMonotone(k + 2, Ceil(b, size), size);
    assert Times(k + 2, size) == Times(k + 1, size) + size == Times(k, size) + size + size;
  }

  lemma PieceDone(data: Bytes, size: nat, a: nat, b: nat, stop: nat)
    requires size > 0 && a <= b <= |data| && Floor(a, size) <= stop
    requires stop == if a == b && OnBoundary(a, size) then Ceil(|data|, size) else Ceil(b, size)
    ensures Piece(data, size, a, b, stop) == Served(data, size, a, b)
  {
    CeilFacts(b, size);
    CeilFacts(|data|, size);
    EmptyLimit(a, b, size);
    if Times(stop, size) <= a {
      assert Served(data, size, a, b) == [];
    }
  }

  /**
   * What a download of stored bytes answers. A range within the file is served as asked; only an empty one on a chunk
   * boundary is served to the end of the file. Any other range is refused, and nothing is pushed.
   */
  ghost predicate Downloads(data: Bytes, size: nat, start: Option<int>, end: Option<int>, pushed: Bytes,
                            r: Result<Progress, DownloadError>)
    requires size > 0
  {
    var within := start.Some? && end.Some? && 0 <= start.value <= end.value <= |data|;
    && (r == Ok(Ended) <==> data == [] || within)
    && (data == [] ==> pushed == [])
    && (r != Ok(Ended) ==> r.Err? && pushed == [] && Refusal(|data|, start, end, r.error))
    && (within && start.value < end.value ==> pushed == data[start.value..end.value])
    && (within && start.value == end.value ==> pushed == if start.value % size == 0 then data[start.value..] else [])
  }

  /** The default options serve the whole file. */
  lemma DefaultServesAll(data: Bytes, size: nat, pushed: Bytes, r: Result<Progress, DownloadError>)
    requires size > 0 && Downloads(data, size, Some(0), Some(0), pushed, r)
    ensures r == Ok(Ended) && pushed == data
  {
    assert data[0..] == data && 0 % size == 0;
  }

  /** The reason for which a range is refused. */
  predicate Refusal(length: nat, start: Option<int>, end: Option<int>, e: DownloadError) {
    match e
    case StartUndefined => start == None
    case StartBeyondFile => start.Some? && start.value > length
    case NegativeStart => start.Some? && start.value < 0
    case EndUndefined => start.Some? && end == None
    case EndBeforeStart => start.Some? && end.Some? && end.value < start.value
    case EndBeyondFile => end.Some? && end.value > length
    case _ => false
  }

  /** The recursive chunk arithmetic says of a boundary what `%` does. */
  lemma ServedRange(data: Bytes, size: nat, start: nat, end: nat)
    requires size > 0 && start <= end <= |data|
    ensures Served(data, size, start, end) ==
              if start < end then data[start..end] else if start % size == 0 then data[start..] else []
  {
    ChunkArithmetic(start, size);
  }

  /** Reading a stored file: argument errors are reported, everything else is served without error. */
  method ReadRange(file: FilesDoc, docs: seq<Chunk>, start: Option<int>, end: Option<int>, ghost data: Bytes)
    returns (pushed: Bytes, r: Result<Progress, DownloadError>)
    requires file.chunkSize > 0 && file.length == |data| && docs == ChunksOf(data, file.chunkSize)
    ensures Downloads(data, file.chunkSize, start, end, pushed, r)
  {
    ghost var size := file.chunkSize;
    var stream := new GridFSBucketReadStream(file, start, end);
    r := stream.Init(docs);
    RefusedRanges(file, start, end);
    if r != Ok(More) {
      return stream.pushed, r;
    }
    ghost var a, b := start.value, end.value;
    ghost var stop := CursorRange(data, size, a, b);
    ghost var k := Floor(a, size);
    CeilFacts(b, size);
    FloorFacts(a, size);
    ChunkCount(data, size);
    assert stream.pushed == Piece(data, size, a, b, k);
    assert Reading(stream, data, a, b, k, stop);
    pushed, r := Drain(stream, data, a, b, k, stop);
    PieceDone(data, size, a, b, stop);
    ServedRange(data, size, a, b);
  }

  method Drain(stream: GridFSBucketReadStream, ghost data: Bytes, ghost a: nat, ghost b: nat, ghost first: nat,
               ghost stop: nat)
    returns (pushed: Bytes, r: Result<Progress, DownloadError>)
    requires Reading(stream, data, a, b, first, stop)
    modifies stream
    ensures r == Ok(Ended) && stream.file.chunkSize > 0 && pushed == Piece(data, stream.file.chunkSize, a, b, stop)
  {
    ghost var k := first;
    r := Ok(More);
    while r == Ok(More)
      invariant stream.file.chunkSize > 0 && a <= b <= |data| && k <= stop
      invariant r == Ok(More) || (r == Ok(Ended) && k == stop)
      invariant r == Ok(More) ==> Reading(stream, data, a, b, k, stop)
      invariant stream.pushed == Piece(data, stream.file.chunkSize, a, b, k)
      decreases r == Ok(More), stop - k
    {
      r := ReadOne(stream, data, a, b, k, stop);
      k := if r == Ok(More) then k + 1 else k;
    }
    pushed := stream.pushed;
  }

  /** The stream is about to read chunk `k` of a stored file. */
  ghost predicate Reading(stream: GridFSBucketReadStream, data: Bytes, a: nat, b: nat, k: nat, stop: nat)
    reads stream
  {
    var size := stream.file.chunkSize;
    && size > 0 && stream.file.length == |data| && stream.end == Some(b) && a <= b <= |data|
    && Floor(a, size) <= k <= stop <= |ChunksOf(data, size)|
    && stop == (if a == b && OnBoundary(a, size) then Ceil(|data|, size) else Ceil(b, size))
    && stream.expectedEnd == Ceil(b, size) && stream.bytesToTrim == Times(Ceil(b, size), size) - b
    && stream.bytesToTrim < size
    && stream.cursor == ChunksOf(data, size)[k..stop] && stream.expected == k
    && stream.bytesToSkip == SkipAt(size, a, k)
    && (k < stop ==> stream.bytesRead == Times(k, size))
    && stream.pushed == Piece(data, size, a, b, k)
  }

  method ReadOne(stream: GridFSBucketReadStream, ghost data: Bytes, ghost a: nat, ghost b: nat, ghost k: nat,
                 ghost stop: nat)
    returns (r: Result<Progress, DownloadError>)
    requires Reading(stream, data, a, b, k, stop)
    modifies stream
    ensures if k < stop then r == Ok(More) && Reading(stream, data, a, b, k + 1, stop)
            else r == Ok(Ended) && stream.pushed == old(stream.pushed)
  {
    ghost var size, docs := stream.file.chunkSize, ChunksOf(data, stream.file.chunkSize);
    if k < stop {
      ChunkAt(data, size, k);
      OneChunk(data, size, a, b, k, stop, docs[k]);
      assert docs[k..stop][0] == docs[k] && docs[k..stop][1..] == docs[k + 1..stop];
      NextSkip(size, a, k);
      if k + 1 < stop {
        NotLast(data, size, k);
      }
    }
    r := stream.DoRead();
  }

  lemma NextSkip(size: nat, a: nat, k: nat)
    requires size > 0 && Floor(a, size) <= k
    ensures SkipAt(size, a, k + 1) == 0
  {
    FloorFacts(a, size);
    TimesMonotone(Floor(a, size), k, size);
  }

  /** A chunk that is not the last of the file is full. */
  lemma NotLast(data: Bytes, size: nat, k: nat)
    requires size > 0 && k + 1 < |ChunksOf(data, size)|
    ensures Min(Times(k, size) + size, |data|) == Times(k, size) + size
  {
    ChunkAt(data, size, k + 1);
  }

  /**
   * Exactly when a valid range is served as asked: always, except for an empty range that starts on a chunk boundary
   * before the end of the file. The default options 0 and 0 are of that kind, and serve the whole file.
   */
  lemma ServedAsAsked(data: Bytes, size: nat, start: nat, end: nat)
    requires size > 0 && start <= end <= |data|
    ensures Served(data, size, start, end) == data[start..end] <==>
              !(start == end && OnBoundary(start, size) && start < |data|)
    ensures Served(data, size, 0, 0) == data
  {
    if start == end && OnBoundary(start, size) {
      assert |data[start..]| == |data| - start;
    }
    assert data[0..] == data;
  }

  // ---------------------------------------------------------------- round trip

  /** Writes in any number of pieces. */
  function Script(writes: seq<Bytes>): seq<Event> {
    seq(|writes|, i requires 0 <= i < |writes| => UserWrite(writes[i]))
  }

  lemma {:induction false} ScriptWrites(writes: seq<Bytes>)
    ensures InputOf(Script(writes)) == Input(Flatten(writes), false, false)
    decreases |writes|
  {
    if writes != [] {
      var n := |writes| - 1;
      assert Script(writes)[..n] == Script(writes[..n]);
      ScriptWrites(writes[..n]);
      FlattenLast(writes);
    }
  }

  /** The calls of the user, without the answers of the server that come between them. */
  function UserCalls(events: seq<Event>): seq<Event> {
    if events == [] then [] else
      var n := |events| - 1;
      var init := UserCalls(events[..n]);
      if events[n].Acknowledged? || events[n].Errored? then init else init + [events[n]]
  }

  lemma {:induction false} AnswersIgnored(events: seq<Event>)
    ensures InputOf(UserCalls(events)) == InputOf(events)
  {
    if events != [] {
      var n := |events| - 1;
      AnswersIgnored(events[..n]);
      var init := UserCalls(events[..n]);
      assert (init + [events[n]])[..|init|] == init;
    }
  }

  /** However the answers fall between the calls, what is written is the concatenation of the pieces. */
  lemma PiecesWritten(events: seq<Event>, writes: seq<Bytes>, last: Option<Bytes>)
    requires UserCalls(events) == Script(writes) + [UserEnd(last)]
    ensures InputOf(events) == Input(Flatten(writes) + (if last.Some? then last.value else []), true, false)
  {
    AnswersIgnored(events);
    ScriptWrites(writes);
    assert UserCalls(events)[..|writes|] == Script(writes);
  }

  /**
   * For every chunk size and every interleaving of writes, one end with or without a last chunk, aborts,
   * acknowledgements and errors: the file is stored exactly when the stream was ended and all its inserts were
   * acknowledged, and then a download serves the written bytes.
   */
  method StoreAndRead(chunkSize: nat, events: seq<Event>, start: Option<int>, end: Option<int>)
    returns (inserts: seq<Insert>, stored: bool, pushed: Bytes, r: Result<Progress, DownloadError>)
    requires chunkSize > 0
    ensures stored <==> InputOf(events).ended && forall i :: 0 <= i < |inserts| ==> inserts[i].status == Acked
    ensures stored ==> Downloads(InputOf(events).written, chunkSize, start, end, pushed, r)
    ensures stored && start == end == Some(0) ==> r == Ok(Ended) && pushed == InputOf(events).written
  {
    var filesDocs;
    inserts, filesDocs := RunUpload(chunkSize, events);
    stored, pushed, r := filesDocs != [], [], Ok(Ended);
    if stored {
      pushed, r := ReadRange(filesDocs[0], ChunkDocs(inserts), start, end, InputOf(events).written);
      if start == end == Some(0) {
        DefaultServesAll(InputOf(events).written, chunkSize, pushed, r);
      }
    }
  }
}
