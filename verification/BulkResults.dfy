/** Merging batch replies into one bulk result, and running the batches (src/bulk/common.ts, src/bulk/unordered.ts). */
module BulkResults {
  import opened Common
  import opened BulkBatches
  import opened BulkOrdered

  datatype OpTime = OpTime(ts: nat, t: int)

  /** An operation time comes as a bare timestamp or as a pair. */
  datatype ReportedTime = Timestamp(ts: nat) | Pair(time: OpTime)
  {
    function Normal(): OpTime {
      match this
      case Timestamp(ts) => OpTime(ts, 0)
      case Pair(time) => time
    }
  }

  datatype Upsert = Upsert(index: nat, id: Bytes)

  datatype Upserted = NoUpserts | UpsertList(entries: seq<Upsert>) | SingleUpsert(id: Bytes)
  {
    function Count(): nat {
      match this
      case NoUpserts => 0
      case UpsertList(entries) => |entries|
      case SingleUpsert(_) => 1
    }
  }

  datatype ReplyError = ReplyError(index: nat, code: int)

  /** A server reply; an absent `n` counts as 0. */
  datatype Reply = Reply(ok: bool, code: int, lastOp: Option<ReportedTime>, opTime: Option<ReportedTime>, n: nat,
                         upserted: Upserted, nModified: Option<nat>, writeErrors: seq<ReplyError>,
                         writeConcernError: Option<int>)
  {
    function Time(): Option<OpTime> {
      if lastOp.Some? then Some(lastOp.value.Normal()) else if opTime.Some? then Some(opTime.value.Normal()) else None
    }
  }

  /** `index` and `op` are undefined when the reply points outside the batch. */
  datatype WriteError = WriteError(index: Option<nat>, code: int, op: Option<Op>)

  datatype Totals = Totals(ok: bool, writeErrors: seq<WriteError>, writeConcernErrors: seq<int>, nInserted: nat,
                           nUpserted: nat, nMatched: int, nModified: nat, nRemoved: nat, upserted: seq<Upsert>,
                           opTime: Option<OpTime>)

  const NOTHING := Totals(true, [], [], 0, 0, 0, 0, 0, [], None)

  function At<T>(s: seq<T>, i: nat): Option<T> {
    if i < |s| then Some(s[i]) else None
  }

  /** A reported error, with the index and the operation of the user. */
  function Rewritten(batch: Batch, e: ReplyError): WriteError {
    WriteError(At(batch.originalIndexes, e.index), e.code, At(batch.operations, e.index))
  }

  function Shifted(batch: Batch, u: Upsert): Upsert {
    Upsert(u.index + batch.originalZeroIndex, u.id)
  }

  function UpsertsOf(batch: Batch, reply: Reply): seq<Upsert> {
    match reply.upserted
    case NoUpserts => []
    case UpsertList(entries) => seq(|entries|, i requires 0 <= i < |entries| => Shifted(batch, entries[i]))
    case SingleUpsert(id) => [Upsert(batch.originalZeroIndex, id)]
  }

  function ErrorsOf(batch: Batch, reply: Reply): seq<WriteError> {
    seq(|reply.writeErrors|, i requires 0 <= i < |reply.writeErrors| => Rewritten(batch, reply.writeErrors[i]))
  }

  predicate Later(a: OpTime, b: OpTime) {
    a.ts > b.ts || (a.ts == b.ts && a.t > b.t)
  }

  function Latest(known: Option<OpTime>, reported: Option<OpTime>): Option<OpTime> {
    if reported.None? then known
    else if known.None? || Later(reported.value, known.value) then reported
    else known
  }

  /** The state after one reply. */
  function Merged(s: Totals, batch: Batch, reply: Reply): Totals {
    if !reply.ok then
      if !s.ok then s
      else s.(ok := false, writeErrors := s.writeErrors + [WriteError(Some(0), reply.code, At(batch.operations, 0))])
    else
      var update := batch.batchType == UpdateBatch && reply.n > 0;
      s.(opTime := Latest(s.opTime, reply.Time()),
         nInserted := s.nInserted + (if batch.batchType == InsertBatch then reply.n else 0),
         nRemoved := s.nRemoved + (if batch.batchType == DeleteBatch then reply.n else 0),
         upserted := s.upserted + UpsertsOf(batch, reply),
         nUpserted := s.nUpserted + (if update then reply.upserted.Count() else 0),
         nMatched := s.nMatched + (if update then reply.n - reply.upserted.Count() else 0),
         nModified := if !update then s.nModified
                      else if reply.nModified.Some? then s.nModified + reply.nModified.value else 0,
         writeErrors := s.writeErrors + ErrorsOf(batch, reply),
         writeConcernErrors := s.writeConcernErrors
                               + if reply.writeConcernError.Some? then [reply.writeConcernError.value] else [])
  }

  class BulkResult {
    var ok: bool
    var writeErrors: seq<WriteError>
    var writeConcernErrors: seq<int>
    var nInserted: nat
    var nUpserted: nat
    var nMatched: int
    var nModified: nat
    var nRemoved: nat
    var upserted: seq<Upsert>
    var opTime: Option<OpTime>

    function View(): Totals
      reads this
    {
      Totals(ok, writeErrors, writeConcernErrors, nInserted, nUpserted, nMatched, nModified, nRemoved, upserted, opTime)
    }

    constructor ()
      ensures View() == NOTHING
    {
      ok, writeErrors, writeConcernErrors := true, [], [];
      nInserted, nUpserted, nMatched, nModified, nRemoved := 0, 0, 0, 0, 0;
      upserted, opTime := [], None;
    }

    /** `mergeBatchResults` for a reply or an error document. */
    method MergeBatchResults(batch: Batch, reply: Reply)
      modifies this
      ensures View() == Merged(old(View()), batch, reply)
    {
      if !reply.ok {
        if ok {
          ok := false;
          writeErrors := writeErrors + [WriteError(Some(0), reply.code, At(batch.operations, 0))];
        }
        return;
      }
      MergeTime(reply);
      if batch.batchType == InsertBatch && reply.n > 0 {
        nInserted := nInserted + reply.n;
      }
      if batch.batchType == DeleteBatch && reply.n > 0 {
        nRemoved := nRemoved + reply.n;
      }
      var count := MergeUpserts(batch, reply);
      if batch.batchType == UpdateBatch && reply.n > 0 {
        nUpserted := nUpserted + count;
        nMatched := nMatched + (reply.n - count);
        nModified := if reply.nModified.Some? then nModified + reply.nModified.value else 0;
      }
      MergeErrors(batch, reply);
      if reply.writeConcernError.Some? {
        writeConcernErrors := writeConcernErrors + [reply.writeConcernError.value];
      }
    }

    method MergeTime(reply: Reply)
      modifies this`opTime
      ensures opTime == Latest(old(opTime), reply.Time())
    {
      if reply.lastOp.Some? || reply.opTime.Some? {
        var reported := if reply.lastOp.Some? then reply.lastOp.value else reply.opTime.value;
        var time := reported.Normal();
        if opTime == None {
          opTime := Some(time);
        } else if time.ts > opTime.value.ts {
          opTime := Some(time);
        } else if time.ts == opTime.value.ts {
          if time.t > opTime.value.t {
            opTime := Some(time);
          }
        }
      }
    }

    method MergeUpserts(batch: Batch, reply: Reply) returns (count: nat)
      modifies this`upserted
      ensures upserted == old(upserted) + UpsertsOf(batch, reply) && count == reply.upserted.Count()
    {
      count := 0;
      match reply.upserted {
        case NoUpserts =>
        case UpsertList(entries) =>
          count := |entries|;
          for i := 0 to |entries|
            invariant upserted == old(upserted) + UpsertsOf(batch, reply)[..i]
          {
            assert UpsertsOf(batch, reply)[..i + 1] == UpsertsOf(batch, reply)[..i] + [Shifted(batch, entries[i])];
            upserted := upserted + [Upsert(entries[i].index + batch.originalZeroIndex, entries[i].id)];
          }
          assert UpsertsOf(batch, reply)[..|entries|] == UpsertsOf(batch, reply);
        case SingleUpsert(id) =>
          count := 1;
          upserted := upserted + [Upsert(batch.originalZeroIndex, id)];
      }
    }

    method MergeErrors(batch: Batch, reply: Reply)
      modifies this`writeErrors
      ensures writeErrors == old(writeErrors) + ErrorsOf(batch, reply)
    {
      for i := 0 to |reply.writeErrors|
        invariant writeErrors == old(writeErrors) + ErrorsOf(batch, reply)[..i]
      {
        var e := reply.writeErrors[i];
        assert ErrorsOf(batch, reply)[..i + 1] == ErrorsOf(batch, reply)[..i] + [Rewritten(batch, e)];
        var error := WriteError(At(batch.originalIndexes, e.index), e.code, At(batch.operations, e.index));
        writeErrors := writeErrors + [error];
      }
      assert ErrorsOf(batch, reply)[..|reply.writeErrors|] == ErrorsOf(batch, reply);
    }
  }

  // ---------------------------------------------------------------- conservation over a run

  /** One executed batch with its reply. */
  datatype Exchange = Exchange(batch: Batch, reply: Reply)

  function MergedAll(run: seq<Exchange>): Totals {
    if run == [] then NOTHING else
      var n := |run| - 1;
      Merged(MergedAll(run[..n]), run[n].batch, run[n].reply)
  }

  /** A successful reply: upserts only for updates, and no more upserts than `n`. */
  predicate Successful(x: Exchange) {
    && x.reply.ok
    && (x.batch.batchType != UpdateBatch ==> x.reply.upserted.Count() == 0)
    && x.reply.upserted.Count() <= x.reply.n
  }

  function SumN(run: seq<Exchange>, kind: BatchType): nat {
    if run == [] then 0 else
      var n := |run| - 1;
      SumN(run[..n], kind) + if run[n].batch.batchType == kind then run[n].reply.n else 0
  }

  /** The reply is to an update that found something; only such replies say how many documents were modified. */
  predicate Updates(x: Exchange) {
    x.batch.batchType == UpdateBatch && x.reply.n > 0
  }

  function SumModified(run: seq<Exchange>): nat {
    if run == [] then 0 else
      var n := |run| - 1;
      var reported := Updates(run[n]) && run[n].reply.nModified.Some?;
      SumModified(run[..n]) + if reported then run[n].reply.nModified.value else 0
  }

  function Times(run: seq<Exchange>): seq<OpTime> {
    if run == [] then [] else
      var n := |run| - 1;
      Times(run[..n]) + if run[n].reply.ok && run[n].reply.Time().Some? then [run[n].reply.Time().value] else []
  }

  /** The lexicographic maximum of the reported times. */
  ghost predicate IsLatest(times: seq<OpTime>, m: Option<OpTime>) {
    if times == [] then m == None
    else
      && m.Some? && m.value in times
      && forall i :: 0 <= i < |times| ==>
           times[i].ts < m.value.ts || (times[i].ts == m.value.ts && times[i].t <= m.value.t)
  }

  lemma {:induction false} Conservation(run: seq<Exchange>)
    requires forall i :: 0 <= i < |run| ==> Successful(run[i])
    ensures var s := MergedAll(run);
            && s.ok
            && s.nInserted == SumN(run, InsertBatch)
            && s.nRemoved == SumN(run, DeleteBatch)
            && s.nMatched + s.nUpserted == SumN(run, UpdateBatch) && s.nMatched >= 0
            && s.nUpserted == |s.upserted|
  {
    if run != [] {
      Conservation(run[..|run| - 1]);
    }
  }

  /** The modified count is the sum that the updates report, when all of them report it. */
  lemma {:induction false} ModifiedConserved(run: seq<Exchange>)
    requires forall i :: 0 <= i < |run| ==> run[i].reply.ok && (Updates(run[i]) ==> run[i].reply.nModified.Some?)
    ensures MergedAll(run).nModified == SumModified(run)
  {
    if run != [] {
      ModifiedConserved(run[..|run| - 1]);
    }
  }

  /** An update that found something and reports no modified count sets the count back to 0. */
  predicate Resets(x: Exchange) {
    x.reply.ok && Updates(x) && x.reply.nModified.None?
  }

  /** In general it is the sum since the last update that does not report it. */
  lemma {:induction false} ModifiedSince(run: seq<Exchange>, k: nat)
    requires k <= |run| && (k == 0 || Resets(run[k - 1]))
    requires forall i :: 0 <= i < |run| ==> run[i].reply.ok && (i >= k ==> !Resets(run[i]))
    ensures MergedAll(run).nModified == SumModified(run[k..])
  {
    if k < |run| {
      var n := |run| - 1;
      ModifiedSince(run[..n], k);
      assert run[k..][..n - k] == run[..n][k..];
    }
  }

  function Concerns(run: seq<Exchange>): seq<int> {
    if run == [] then [] else
      var n, reply := |run| - 1, run[|run| - 1].reply;
      Concerns(run[..n]) + if reply.ok && reply.writeConcernError.Some? then [reply.writeConcernError.value] else []
  }

  /** Every write concern error is kept, in order. */
  lemma {:induction false} ConcernsKept(run: seq<Exchange>)
    ensures MergedAll(run).writeConcernErrors == Concerns(run)
  {
    if run != [] {
      ConcernsKept(run[..|run| - 1]);
    }
  }

  lemma {:induction false} OpTimeIsLatest(run: seq<Exchange>)
    ensures IsLatest(Times(run), MergedAll(run).opTime)
  {
    if run != [] {
      var n := |run| - 1;
      OpTimeIsLatest(run[..n]);
      LatestExtends(Times(run[..n]), MergedAll(run[..n]).opTime, if run[n].reply.ok then run[n].reply.Time() else None);
    }
  }

  lemma LatestExtends(times: seq<OpTime>, m: Option<OpTime>, reported: Option<OpTime>)
    requires IsLatest(times, m)
    ensures IsLatest(times + (if reported.Some? then [reported.value] else []), Latest(m, reported))
  {
    if reported.Some? {
      var more := times + [reported.value];
      assert more[|times|] == reported.value;
      if times != [] {
        var k :| 0 <= k < |times| && times[k] == m.value;
        assert more[k] == m.value;
      }
    } else {
      assert times + [] == times;
    }
  }

  // ---------------------------------------------------------------- errors and upserts name the user's operations

  /** The batch records the positions of its operations in the user's list. */
  ghost predicate Records(ops: seq<Op>, batch: Batch) {
    && |batch.originalIndexes| == |batch.operations|
    && forall j :: 0 <= j < |batch.operations| ==>
         batch.originalIndexes[j] < |ops| && ops[batch.originalIndexes[j]] == batch.operations[j]
  }

  ghost predicate Names(ops: seq<Op>, e: WriteError) {
    e.index.Some? && e.index.value < |ops| && e.op == Some(ops[e.index.value])
  }

  /** Every per-operation error that points into the batch is reported with the user's index and operation. */
  lemma ErrorsName(ops: seq<Op>, batch: Batch, reply: Reply)
    requires Records(ops, batch)
    ensures forall i :: 0 <= i < |reply.writeErrors| ==>
              (Names(ops, ErrorsOf(batch, reply)[i]) <==> reply.writeErrors[i].index < |batch.operations|)
  {
  }

  /** A batch with operations at their recorded positions, and a reply that points into it. */
  ghost predicate Points(ops: seq<Op>, x: Exchange) {
    Records(ops, x.batch) && x.batch.operations != [] && InRange(x)
  }

  /** The reply points into the batch. */
  ghost predicate InRange(x: Exchange) {
    forall i :: 0 <= i < |x.reply.writeErrors| ==> x.reply.writeErrors[i].index < |x.batch.operations|
  }

  predicate AllOk(run: seq<Exchange>) {
    forall i :: 0 <= i < |run| ==> run[i].reply.ok
  }

  /** Where a write error or an upsert comes from: an operation of a batch. */
  datatype Source = Source(batch: Batch, position: nat)

  /** The codes that the replies report, in order; of top-level errors only the first. */
  function Codes(run: seq<Exchange>): seq<int> {
    if run == [] then [] else
      var n := |run| - 1;
      var errors := run[n].reply.writeErrors;
      Codes(run[..n]) + if run[n].reply.ok then seq(|errors|, i requires 0 <= i < |errors| => errors[i].code)
                        else if AllOk(run[..n]) then [run[n].reply.code] else []
  }

  /** The operations that one exchange reports errors of; of top-level errors only the first is kept. */
  function SourcesOf(x: Exchange, first: bool): seq<Source> {
    var errors := x.reply.writeErrors;
    if x.reply.ok then seq(|errors|, i requires 0 <= i < |errors| => Source(x.batch, errors[i].index))
    else if first then [Source(x.batch, 0)] else []
  }

  function Sources(run: seq<Exchange>): seq<Source> {
    if run == [] then [] else
      var n := |run| - 1;
      Sources(run[..n]) + SourcesOf(run[n], AllOk(run[..n]))
  }

  /** The error holds the operation it comes from. */
  predicate HoldsOp(e: WriteError, from: Source) {
    e.op == At(from.batch.operations, from.position)
  }

  /** The error's index is the position that the batch recorded for that operation. */
  predicate Located(e: WriteError, from: Source) {
    e.index == At(from.batch.originalIndexes, from.position)
  }

  ghost predicate AllLocated(errors: seq<WriteError>, sources: seq<Source>) {
    |errors| == |sources| && forall j :: 0 <= j < |errors| ==> Located(errors[j], sources[j])
  }

  /** A top-level error was kept of a batch that does not begin with the user's first operation. */
  predicate Misplaced(run: seq<Exchange>) {
    run != [] &&
      var n := |run| - 1;
      Misplaced(run[..n]) || (AllOk(run[..n]) && !run[n].reply.ok && At(run[n].batch.originalIndexes, 0) != Some(0))
  }

  lemma {:induction false} OkUnlessFailed(run: seq<Exchange>)
    ensures MergedAll(run).ok <==> AllOk(run)
  {
    if run != [] {
      var n := |run| - 1;
      OkUnlessFailed(run[..n]);
      assert AllOk(run) <==> AllOk(run[..n]) && run[n].reply.ok;
    }
  }

  /** Every write error holds the operation it comes from, whatever its index says. */
  lemma {:induction false} ErrorsHoldOps(run: seq<Exchange>)
    ensures |MergedAll(run).writeErrors| == |Sources(run)|
    ensures forall j :: 0 <= j < |Sources(run)| ==> HoldsOp(MergedAll(run).writeErrors[j], Sources(run)[j])
  {
    if run != [] {
      ErrorsHoldOps(run[..|run| - 1]);
      OkUnlessFailed(run[..|run| - 1]);
    }
  }

  /** And the code that was reported of it. */
  lemma {:induction false} ErrorsHoldCodes(run: seq<Exchange>)
    ensures |MergedAll(run).writeErrors| == |Codes(run)|
    ensures forall j :: 0 <= j < |Codes(run)| ==> MergedAll(run).writeErrors[j].code == Codes(run)[j]
  {
    if run != [] {
      ErrorsHoldCodes(run[..|run| - 1]);
      OkUnlessFailed(run[..|run| - 1]);
    }
  }

  lemma LocatedAppend(a: seq<WriteError>, b: seq<WriteError>, p: seq<Source>, q: seq<Source>)
    requires |a| == |p| && |b| == |q|
    ensures AllLocated(a + b, p + q) <==> AllLocated(a, p) && AllLocated(b, q)
  {
    if AllLocated(a + b, p + q) {
      forall j | 0 <= j < |a|
        ensures Located(a[j], p[j])
      {
        assert Located((a + b)[j], (p + q)[j]);
      }
      forall j | 0 <= j < |b|
        ensures Located(b[j], q[j])
      {
        assert Located((a + b)[|a| + j], (p + q)[|a| + j]);
      }
    }
  }

  lemma LocatedOne(e: WriteError, from: Source)
    ensures AllLocated([e], [from]) <==> Located(e, from)
  {
    if AllLocated([e], [from]) {
      assert Located([e][0], [from][0]);
    }
  }

  /** What one more exchange adds. */
  lemma LocatedMore(s: Totals, x: Exchange, first: bool, sources: seq<Source>)
    requires |s.writeErrors| == |sources| && s.ok == first
    ensures AllLocated(Merged(s, x.batch, x.reply).writeErrors, sources + SourcesOf(x, first))
       <==> AllLocated(s.writeErrors, sources) && (first && !x.reply.ok ==> At(x.batch.originalIndexes, 0) == Some(0))
  {
    if x.reply.ok {
      LocatedAppend(s.writeErrors, ErrorsOf(x.batch, x.reply), sources, SourcesOf(x, first));
    } else if first {
      var e, from := WriteError(Some(0), x.reply.code, At(x.batch.operations, 0)), Source(x.batch, 0);
      LocatedAppend(s.writeErrors, [e], sources, [from]);
      LocatedOne(e, from);
    } else {
      assert sources + [] == sources;
    }
  }

  /**
   * Over any run: every write error's index is the recorded position of the operation it holds, if and only if no
   * top-level error was kept of a batch that begins elsewhere than at the user's first operation.
   */
  lemma {:induction false} ErrorsLocated(run: seq<Exchange>)
    ensures AllLocated(MergedAll(run).writeErrors, Sources(run)) <==> !Misplaced(run)
  {
    if run != [] {
      var init := run[..|run| - 1];
      ErrorsLocated(init);
      ErrorsHoldOps(init);
      OkUnlessFailed(init);
      LocatedMore(MergedAll(init), run[|run| - 1], AllOk(init), Sources(init));
    }
  }

  lemma {:induction false} SourcesRecorded(ops: seq<Op>, run: seq<Exchange>, j: nat)
    requires forall i :: 0 <= i < |run| ==> Points(ops, run[i])
    requires j < |Sources(run)|
    ensures var from := Sources(run)[j]; Records(ops, from.batch) && from.position < |from.batch.operations|
  {
    var n := |run| - 1;
    if j < |Sources(run[..n])| {
      SourcesRecorded(ops, run[..n], j);
    }
  }

  /** So, unless one is misplaced, every write error names a user operation: its index is where its operation is. */
  lemma RunErrorsName(ops: seq<Op>, run: seq<Exchange>)
    requires forall i :: 0 <= i < |run| ==> Points(ops, run[i])
    requires !Misplaced(run)
    ensures forall j :: 0 <= j < |MergedAll(run).writeErrors| ==> Names(ops, MergedAll(run).writeErrors[j])
  {
    ErrorsLocated(run);
    ErrorsHoldOps(run);
    var errors := MergedAll(run).writeErrors;
    forall j | 0 <= j < |errors|
      ensures Names(ops, errors[j])
    {
      SourcesRecorded(ops, run, j);
      assert Located(errors[j], Sources(run)[j]) && HoldsOp(errors[j], Sources(run)[j]);
    }
  }

  /** Where an upsert comes from: the id that the server gave for an operation of a batch. */
  datatype UpsertSource = UpsertSource(from: Source, id: Bytes)

  /** The operations that one reply reports upserts of; a bare id is of the first. */
  function UpsertSourcesOf(x: Exchange): seq<UpsertSource> {
    if !x.reply.ok then [] else
      match x.reply.upserted
      case NoUpserts => []
      case UpsertList(entries) =>
        seq(|entries|, i requires 0 <= i < |entries| => UpsertSource(Source(x.batch, entries[i].index), entries[i].id))
      case SingleUpsert(id) => [UpsertSource(Source(x.batch, 0), id)]
  }

  function UpsertSources(run: seq<Exchange>): seq<UpsertSource> {
    if run == [] then [] else
      var n := |run| - 1;
      UpsertSources(run[..n]) + UpsertSourcesOf(run[n])
  }

  /** The upsert has its id and, if it points into its batch, the position that the batch recorded for its operation. */
  predicate UpsertLocated(u: Upsert, source: UpsertSource) {
    && u.id == source.id
    && (source.from.position < |source.from.batch.originalIndexes| ==>
          u.index == source.from.batch.originalIndexes[source.from.position])
  }

  /** The recorded position is as far from the batch's first as the operation is. */
  predicate InStep(from: Source) {
    from.position < |from.batch.originalIndexes| ==>
      from.batch.originalIndexes[from.position] == from.batch.originalZeroIndex + from.position
  }

  /** Over any run: each merged upsert has the id the server gave, and counts from the batch's first position. */
  lemma {:induction false} UpsertsCount(run: seq<Exchange>)
    ensures |MergedAll(run).upserted| == |UpsertSources(run)|
    ensures forall j :: 0 <= j < |UpsertSources(run)| ==>
              var u, source := MergedAll(run).upserted[j], UpsertSources(run)[j];
              u == Upsert(source.from.batch.originalZeroIndex + source.from.position, source.id)
  {
    if run != [] {
      UpsertsCount(run[..|run| - 1]);
      UpsertsAdded(run[|run| - 1]);
    }
  }

  /** What one reply adds. */
  lemma UpsertsAdded(x: Exchange)
    ensures x.reply.ok ==>
              var added, sources := UpsertsOf(x.batch, x.reply), UpsertSourcesOf(x);
              && |added| == |sources|
              && forall j :: 0 <= j < |added| ==>
                   added[j] == Upsert(sources[j].from.batch.originalZeroIndex + sources[j].from.position, sources[j].id)
  {
  }

  /** So every merged upsert carries the user's index if and only if it is in step with its batch. */
  lemma UpsertsLocated(run: seq<Exchange>)
    ensures |MergedAll(run).upserted| == |UpsertSources(run)|
    ensures forall j :: 0 <= j < |UpsertSources(run)| ==>
              (UpsertLocated(MergedAll(run).upserted[j], UpsertSources(run)[j]) <==> InStep(UpsertSources(run)[j].from))
  {
    UpsertsCount(run);
  }

  ghost predicate InOrder(x: Exchange) {
    Consecutive(x.batch)
  }

  lemma {:induction false} OrderedInStep(run: seq<Exchange>, j: nat)
    requires (forall i :: 0 <= i < |run| ==> InOrder(run[i])) && j < |UpsertSources(run)|
    ensures InStep(UpsertSources(run)[j].from)
  {
    var n := |run| - 1;
    if j < |UpsertSources(run[..n])| {
      OrderedInStep(run[..n], j);
    } else {
      assert UpsertSources(run)[j] == UpsertSourcesOf(run[n])[j - |UpsertSources(run[..n])|];
    }
  }

  /** Over any run of ordered batches, every merged upsert carries its id and the user's index. */
  lemma UpsertsName(run: seq<Exchange>)
    requires forall i :: 0 <= i < |run| ==> InOrder(run[i])
    ensures |MergedAll(run).upserted| == |UpsertSources(run)|
    ensures forall j :: 0 <= j < |UpsertSources(run)| ==>
              UpsertLocated(MergedAll(run).upserted[j], UpsertSources(run)[j])
  {
    UpsertsLocated(run);
    forall j | 0 <= j < |UpsertSources(run)|
      ensures InStep(UpsertSources(run)[j].from)
    {
      OrderedInStep(run, j);
    }
  }

  /** The batches of either splitter record their operations. */
  lemma SplitRecords(limits: Limits, ops: seq<Op>, items: seq<Item>, batches: seq<Batch>, k: nat)
    requires WellSplit(limits, items, batches) && k < |batches|
    requires forall i :: 0 <= i < |items| ==> items[i].index < |ops| && items[i].op == ops[items[i].index]
    ensures Records(ops, batches[k])
  {
    var b := batches[k];
    forall j | 0 <= j < |b.operations|
      ensures b.originalIndexes[j] < |ops| && ops[b.originalIndexes[j]] == b.operations[j]
    {
      assert ItemLists(batches)[k] == b.Items();
      assert b.Items()[j] == Item(b.operations[j], b.originalIndexes[j]);
      InFlatten(ItemLists(batches), k, b.Items()[j]);
    }
  }

  lemma {:induction false} InFlatten<T>(parts: seq<seq<T>>, k: nat, x: T)
    requires k < |parts| && x in parts[k]
    ensures x in Flatten(parts)
  {
    if k > 0 {
      InFlatten(parts[1..], k - 1, x);
    }
  }

  // ---------------------------------------------------------------- running the batches

  /** What executing a batch leads to: a callback of one of three kinds, or an exception on the way. */
  datatype Outcome = Replied(reply: Reply) | ConcernFailed(reply: Reply) | DriverFailed | Thrown(code: int)

  /** What the caller is called back with; an exception is swallowed and the callback gets nothing. */
  datatype Verdict = Succeeded | Failed | NoResult

  /** The exception, marked as a top-level error. */
  function ThrownReply(code: int): Reply {
    Reply(false, code, None, None, 0, NoUpserts, None, [], None)
  }

  /** The result so far makes `handleWriteError` report. */
  predicate HasErrors(s: Totals) {
    s.writeErrors != [] || s.writeConcernErrors != []
  }

  /** What is merged of one batch. */
  function MergesOf(batch: Batch, outcome: Outcome): seq<Exchange> {
    match outcome
    case DriverFailed => []
    case Replied(reply) => [Exchange(batch, reply)]
    case ConcernFailed(reply) => [Exchange(batch, reply)]
    case Thrown(code) => [Exchange(batch, ThrownReply(code))]
  }

  /** What is merged of the first `k` batches. */
  function Exchanges(batches: seq<Batch>, outcomes: seq<Outcome>, k: nat): seq<Exchange>
    requires k <= |batches| == |outcomes|
  {
    if k == 0 then [] else Exchanges(batches, outcomes, k - 1) + MergesOf(batches[k - 1], outcomes[k - 1])
  }

  /** The totals after the first `k` batches. */
  function After(batches: seq<Batch>, outcomes: seq<Outcome>, k: nat): Totals
    requires k <= |batches| == |outcomes|
  {
    MergedAll(Exchanges(batches, outcomes, k))
  }

  lemma MergedSnoc(run: seq<Exchange>, x: Exchange)
    ensures MergedAll(run + [x]) == Merged(MergedAll(run), x.batch, x.reply)
  {
    assert (run + [x])[..|run|] == run;
  }

  /** The reply reports nothing wrong. */
  predicate CleanReply(reply: Reply) {
    reply.ok && reply.writeErrors == [] && reply.writeConcernError == None
  }

  /** The batch got a reply, and that reports nothing wrong. */
  predicate Clean(outcome: Outcome) {
    outcome.Replied? && CleanReply(outcome.reply)
  }

  /** The totals have errors exactly if some reply reported one. */
  lemma {:induction false} ErrorsRemembered(run: seq<Exchange>)
    ensures !HasErrors(MergedAll(run)) <==> forall i :: 0 <= i < |run| ==> CleanReply(run[i].reply)
    ensures !HasErrors(MergedAll(run)) ==> MergedAll(run).ok
  {
    if run != [] {
      var n := |run| - 1;
      ErrorsRemembered(run[..n]);
      assert forall i :: 0 <= i < n ==> run[i] == run[..n][i];
    }
  }

  lemma {:induction false} RepliedExchanges(batches: seq<Batch>, outcomes: seq<Outcome>, k: nat)
    requires k <= |batches| == |outcomes| && forall i :: 0 <= i < k ==> outcomes[i].Replied?
    ensures |Exchanges(batches, outcomes, k)| == k
    ensures forall i :: 0 <= i < k ==> Exchanges(batches, outcomes, k)[i] == Exchange(batches[i], outcomes[i].reply)
  {
    if k > 0 {
      RepliedExchanges(batches, outcomes, k - 1);
    }
  }

  lemma CleanSoFar(batches: seq<Batch>, outcomes: seq<Outcome>, k: nat)
    requires k <= |batches| == |outcomes| && forall i :: 0 <= i < k ==> outcomes[i].Replied?
    ensures !HasErrors(After(batches, outcomes, k)) <==> forall i :: 0 <= i < k ==> Clean(outcomes[i])
  {
    var run := Exchanges(batches, outcomes, k);
    RepliedExchanges(batches, outcomes, k);
    ErrorsRemembered(run);
    if forall i :: 0 <= i < k ==> Clean(outcomes[i]) {
      assert forall i :: 0 <= i < k ==> CleanReply(run[i].reply);
    } else {
      var i :| 0 <= i < k && !Clean(outcomes[i]);
      assert !CleanReply(run[i].reply);
    }
  }

  /** The run goes on behind a batch with this outcome. */
  predicate Passes(ordered: bool, outcome: Outcome) {
    outcome.Replied? && (ordered ==> Clean(outcome))
  }

  predicate AllPass(ordered: bool, outcomes: seq<Outcome>, k: nat)
    requires k <= |outcomes|
  {
    forall i :: 0 <= i < k ==> Passes(ordered, outcomes[i])
  }

  predicate AllClean(outcomes: seq<Outcome>, k: nat)
    requires k <= |outcomes|
  {
    forall i :: 0 <= i < k ==> Clean(outcomes[i])
  }

  /**
   * How far a run gets and what it reports, by the outcomes alone. An ordered bulk ends behind the first batch that got
   * no reply or one with an error; an unordered bulk behind the first that got no reply. It succeeds exactly if every
   * batch got a reply without an error.
   */
  ghost predicate Ends(ordered: bool, outcomes: seq<Outcome>, executed: nat, verdict: Verdict) {
    && executed <= |outcomes|
    && (executed > 0 ==> AllPass(ordered, outcomes, executed - 1))
    && (executed < |outcomes| ==> executed > 0 && !Passes(ordered, outcomes[executed - 1]))
    && (verdict == Succeeded <==> AllClean(outcomes, |outcomes|))
    && (verdict == NoResult <==> executed > 0 && outcomes[executed - 1].Thrown?)
  }

  /** What the outcome of the next batch adds to the totals; a failure of the driver adds nothing. */
  method MergeOutcome(result: BulkResult, batch: Batch, outcome: Outcome, ghost batches: seq<Batch>,
                      ghost outcomes: seq<Outcome>, ghost k: nat)
    requires k < |batches| == |outcomes| && batch == batches[k] && outcome == outcomes[k]
    requires result.View() == After(batches, outcomes, k)
    modifies result
    ensures result.View() == After(batches, outcomes, k + 1)
  {
    ghost var run := Exchanges(batches, outcomes, k);
    if outcome.DriverFailed? {
      assert Exchanges(batches, outcomes, k + 1) == run;
      return;
    }
    var reply := if outcome.Thrown? then ThrownReply(outcome.code) else outcome.reply;
    MergedSnoc(run, Exchange(batch, reply));
    result.MergeBatchResults(batch, reply);
  }

  /** A run that stops behind a batch, at the end or before it. */
  lemma Halts(ordered: bool, outcomes: seq<Outcome>, executed: nat)
    requires 0 < executed <= |outcomes| && AllPass(ordered, outcomes, executed - 1)
    requires Passes(ordered, outcomes[executed - 1]) ==> executed == |outcomes| && !AllClean(outcomes, executed)
    ensures Ends(ordered, outcomes, executed, if outcomes[executed - 1].Thrown? then NoResult else Failed)
  {
    var last := outcomes[executed - 1];
    assert !Passes(ordered, last) ==> !Clean(last);
  }

  lemma Completes(ordered: bool, outcomes: seq<Outcome>)
    requires AllClean(outcomes, |outcomes|)
    ensures Ends(ordered, outcomes, |outcomes|, Succeeded)
  {
  }

  /** The run stops unless there was a reply and, where this mode looks at them by now, no error so far. */
  method Decide(ordered: bool, batches: seq<Batch>, outcomes: seq<Outcome>, executed: nat, s: Totals)
    returns (stops: bool)
    requires 0 < executed <= |batches| == |outcomes| && AllPass(ordered, outcomes, executed - 1)
    requires s == After(batches, outcomes, executed)
    ensures stops ==>
              Ends(ordered, outcomes, executed, if outcomes[executed - 1].Thrown? then NoResult else Failed)
    ensures !stops ==>
              AllPass(ordered, outcomes, executed) && (executed == |batches| ==> AllClean(outcomes, executed))
  {
    stops := true;
    if outcomes[executed - 1].Replied? {
      CleanThen(ordered, batches, outcomes, executed);
      stops := (ordered || executed == |batches|) && HasErrors(s);
    }
    if stops {
      Halts(ordered, outcomes, executed);
    }
  }

  /** `executeCommands`: the totals merge exactly what was executed. */
  method ExecuteCommands(ordered: bool, batches: seq<Batch>, outcomes: seq<Outcome>)
    returns (s: Totals, executed: nat, verdict: Verdict)
    requires |outcomes| == |batches|
    ensures Ends(ordered, outcomes, executed, verdict)
    ensures s == After(batches, outcomes, executed)
  {
    var result := new BulkResult();
    executed := 0;
    while executed < |batches|
      invariant executed <= |batches| && fresh(result) && result.View() == After(batches, outcomes, executed)
      invariant AllPass(ordered, outcomes, executed)
      invariant executed == |batches| ==> AllClean(outcomes, executed)
    {
      MergeOutcome(result, batches[executed], outcomes[executed], batches, outcomes, executed);
      var stops := Decide(ordered, batches, outcomes, executed + 1, result.View());
      executed := executed + 1;
      if stops {
        return result.View(), executed, if outcomes[executed - 1].Thrown? then NoResult else Failed;
      }
    }
    Completes(ordered, outcomes);
    s, verdict := result.View(), Succeeded;
  }

  lemma CleanThen(ordered: bool, batches: seq<Batch>, outcomes: seq<Outcome>, k: nat)
    requires 0 < k <= |batches| == |outcomes| && AllPass(ordered, outcomes, k - 1) && outcomes[k - 1].Replied?
    ensures HasErrors(After(batches, outcomes, k)) <==> !AllClean(outcomes, k)
    ensures ordered ==> (Passes(ordered, outcomes[k - 1]) <==> AllClean(outcomes, k))
    ensures AllClean(outcomes, k) || !ordered ==> AllPass(ordered, outcomes, k)
  {
    assert forall i :: 0 <= i < k - 1 ==> Passes(ordered, outcomes[i]);
    CleanSoFar(batches, outcomes, k);
  }
}
