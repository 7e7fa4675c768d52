/** A whole bulk write: splitting, executing and merging put together (src/bulk). */
module BulkWrites {
  import opened Common
  import opened BulkBatches
  import opened BulkOrdered
  import opened BulkUnordered
  import opened BulkResults

  /**
   * A batch as it is handed over: its operations at their recorded positions, and within the byte limit once encoded.
   */
  ghost predicate Sound(limits: Limits, ops: seq<Op>, b: Batch) {
    && Records(ops, b) && b.operations != [] && b.WellFormed()
    && limits.Encoded(b.Items()) <= limits.Bytes(b.Items())
    && (|b.operations| >= 2 ==> limits.Encoded(b.Items()) < limits.maxBatchSizeBytes)
  }

  lemma SplitSound(limits: Limits, ops: seq<Op>, items: seq<Item>, batches: seq<Batch>, k: nat)
    requires WellSplit(limits, items, batches) && k < |batches|
    requires forall i :: 0 <= i < |items| ==> items[i].index < |ops| && items[i].op == ops[items[i].index]
    ensures Sound(limits, ops, batches[k])
  {
    SplitRecords(limits, ops, items, batches, k);
    limits.BatchWithinLimit(batches[k].Items());
  }

  lemma LanesSound(limits: Limits, ops: seq<Op>, batches: seq<Batch>, k: nat)
    requires SplitByType(limits, ops, batches) && k < |batches|
    ensures Sound(limits, ops, batches[k])
  {
    var kind := batches[k].batchType;
    var m := InLane(batches, k);
    OfKindNumbered(ops, Number(ops), kind);
    SplitSound(limits, ops, OfKind(Number(ops), kind), BatchesOf(batches, kind), m);
  }

  /** The replies among the outcomes are not top-level errors and point into their batches. */
  ghost predicate Answers(batches: seq<Batch>, outcomes: seq<Outcome>) {
    |outcomes| == |batches| && forall i :: 0 <= i < |batches| ==> Answer(batches[i], outcomes[i])
  }

  ghost predicate Answer(batch: Batch, outcome: Outcome) {
    outcome.Replied? || outcome.ConcernFailed? ==> outcome.reply.ok && InRange(Exchange(batch, outcome.reply))
  }

  lemma {:induction false} ExchangesPoint(limits: Limits, ops: seq<Op>, batches: seq<Batch>, outcomes: seq<Outcome>,
                                          k: nat)
    requires Answers(batches, outcomes) && k <= |batches|
    requires forall i :: 0 <= i < |batches| ==> Sound(limits, ops, batches[i])
    ensures forall i :: 0 <= i < |Exchanges(batches, outcomes, k)| ==> Points(ops, Exchanges(batches, outcomes, k)[i])
  {
    if k > 0 {
      ExchangesPoint(limits, ops, batches, outcomes, k - 1);
      assert Answer(batches[k - 1], outcomes[k - 1]) && Sound(limits, ops, batches[k - 1]);
      AppendPoints(ops, Exchanges(batches, outcomes, k - 1), MergesOf(batches[k - 1], outcomes[k - 1]));
    }
  }

  lemma AppendPoints(ops: seq<Op>, a: seq<Exchange>, b: seq<Exchange>)
    requires forall i :: 0 <= i < |a| ==> Points(ops, a[i])
    requires forall i :: 0 <= i < |b| ==> Points(ops, b[i])
    ensures forall i :: 0 <= i < |a + b| ==> Points(ops, (a + b)[i])
  {
  }

  lemma {:induction false} RepliedOk(batches: seq<Batch>, outcomes: seq<Outcome>, k: nat)
    requires Answers(batches, outcomes) && k <= |batches| && forall i :: 0 <= i < k ==> outcomes[i].Replied?
    ensures AllOk(Exchanges(batches, outcomes, k)) && !Misplaced(Exchanges(batches, outcomes, k))
  {
    if k > 0 {
      RepliedOk(batches, outcomes, k - 1);
      assert Answer(batches[k - 1], outcomes[k - 1]);
      var run := Exchanges(batches, outcomes, k);
      assert run[..|run| - 1] == Exchanges(batches, outcomes, k - 1);
    }
  }

  /** In a run whose last outcome alone may be no reply, an error is misplaced exactly by a later batch's exception. */
  lemma MisplacedByException(batches: seq<Batch>, outcomes: seq<Outcome>, k: nat)
    requires Answers(batches, outcomes) && 0 < k <= |batches| && forall i :: 0 <= i < k - 1 ==> outcomes[i].Replied?
    ensures Misplaced(Exchanges(batches, outcomes, k))
       <==> outcomes[k - 1].Thrown? && At(batches[k - 1].originalIndexes, 0) != Some(0)
  {
    RepliedOk(batches, outcomes, k - 1);
    assert Answer(batches[k - 1], outcomes[k - 1]);
    var before, run := Exchanges(batches, outcomes, k - 1), Exchanges(batches, outcomes, k);
    if outcomes[k - 1].DriverFailed? {
      assert run == before;
    } else {
      assert run[..|run| - 1] == before;
    }
  }

  /** The operations of an ordered bulk are laid out batch after batch, so only the first batch begins at position 0. */
  lemma OrderedBegins(limits: Limits, ops: seq<Op>, batches: seq<Batch>, k: nat)
    requires WellSplit(limits, Number(ops), batches) && k < |batches|
    ensures At(batches[k].originalIndexes, 0) == Some(0) <==> k == 0
  {
    var lists := ItemLists(batches);
    HeadOf(lists, k);
    assert lists[k] == batches[k].Items();
    assert lists[k][0].index == batches[k].originalIndexes[0];
    if k > 0 {
      assert lists[..k][0] == batches[0].Items();
    }
  }

  lemma {:induction false} HeadOf<T>(lists: seq<seq<T>>, k: nat)
    requires k < |lists| && lists[k] != []
    ensures |Flatten(lists[..k])| < |Flatten(lists)| && Flatten(lists)[|Flatten(lists[..k])|] == lists[k][0]
    ensures k > 0 && lists[0] != [] ==> Flatten(lists[..k]) != []
  {
    if k > 0 {
      HeadOf(lists[1..], k - 1);
      assert lists[..k][1..] == lists[1..][..k - 1];
    }
  }

  datatype Written = Written(batches: seq<Batch>, executed: nat, totals: Totals, verdict: Verdict)

  /**
   * The errors of a bulk write: each holds its operation; the indexes are all right if and only if no exception came
   * from a batch that begins elsewhere than at the first operation; and then each error names a user operation.
   */
  ghost predicate ErrorsFaithful(ops: seq<Op>, w: Written, outcomes: seq<Outcome>)
    requires w.executed <= |w.batches| == |outcomes|
  {
    var errors, sources := w.totals.writeErrors, Sources(Exchanges(w.batches, outcomes, w.executed));
    var misplaced := && w.verdict == NoResult && w.executed > 0
                     && At(w.batches[w.executed - 1].originalIndexes, 0) != Some(0);
    && |errors| == |sources| && (forall j :: 0 <= j < |errors| ==> HoldsOp(errors[j], sources[j]))
    && (AllLocated(errors, sources) <==> !misplaced)
    && (!misplaced ==> forall j :: 0 <= j < |errors| ==> Names(ops, errors[j]))
  }

  /** The run that `executeCommands` makes of the batches. */
  ghost predicate Ran(ordered: bool, w: Written, outcomes: seq<Outcome>) {
    && |w.batches| == |outcomes| && Ends(ordered, outcomes, w.executed, w.verdict)
    && w.totals == After(w.batches, outcomes, w.executed)
  }

  lemma MisplacedRun(ordered: bool, w: Written, outcomes: seq<Outcome>)
    requires Answers(w.batches, outcomes) && Ran(ordered, w, outcomes)
    ensures Misplaced(Exchanges(w.batches, outcomes, w.executed)) <==>
              && w.verdict == NoResult && w.executed > 0
              && At(w.batches[w.executed - 1].originalIndexes, 0) != Some(0)
  {
    if w.executed > 0 {
      MisplacedByException(w.batches, outcomes, w.executed);
    }
  }

  lemma FaithfulErrors(limits: Limits, ops: seq<Op>, ordered: bool, w: Written, outcomes: seq<Outcome>)
    requires Answers(w.batches, outcomes) && Ran(ordered, w, outcomes)
    requires forall i :: 0 <= i < |w.batches| ==> Sound(limits, ops, w.batches[i])
    ensures ErrorsFaithful(ops, w, outcomes)
  {
    var run := Exchanges(w.batches, outcomes, w.executed);
    ErrorsHoldOps(run);
    ErrorsLocated(run);
    ExchangesPoint(limits, ops, w.batches, outcomes, w.executed);
    MisplacedRun(ordered, w, outcomes);
    if !Misplaced(run) {
      RunErrorsName(ops, run);
    }
  }

  /** What batch `i` leads to, for the batches of a bulk. */
  function Outcomes(answer: nat -> Outcome, count: nat): seq<Outcome> {
    seq(count, i requires 0 <= i < count => answer(i))
  }

  method Perform(ordered: bool, batches: seq<Batch>, answer: nat -> Outcome) returns (w: Written)
    ensures w.batches == batches && Ran(ordered, w, Outcomes(answer, |batches|))
  {
    var totals, executed, verdict := ExecuteCommands(ordered, batches, Outcomes(answer, |batches|));
    w := Written(batches, executed, totals, verdict);
  }

  /** What a bulk write promises of its batches and its errors. */
  ghost predicate Faithful(limits: Limits, ops: seq<Op>, ordered: bool, w: Written, outcomes: seq<Outcome>) {
    && Ran(ordered, w, outcomes)
    && (forall k :: 0 <= k < |w.batches| ==> Sound(limits, ops, w.batches[k]))
    && (Answers(w.batches, outcomes) ==> ErrorsFaithful(ops, w, outcomes))
  }

  /** In ordered mode the indexes are right exactly when no exception comes after the first batch. */
  ghost predicate RightUnlessLate(w: Written, outcomes: seq<Outcome>)
    requires w.executed <= |w.batches| == |outcomes|
  {
    AllLocated(w.totals.writeErrors, Sources(Exchanges(w.batches, outcomes, w.executed)))
    <==> !(w.verdict == NoResult && w.executed > 1)
  }

  /** Every merged upsert has its id and the user's index. */
  ghost predicate UpsertsFaithful(w: Written, outcomes: seq<Outcome>)
    requires w.executed <= |w.batches| == |outcomes|
  {
    var upserted, sources := w.totals.upserted, UpsertSources(Exchanges(w.batches, outcomes, w.executed));
    |upserted| == |sources| && forall j :: 0 <= j < |upserted| ==> UpsertLocated(upserted[j], sources[j])
  }

  /** Every upsert that is reported is in step with its batch. */
  ghost predicate AllInStep(w: Written, outcomes: seq<Outcome>)
    requires w.executed <= |w.batches| == |outcomes|
  {
    var sources := UpsertSources(Exchanges(w.batches, outcomes, w.executed));
    forall j :: 0 <= j < |sources| ==> InStep(sources[j].from)
  }

  lemma StepOrNot(w: Written, outcomes: seq<Outcome>)
    requires w.executed <= |w.batches| == |outcomes| && w.totals == After(w.batches, outcomes, w.executed)
    ensures UpsertsFaithful(w, outcomes) <==> AllInStep(w, outcomes)
  {
    UpsertsLocated(Exchanges(w.batches, outcomes, w.executed));
  }

  lemma {:induction false} ExchangesConsecutive(batches: seq<Batch>, outcomes: seq<Outcome>, k: nat)
    requires k <= |batches| == |outcomes| && forall i :: 0 <= i < |batches| ==> Consecutive(batches[i])
    ensures forall i :: 0 <= i < |Exchanges(batches, outcomes, k)| ==> InOrder(Exchanges(batches, outcomes, k)[i])
  {
    if k > 0 {
      ExchangesConsecutive(batches, outcomes, k - 1);
      var before := Exchanges(batches, outcomes, k - 1);
      var run := Exchanges(batches, outcomes, k);
      forall i | 0 <= i < |run|
        ensures InOrder(run[i])
      {
        assert if i < |before| then run[i] == before[i] else run[i].batch == batches[k - 1];
      }
    }
  }

  lemma OrderedUpserts(w: Written, outcomes: seq<Outcome>)
    requires Ran(true, w, outcomes) && forall i :: 0 <= i < |w.batches| ==> Consecutive(w.batches[i])
    ensures UpsertsFaithful(w, outcomes)
  {
    ExchangesConsecutive(w.batches, outcomes, w.executed);
    UpsertsName(Exchanges(w.batches, outcomes, w.executed));
  }

  lemma OrderedSound(limits: Limits, ops: seq<Op>, batches: seq<Batch>)
    requires WellSplit(limits, Number(ops), batches)
    ensures forall k :: 0 <= k < |batches| ==> Sound(limits, ops, batches[k])
  {
    forall k | 0 <= k < |batches|
      ensures Sound(limits, ops, batches[k])
    {
      SplitSound(limits, ops, Number(ops), batches, k);
    }
  }

  lemma OrderedLate(limits: Limits, ops: seq<Op>, w: Written, outcomes: seq<Outcome>)
    requires WellSplit(limits, Number(ops), w.batches) && w.executed <= |w.batches| == |outcomes|
    requires ErrorsFaithful(ops, w, outcomes)
    ensures RightUnlessLate(w, outcomes)
  {
    if w.executed > 0 {
      OrderedBegins(limits, ops, w.batches, w.executed - 1);
    }
  }

  lemma OrderedFaithful(limits: Limits, ops: seq<Op>, w: Written, outcomes: seq<Outcome>)
    requires WellSplit(limits, Number(ops), w.batches) && Ran(true, w, outcomes)
    ensures Faithful(limits, ops, true, w, outcomes)
    ensures Answers(w.batches, outcomes) ==> RightUnlessLate(w, outcomes)
  {
    OrderedSound(limits, ops, w.batches);
    if Answers(w.batches, outcomes) {
      FaithfulErrors(limits, ops, true, w, outcomes);
      OrderedLate(limits, ops, w, outcomes);
    }
  }

  lemma UnorderedFaithful(limits: Limits, ops: seq<Op>, w: Written, outcomes: seq<Outcome>)
    requires SplitByType(limits, ops, w.batches) && Ran(false, w, outcomes)
    ensures Faithful(limits, ops, false, w, outcomes)
  {
    forall k | 0 <= k < |w.batches|
      ensures Sound(limits, ops, w.batches[k])
    {
      LanesSound(limits, ops, w.batches, k);
    }
    if Answers(w.batches, outcomes) {
      FaithfulErrors(limits, ops, false, w, outcomes);
    }
  }

  /** An ordered bulk write of any operations, with any outcomes. */
  method WriteOrdered(limits: Limits, ops: seq<Op>, answer: nat -> Outcome) returns (r: Result<Written, BulkError>)
    ensures r.Err? <==> Acceptable(limits, ops) == []
    ensures r.Ok? ==>
              var outcomes := Outcomes(answer, |r.value.batches|);
              && Splits(limits, Acceptable(limits, ops), r.value.batches)
              && Ran(true, r.value, outcomes) && UpsertsFaithful(r.value, outcomes)
    ensures r.Ok? && limits.maxWriteBatchSize >= 2 ==>
              var outcomes := Outcomes(answer, |r.value.batches|);
              && WellSplit(limits, Number(Acceptable(limits, ops)), r.value.batches)
              && Faithful(limits, Acceptable(limits, ops), true, r.value, outcomes)
              && (Answers(r.value.batches, outcomes) ==> RightUnlessLate(r.value, outcomes))
  {
    var split := SplitOrdered(limits, ops);
    if split.Err? {
      return Err(split.error);
    }
    var w := Perform(true, split.value, answer);
    OrderedUpserts(w, Outcomes(answer, |w.batches|));
    if limits.maxWriteBatchSize >= 2 {
      OrderedFaithful(limits, Acceptable(limits, ops), w, Outcomes(answer, |w.batches|));
    }
    r := Ok(w);
  }

  /** An unordered bulk write, likewise; there the first operation can be in any batch. */
  method WriteUnordered(limits: Limits, ops: seq<Op>, answer: nat -> Outcome) returns (r: Result<Written, BulkError>)
    ensures r.Err? <==> Acceptable(limits, ops) == []
    ensures r.Ok? ==>
              var outcomes := Outcomes(answer, |r.value.batches|);
              && SplitsByType(limits, Acceptable(limits, ops), r.value.batches)
              && AllBeginRight(r.value.batches) && Ran(false, r.value, outcomes)
              && (UpsertsFaithful(r.value, outcomes) <==> AllInStep(r.value, outcomes))
    ensures r.Ok? && limits.maxWriteBatchSize >= 2 ==>
              && SplitByType(limits, Acceptable(limits, ops), r.value.batches)
              && Faithful(limits, Acceptable(limits, ops), false, r.value, Outcomes(answer, |r.value.batches|))
  {
    var split := SplitUnordered(limits, ops);
    if split.Err? {
      return Err(split.error);
    }
    var w := Perform(false, split.value, answer);
    StepOrNot(w, Outcomes(answer, |w.batches|));
    if limits.maxWriteBatchSize >= 2 {
      UnorderedFaithful(limits, Acceptable(limits, ops), w, Outcomes(answer, |w.batches|));
    }
    r := Ok(w);
  }

  // ---------------------------------------------------------------- an error at the wrong index

  const FIRST := Op(InsertBatch, [5, 0, 0, 0, 0])
  const SECOND := Op(DeleteBatch, [5, 0, 0, 0, 0])

  /** The batches of an insert followed by a delete. */
  function TwoBatches(): seq<Batch> {
    [NewBatch(InsertBatch, 0).Push(FIRST, 0), NewBatch(DeleteBatch, 1).Push(SECOND, 1)]
  }

  /** They are what the ordered splitter makes of them. */
  lemma TwoBatchesSplit(limits: Limits)
    requires limits.maxWriteBatchSize >= 2
    ensures WellSplit(limits, Number([FIRST, SECOND]), TwoBatches())
  {
    var items := Number([FIRST, SECOND]);
    assert items[..1] == [Item(FIRST, 0)] && items[..1][..0] == [];
    assert limits.Greedy(items[..1]) == [[Item(FIRST, 0)]];
    var both := [Item(FIRST, 0)] + [Item(SECOND, 1)];
    assert both[0].op.kind != both[1].op.kind;
    assert limits.Greedy(items) == [[Item(FIRST, 0)], [Item(SECOND, 1)]];
    assert TwoBatches()[0].Items() == [Item(FIRST, 0)] && TwoBatches()[1].Items() == [Item(SECOND, 1)];
    assert ItemLists(TwoBatches()) == limits.Greedy(items);
    GreedyWellSplit(limits, items, TwoBatches());
  }

  const INSERTED := Reply(true, 0, None, None, 1, NoUpserts, None, [], None)

  /** What is merged when the insert succeeds and the delete throws. */
  lemma ThrowMerged(code: int)
    ensures var batches, outcomes := TwoBatches(), [Replied(INSERTED), Thrown(code)];
            && After(batches, outcomes, 1).writeErrors == [] && After(batches, outcomes, 1).writeConcernErrors == []
            && After(batches, outcomes, 2).writeErrors == [WriteError(Some(0), code, Some(SECOND))]
  {
    var batches, outcomes := TwoBatches(), [Replied(INSERTED), Thrown(code)];
    var insert, throw := Exchange(batches[0], INSERTED), Exchange(batches[1], ThrownReply(code));
    assert Exchanges(batches, outcomes, 0) == [];
    assert Exchanges(batches, outcomes, 1) == [] + [insert];
    assert Exchanges(batches, outcomes, 2) == [insert] + [throw];
    MergedSnoc([], insert);
    MergedSnoc([insert], throw);
    assert [] + [insert] == [insert];
  }

  /** The insert succeeds and the delete throws: the error holds the delete, with index 0, which is the insert's. */
  method WrongIndex(code: int) returns (errors: seq<WriteError>, verdict: Verdict)
    ensures errors == [WriteError(Some(0), code, Some(SECOND))] && verdict == NoResult
    ensures !Names([FIRST, SECOND], errors[0])
  {
    var batches, outcomes := TwoBatches(), [Replied(INSERTED), Thrown(code)];
    ThrowMerged(code);
    var totals, executed;
    totals, executed, verdict := ExecuteCommands(true, batches, outcomes);
    assert Clean(outcomes[0]) && !Clean(outcomes[1]) && executed == 2;
    errors := totals.writeErrors;
  }

  // ---------------------------------------------------------------- an upsert at the wrong index

  const CHANGE := Op(UpdateBatch, [5, 0, 0, 0, 0])

  /** The updates of an unordered bulk of an update, an insert and an update, in their one batch. */
  const UPDATES := NewBatch(UpdateBatch, 0).Push(CHANGE, 0).Push(CHANGE, 2)

  /** The second of them upserts: it is reported at index 1, which is the insert's, and not at its own, which is 2. */
  lemma WrongUpsert(id: Bytes)
    ensures var reply := Reply(true, 0, None, None, 2, UpsertList([Upsert(1, id)]), Some(1), [], None);
            && Records([CHANGE, FIRST, CHANGE], UPDATES) && BeginsRight(UPDATES)
            && MergedAll([Exchange(UPDATES, reply)]).upserted == [Upsert(1, id)] && UPDATES.originalIndexes[1] == 2
  {
    var reply := Reply(true, 0, None, None, 2, UpsertList([Upsert(1, id)]), Some(1), [], None);
    var run := [Exchange(UPDATES, reply)];
    assert run[..0] == [] && [] + UpsertsOf(UPDATES, reply) == [Upsert(1, id)];
  }
}
