/** The splitter of ordered bulk operations (src/bulk/ordered.ts, src/bulk/common.ts). */
module BulkOrdered {
  import opened Common
  import opened BulkBatches

  /** A batch; `size` and `sizeBytes` are used by the unordered splitter only. */
  datatype Batch = Batch(originalZeroIndex: nat, originalIndexes: seq<nat>, batchType: BatchType, operations: seq<Op>,
                         size: nat, sizeBytes: nat)
  {
    /** The operations carry the type of the batch, and each has its original index. */
    ghost predicate WellFormed() {
      && |originalIndexes| == |operations|
      && forall j :: 0 <= j < |operations| ==> operations[j].kind == batchType
    }

    function Items(): seq<Item>
      requires WellFormed()
    {
      seq(|operations|, j requires 0 <= j < |operations| => Item(operations[j], originalIndexes[j]))
    }

    function Push(op: Op, index: nat): Batch {
      this.(operations := operations + [op], originalIndexes := originalIndexes + [index])
    }

    lemma PushItems(op: Op, index: nat)
      requires WellFormed() && op.kind == batchType
      ensures Push(op, index).WellFormed() && Push(op, index).Items() == Items() + [Item(op, index)]
    {
    }
  }

  function NewBatch(batchType: BatchType, originalZeroIndex: nat): Batch {
    Batch(originalZeroIndex, [], batchType, [], 0, 0)
  }

  datatype BulkError = DocumentTooLarge | OperationIsArray | BatchCannotBeEmpty

  /** The user operations with their positions. */
  function Number(ops: seq<Op>): seq<Item> {
    seq(|ops|, i requires 0 <= i < |ops| => Item(ops[i], i))
  }

  lemma NumberSnoc(ops: seq<Op>, op: Op)
    ensures Number(ops + [op]) == Number(ops) + [Item(op, |ops|)]
  {
  }

  function ItemLists(batches: seq<Batch>): seq<seq<Item>>
    requires forall k :: 0 <= k < |batches| ==> batches[k].WellFormed()
  {
    seq(|batches|, k requires 0 <= k < |batches| => batches[k].Items())
  }

  lemma ItemListsSnoc(batches: seq<Batch>, b: Batch)
    requires forall k :: 0 <= k < |batches| ==> batches[k].WellFormed()
    requires b.WellFormed()
    ensures ItemLists(batches + [b]) == ItemLists(batches) + [b.Items()]
  {
  }

  class OrderedBulkOperation {
    const limits: Limits
    var batches: seq<Batch>
    var currentBatch: Option<Batch>
    var currentBatchSize: nat
    var currentBatchSizeBytes: nat
    var currentIndex: nat

    ghost var accepted: seq<Op>
    ghost var clean: bool  // no array was passed

    function AllBatches(): seq<Batch>
      reads this
    {
      batches + if currentBatch.Some? then [currentBatch.value] else []
    }

    /** Every batch has one type, and its indexes count up from its zero index. */
    ghost predicate Shaped()
      reads this
    {
      && (forall k :: 0 <= k < |batches| ==> Consecutive(batches[k]))
      && (currentBatch.Some? ==> Consecutive(currentBatch.value))
    }

    /** The size trackers follow the current batch. */
    ghost predicate Tracked()
      reads this
    {
      && currentIndex == |accepted|
      && (currentBatch.None? ==> batches == [] && accepted == [] && currentBatchSize == currentBatchSizeBytes == 0)
      && (currentBatch.Some? ==>
            var b := currentBatch.value;
            && b.WellFormed() && |b.operations| == currentBatchSize
            && currentBatchSizeBytes == limits.Bytes(b.Items())
            && b.originalZeroIndex + |b.operations| == currentIndex)
    }

    ghost predicate Valid()
      reads this
    {
      && Shaped() && Tracked()
      && Flatten(ItemLists(AllBatches())) == Number(accepted)
      && (clean ==> ItemLists(AllBatches()) == limits.Greedy(Number(accepted)))
    }

    constructor (limits: Limits)
      ensures Valid() && this.limits == limits && accepted == [] && batches == [] && currentBatch == None
      ensures clean
    {
      this.limits := limits;
      batches, currentBatch, currentBatchSize, currentBatchSizeBytes, currentIndex := [], None, 0, 0, 0;
      accepted, clean := [], true;
    }

    method AddToOperationsList(op: Op, isArray: bool) returns (r: Result<(), BulkError>)
      requires Valid()
      modifies this
      ensures Valid()
      ensures r == if |op.document| >= limits.maxBsonObjectSize then Err(DocumentTooLarge)
                   else if isArray then Err(OperationIsArray) else Ok(())
      ensures accepted == if r.Ok? then old(accepted) + [op] else old(accepted)
      ensures clean == (old(clean) && r != Err(OperationIsArray))
      ensures r == Err(DocumentTooLarge) ==> batches == old(batches) && currentBatch == old(currentBatch)
    {
      var bsonSize := |op.document|;
      if bsonSize >= limits.maxBsonObjectSize {
        return Err(DocumentTooLarge);
      }
      SelectBatch(op);
      if isArray {
        ForgetFirstFit(op);
        return Err(OperationIsArray);
      }
      Append(op);
      r := Ok(());
    }

    /** The current batch can take `op` next. */
    ghost predicate Ready(op: Op)
      reads this
    {
      && Shaped() && Tracked() && currentBatch.Some? && currentBatch.value.batchType == op.kind
      && Flatten(ItemLists(AllBatches())) == Number(accepted)
      && (clean ==>
            ItemLists(batches) + [currentBatch.value.Items() + [Item(op, currentIndex)]]
            == limits.Extend(limits.Greedy(Number(accepted)), Item(op, currentIndex)))
    }

    /** The batch selected for an array stays, empty or not, so first fit is given up. */
    ghost method ForgetFirstFit(op: Op)
      requires Ready(op)
      modifies `clean
      ensures Valid() && !clean
    {
      clean := false;
    }

    /** Opens a batch if there is none, and a new one if the current one cannot take the operation. */
    method SelectBatch(op: Op)
      requires Valid()
      modifies this`batches, this`currentBatch, this`currentBatchSize, this`currentBatchSizeBytes
      ensures Ready(op)
    {
      if currentBatch == None {
        OpenFirst(op);
      } else {
        CurrentNotEmpty();
      }
      var maxKeySize := limits.MaxKeySize();
      var bsonSize := |op.document|;
      if currentBatchSize + 1 >= limits.maxWriteBatchSize
         || (currentBatchSize > 0 && currentBatchSizeBytes + maxKeySize + bsonSize >= limits.maxBatchSizeBytes)
         || currentBatch.value.batchType != op.kind
      {
        CloseBatch(op);
      } else if currentBatchSize > 0 {
        StaysOpen(op);
      }
    }

    method OpenFirst(op: Op)
      requires Valid() && currentBatch == None
      modifies this`currentBatch
      ensures currentBatch == Some(NewBatch(op.kind, currentIndex)) && Shaped() && Tracked()
      ensures Flatten(ItemLists(AllBatches())) == Number(accepted)
      ensures limits.maxWriteBatchSize >= 2 ==> Ready(op)
    {
      currentBatch := Some(NewBatch(op.kind, currentIndex));
      ghost var item := Item(op, currentIndex);
      assert currentBatch.value.Items() == [];
      assert ItemLists(AllBatches()) == [[]];
      FlattenOne<Item>([]);
      assert ItemLists(batches) == [] && [] + [item] == [item];
    }

    lemma CurrentNotEmpty()
      requires Valid() && currentBatch.Some?
      ensures clean ==> currentBatchSize > 0
    {
      if clean {
        limits.GreedyHolds(Number(accepted));
        ItemListsSnoc(batches, currentBatch.value);
        assert ItemLists(AllBatches())[|batches|] == currentBatch.value.Items();
      }
    }

    /** The current batch may not take the operation, by the splitter's test. */
    predicate IsFull(op: Op)
      requires currentBatch.Some?
      reads this
    {
      || currentBatchSize + 1 >= limits.maxWriteBatchSize
      || (currentBatchSize > 0
          && currentBatchSizeBytes + limits.MaxKeySize() + |op.document| >= limits.maxBatchSizeBytes)
      || currentBatch.value.batchType != op.kind
    }

    /** The current batch is first fit's last one, or the empty one that is opened first. */
    ghost predicate Closable()
      reads this
    {
      && Shaped() && Tracked() && currentBatch.Some? && Flatten(ItemLists(AllBatches())) == Number(accepted)
      && (clean ==>
            if currentBatchSize > 0 then ItemLists(AllBatches()) == limits.Greedy(Number(accepted))
            else batches == [] && accepted == [] && limits.maxWriteBatchSize < 2)
    }

    /** The new batch starts empty, so the concatenation is unchanged; first fit would start one too. */
    lemma Closes(op: Op, next: Batch)
      requires Closable() && IsFull(op) && next == NewBatch(op.kind, currentIndex)
      ensures var closed := batches + [currentBatch.value];
              && (forall k :: 0 <= k < |closed| ==> closed[k].WellFormed())
              && next.Items() == [] && Flatten(ItemLists(closed + [next])) == Number(accepted)
              && (clean ==>
                    ItemLists(closed) + [next.Items() + [Item(op, currentIndex)]]
                    == limits.Extend(limits.Greedy(Number(accepted)), Item(op, currentIndex)))
    {
      var item, cur := Item(op, currentIndex), currentBatch.value;
      limits.NotFitting(cur.Items(), item);
      ItemListsSnoc(batches, cur);
      assert next.Items() == [] && [] + [item] == [item];
      ItemListsSnoc(batches + [cur], next);
      FlattenSnoc(ItemLists(batches + [cur]), []);
      if currentBatchSize == 0 && clean {
        assert ItemLists(batches + [cur]) == [[]];
        assert [[]] + [[item]] == [[], [item]];
      }
    }

    method CloseBatch(op: Op)
      requires Closable() && IsFull(op)
      modifies this`batches, this`currentBatch, this`currentBatchSize, this`currentBatchSizeBytes
      ensures Ready(op)
    {
      Closes(op, NewBatch(op.kind, currentIndex));
      batches := batches + [currentBatch.value];
      currentBatch := Some(NewBatch(op.kind, currentIndex));
      currentBatchSize := 0;
      currentBatchSizeBytes := 0;
    }

    lemma StaysOpen(op: Op)
      requires Valid() && currentBatch.Some? && 0 < currentBatchSize && currentBatchSize + 1 < limits.maxWriteBatchSize
      requires currentBatchSizeBytes + limits.MaxKeySize() + |op.document| < limits.maxBatchSizeBytes
      requires currentBatch.value.batchType == op.kind
      ensures Ready(op)
    {
      var item, cur := Item(op, currentIndex), currentBatch.value;
      limits.Fitting(cur.Items(), item);
      ItemListsSnoc(batches, cur);
      if clean {
        var greedy := limits.Greedy(Number(accepted));
        assert greedy[..|greedy| - 1] == ItemLists(batches);
      }
    }

    lemma ExecutedBatches()
      requires Valid() && clean
      ensures AllBatches() == [] <==> accepted == []
      ensures accepted != [] ==> Splits(limits, accepted, AllBatches())
    {
      limits.GreedyHolds(Number(accepted));
      GreedyNoneEmpty(limits, Number(accepted), AllBatches());
      if limits.maxWriteBatchSize >= 2 {
        GreedyWellSplit(limits, Number(accepted), AllBatches());
      }
    }

    /** The start of `execute`: what is handed to `executeCommands`, or the error for an empty bulk. */
    method Execute() returns (r: Result<seq<Batch>, BulkError>)
      requires Valid()
      ensures r == if AllBatches() == [] then Err(BatchCannotBeEmpty) else Ok(AllBatches())
    {
      var all := batches;
      if currentBatch.Some? {
        all := all + [currentBatch.value];
      }
      r := if |all| == 0 then Err(BatchCannotBeEmpty) else Ok(all);
    }

    /** What pushing the operation makes of the batches. */
    lemma Pushed(op: Op, grown: Batch)
      requires Ready(op) && grown == currentBatch.value.Push(op, currentIndex)
      ensures Consecutive(grown)
      ensures limits.Bytes(grown.Items()) == currentBatchSizeBytes + (limits.MaxKeySize() + |op.document|)
      ensures forall k :: 0 <= k < |batches| ==> batches[k].WellFormed()
      ensures Flatten(ItemLists(batches + [grown])) == Number(accepted + [op])
      ensures clean ==> ItemLists(batches + [grown]) == limits.Greedy(Number(accepted + [op]))
    {
      var item, cur := Item(op, currentIndex), currentBatch.value;
      cur.PushItems(op, currentIndex);
      NumberSnoc(accepted, op);
      ItemListsSnoc(batches, cur);
      ItemListsSnoc(batches, grown);
      FlattenSnoc(ItemLists(batches), cur.Items());
      FlattenSnoc(ItemLists(batches), cur.Items() + [item]);
      Associative(Flatten(ItemLists(batches)), cur.Items(), [item]);
      assert (cur.Items() + [item])[..|cur.operations|] == cur.Items();
      assert Number(accepted + [op])[..|accepted|] == Number(accepted);
    }

    method Append(op: Op)
      requires Ready(op)
      modifies this`currentBatch, this`currentBatchSize, this`currentBatchSizeBytes, this`currentIndex, this`accepted
      ensures Valid() && accepted == old(accepted) + [op]
    {
      var grown := currentBatch.value.Push(op, currentIndex);
      Pushed(op, grown);
      currentBatch := Some(grown);
      currentBatchSize := currentBatchSize + 1;
      currentBatchSizeBytes := currentBatchSizeBytes + (limits.MaxKeySize() + |op.document|);
      currentIndex := currentIndex + 1;
      accepted := accepted + [op];
    }
  }

  ghost predicate Consecutive(b: Batch) {
    b.WellFormed() && forall j :: 0 <= j < |b.operations| ==> b.originalIndexes[j] == b.originalZeroIndex + j
  }

  /** The operations that are not refused for their size. */
  function Acceptable(limits: Limits, ops: seq<Op>): seq<Op> {
    if ops == [] then [] else
      var n := |ops| - 1;
      Acceptable(limits, ops[..n]) + if |ops[n].document| < limits.maxBsonObjectSize then [ops[n]] else []
  }

  lemma AcceptableNext(limits: Limits, ops: seq<Op>, i: nat)
    requires i < |ops|
    ensures Acceptable(limits, ops[..i + 1]) ==
              Acceptable(limits, ops[..i]) + if |ops[i].document| < limits.maxBsonObjectSize then [ops[i]] else []
  {
    assert ops[..i + 1][..i] == ops[..i];
  }

  /** The batches hold the items once each, in order, within the limits, and no such split is shorter. */
  ghost predicate WellSplit(limits: Limits, items: seq<Item>, batches: seq<Batch>) {
    && (forall k :: 0 <= k < |batches| ==> batches[k].WellFormed() && limits.Fits(batches[k].Items()))
    && Flatten(ItemLists(batches)) == items
    && forall split :: limits.IsSplit(items, split) ==> |batches| <= |split|
  }

  lemma GreedyWellSplit(limits: Limits, items: seq<Item>, batches: seq<Batch>)
    requires limits.maxWriteBatchSize >= 2 && forall k :: 0 <= k < |batches| ==> batches[k].WellFormed()
    requires ItemLists(batches) == limits.Greedy(items)
    ensures WellSplit(limits, items, batches)
  {
    limits.GreedySplits(items);
    forall k | 0 <= k < |batches|
      ensures limits.Fits(batches[k].Items())
    {
      assert ItemLists(batches)[k] == batches[k].Items();
    }
    forall split | limits.IsSplit(items, split)
      ensures |batches| <= |split|
    {
      limits.GreedyIsShortest(items, split);
    }
  }

  /** The batches hold the items once each, in order, in well-formed batches. */
  ghost predicate Holds(items: seq<Item>, batches: seq<Batch>) {
    (forall k :: 0 <= k < |batches| ==> batches[k].WellFormed()) && Flatten(ItemLists(batches)) == items
  }

  ghost predicate NoneEmpty(batches: seq<Batch>) {
    forall k :: 0 <= k < |batches| ==> batches[k].operations != []
  }

  /** What the ordered splitter makes of the accepted operations. */
  ghost predicate Splits(limits: Limits, ops: seq<Op>, batches: seq<Batch>) {
    && Holds(Number(ops), batches) && (forall k :: 0 <= k < |batches| ==> Consecutive(batches[k]))
    && (limits.maxWriteBatchSize >= 2 ==> WellSplit(limits, Number(ops), batches))
    && (NoneEmpty(batches) <==> limits.maxWriteBatchSize >= 2)
  }

  /** First fit leaves no batch empty exactly when a batch may hold two operations. */
  lemma GreedyNoneEmpty(limits: Limits, items: seq<Item>, batches: seq<Batch>)
    requires (forall k :: 0 <= k < |batches| ==> batches[k].WellFormed()) && ItemLists(batches) == limits.Greedy(items)
    ensures items != [] ==> (NoneEmpty(batches) <==> limits.maxWriteBatchSize >= 2)
  {
    if limits.maxWriteBatchSize >= 2 {
      limits.GreedySplits(items);
      forall k | 0 <= k < |batches|
        ensures batches[k].operations != []
      {
        assert limits.Fits(ItemLists(batches)[k]) && ItemLists(batches)[k] == batches[k].Items();
      }
    } else if items != [] {
      limits.GreedyOpensEmpty(items);
      assert ItemLists(batches)[0] == batches[0].Items();
    }
  }

  /**
   * Adding any list of operations and executing: the batches hold every accepted operation exactly once, in order, with
   * its own index and in a batch of its type. When a batch may hold two operations they are within the limits and no
   * split within the limits has fewer batches; otherwise, and only then, an empty batch is handed over.
   */
  method SplitOrdered(limits: Limits, ops: seq<Op>) returns (r: Result<seq<Batch>, BulkError>)
    ensures r.Err? <==> Acceptable(limits, ops) == []
    ensures r.Ok? ==> Splits(limits, Acceptable(limits, ops), r.value)
  {
    var bulk := new OrderedBulkOperation(limits);
    for i := 0 to |ops|
      invariant bulk.Valid() && fresh(bulk) && bulk.limits == limits && bulk.clean
      invariant bulk.accepted == Acceptable(limits, ops[..i])
    {
      AcceptableNext(limits, ops, i);
      var _ := bulk.AddToOperationsList(ops[i], false);
    }
    assert ops[..|ops|] == ops;
    r := bulk.Execute();
    bulk.ExecutedBatches();
  }
}
