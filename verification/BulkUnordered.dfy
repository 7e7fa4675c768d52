/** The splitter of unordered bulk operations: one open batch per type (src/bulk/unordered.ts). */
module BulkUnordered {
  import opened Common
  import opened BulkBatches
  import opened BulkOrdered

  function OfKind(items: seq<Item>, kind: BatchType): seq<Item> {
    if items == [] then [] else
      var n := |items| - 1;
      OfKind(items[..n], kind) + if items[n].op.kind == kind then [items[n]] else []
  }

  function BatchesOf(batches: seq<Batch>, kind: BatchType): seq<Batch> {
    if batches == [] then [] else
      var n := |batches| - 1;
      BatchesOf(batches[..n], kind) + if batches[n].batchType == kind then [batches[n]] else []
  }

  lemma BatchesOfSnoc(batches: seq<Batch>, b: Batch, kind: BatchType)
    ensures BatchesOf(batches + [b], kind) ==
              if b.batchType == kind then BatchesOf(batches, kind) + [b] else BatchesOf(batches, kind)
  {
    assert (batches + [b])[..|batches|] == batches;
  }

  lemma {:induction false} BatchesOfShaped(batches: seq<Batch>, kind: BatchType)
    requires forall k :: 0 <= k < |batches| ==> batches[k].WellFormed()
    ensures forall k :: 0 <= k < |BatchesOf(batches, kind)| ==>
              BatchesOf(batches, kind)[k].WellFormed() && BatchesOf(batches, kind)[k].batchType == kind
  {
    if batches != [] {
      BatchesOfShaped(batches[..|batches| - 1], kind);
    }
  }

  lemma OfKindSnoc(ops: seq<Op>, op: Op, kind: BatchType)
    ensures OfKind(Number(ops + [op]), kind) ==
              if op.kind == kind then OfKind(Number(ops), kind) + [Item(op, |ops|)] else OfKind(Number(ops), kind)
  {
    NumberSnoc(ops, op);
    assert (Number(ops) + [Item(op, |ops|)])[..|ops|] == Number(ops);
  }

  /** Filtering by type keeps each operation with its own position. */
  lemma {:induction false} OfKindNumbered(ops: seq<Op>, items: seq<Item>, kind: BatchType)
    requires forall i :: 0 <= i < |items| ==> items[i].index < |ops| && items[i].op == ops[items[i].index]
    ensures forall i :: 0 <= i < |OfKind(items, kind)| ==>
              && OfKind(items, kind)[i].index < |ops| && OfKind(items, kind)[i].op == ops[OfKind(items, kind)[i].index]
              && OfKind(items, kind)[i].op.kind == kind
  {
    if items != [] {
      OfKindNumbered(ops, items[..|items| - 1], kind);
    }
  }

  // ---------------------------------------------------------------- one lane: the batches of one type

  ghost predicate AllShaped(batches: seq<Batch>) {
    forall k :: 0 <= k < |batches| ==> batches[k].WellFormed()
  }

  /** The batch has operations, and begins at the position of the first. */
  ghost predicate BeginsRight(b: Batch) {
    b.operations != [] && b.originalIndexes != [] && b.originalIndexes[0] == b.originalZeroIndex
  }

  ghost predicate AllBeginRight(batches: seq<Batch>) {
    forall k :: 0 <= k < |batches| && batches[k].operations != [] ==> BeginsRight(batches[k])
  }

  /** The open batch of a type, with its size counters. */
  ghost predicate IsOpen(limits: Limits, b: Batch, kind: BatchType) {
    b.WellFormed() && b.batchType == kind && b.size == |b.operations| && b.sizeBytes == limits.Bytes(b.Items())
  }

  function Joined(saved: seq<Batch>, current: Option<Batch>): seq<Batch> {
    saved + if current.Some? then [current.value] else []
  }

  /** The batches of a lane are first fit over its operations. */
  ghost predicate FirstFit(limits: Limits, saved: seq<Batch>, current: Option<Batch>, items: seq<Item>) {
    && AllShaped(saved) && (current.Some? ==> current.value.WellFormed())
    && ItemLists(Joined(saved, current)) == limits.Greedy(items)
    && (current.None? ==> saved == [])
  }

  /** Of all the batches and operations, those of one type. */
  ghost predicate LaneOf(limits: Limits, batches: seq<Batch>, current: Option<Batch>, ops: seq<Op>, kind: BatchType) {
    FirstFit(limits, BatchesOf(batches, kind), current, OfKind(Number(ops), kind))
  }

  /** A batch of another type does not change a lane. */
  lemma OtherLane(limits: Limits, batches: seq<Batch>, current: Option<Batch>, ops: seq<Op>, kind: BatchType, b: Batch)
    requires LaneOf(limits, batches, current, ops, kind) && b.batchType != kind
    ensures LaneOf(limits, batches + [b], current, ops, kind)
  {
    BatchesOfSnoc(batches, b, kind);
  }

  lemma BeginSnoc(batches: seq<Batch>, b: Batch)
    requires AllBeginRight(batches) && (b.operations != [] ==> BeginsRight(b))
    ensures AllBeginRight(batches + [b])
  {
  }

  /** `b` is the batch that first fit would put `item` in. */
  ghost predicate Takes(limits: Limits, saved: seq<Batch>, b: Batch, items: seq<Item>, item: Item) {
    && AllShaped(saved) && b.WellFormed()
    && ItemLists(saved) + [b.Items() + [item]] == limits.Extend(limits.Greedy(items), item)
  }

  lemma LaneOpens(limits: Limits, saved: seq<Batch>, items: seq<Item>, item: Item, b: Batch)
    requires FirstFit(limits, saved, None, items) && b == NewBatch(item.op.kind, item.index)
    ensures if limits.maxWriteBatchSize >= 2 then Takes(limits, saved, b, items, item)
            else Takes(limits, saved + [b], b, items, item)
  {
    assert b.Items() == [] && [] + [item] == [item];
    assert ItemLists(saved) == [] && ItemLists(saved + [b]) == [[]];
    assert [[]] + [[item]] == [[], [item]];
  }

  lemma LaneNotEmpty(limits: Limits, saved: seq<Batch>, b: Batch, items: seq<Item>)
    requires FirstFit(limits, saved, Some(b), items)
    ensures |b.operations| > 0
  {
    limits.GreedyHolds(items);
    ItemListsSnoc(saved, b);
    assert limits.Greedy(items)[|saved|] == b.Items();
  }

  lemma LaneCloses(limits: Limits, saved: seq<Batch>, b: Batch, items: seq<Item>, item: Item, next: Batch)
    requires FirstFit(limits, saved, Some(b), items) && IsOpen(limits, b, item.op.kind) && b.size > 0
    requires b.size + 1 >= limits.maxWriteBatchSize || b.sizeBytes + limits.Cost(item) >= limits.maxBatchSizeBytes
    requires next == NewBatch(item.op.kind, item.index)
    ensures Takes(limits, saved + [b], next, items, item)
  {
    limits.NotFitting(b.Items(), item);
    ItemListsSnoc(saved, b);
    assert next.Items() == [] && [] + [item] == [item];
  }

  lemma LaneStays(limits: Limits, saved: seq<Batch>, b: Batch, items: seq<Item>, item: Item)
    requires FirstFit(limits, saved, Some(b), items) && IsOpen(limits, b, item.op.kind) && b.size > 0
    requires b.size + 1 < limits.maxWriteBatchSize && b.sizeBytes + limits.Cost(item) < limits.maxBatchSizeBytes
    ensures Takes(limits, saved, b, items, item)
  {
    limits.Fitting(b.Items(), item);
    ItemListsSnoc(saved, b);
    var greedy := limits.Greedy(items);
    assert greedy[..|greedy| - 1] == ItemLists(saved);
  }

  lemma LaneGrows(limits: Limits, saved: seq<Batch>, b: Batch, items: seq<Item>, item: Item, grown: Batch)
    requires Takes(limits, saved, b, items, item) && b.batchType == item.op.kind
    requires grown.WellFormed() && grown.Items() == b.Items() + [item]
    ensures FirstFit(limits, saved, Some(grown), items + [item])
  {
    ItemListsSnoc(saved, grown);
    assert (items + [item])[..|items|] == items;
  }

  class UnorderedBulkOperation {
    const limits: Limits
    var batches: seq<Batch>
    var currentInsertBatch: Option<Batch>
    var currentUpdateBatch: Option<Batch>
    var currentRemoveBatch: Option<Batch>
    var currentIndex: nat

    ghost var accepted: seq<Op>
    ghost var clean: bool  // no array was passed

    function Current(kind: BatchType): Option<Batch>
      reads this
    {
      match kind
      case InsertBatch => currentInsertBatch
      case UpdateBatch => currentUpdateBatch
      case DeleteBatch => currentRemoveBatch
    }

    ghost predicate Shaped()
      reads this
    {
      && currentIndex == |accepted|
      && (forall k :: 0 <= k < |batches| ==> batches[k].WellFormed())
      && OpenBatches()
    }

    ghost predicate OpenBatches()
      reads this`currentInsertBatch, this`currentUpdateBatch, this`currentRemoveBatch
    {
      && (currentInsertBatch.Some? ==> IsOpen(limits, currentInsertBatch.value, InsertBatch))
      && (currentUpdateBatch.Some? ==> IsOpen(limits, currentUpdateBatch.value, UpdateBatch))
      && (currentRemoveBatch.Some? ==> IsOpen(limits, currentRemoveBatch.value, DeleteBatch))
    }

    /** Every batch begins at the position of its first operation. */
    ghost predicate Begun()
      reads this`batches, this`currentInsertBatch, this`currentUpdateBatch, this`currentRemoveBatch
    {
      && AllBeginRight(batches)
      && (currentInsertBatch.Some? ==> BeginsRight(currentInsertBatch.value))
      && (currentUpdateBatch.Some? ==> BeginsRight(currentUpdateBatch.value))
      && (currentRemoveBatch.Some? ==> BeginsRight(currentRemoveBatch.value))
    }

    /** The batch is new, or it begins at the position of its first operation. */
    ghost predicate MayTake(b: Batch)
      reads this`currentIndex
    {
      if b.operations == [] then b.originalZeroIndex == currentIndex && b.originalIndexes == [] else BeginsRight(b)
    }

    /** One type's lane. */
    ghost predicate Lane(kind: BatchType)
      reads this
    {
      LaneOf(limits, batches, Current(kind), accepted, kind)
    }

    ghost predicate Valid()
      reads this
    {
      Shaped() && (clean ==> Lane(InsertBatch) && Lane(UpdateBatch) && Lane(DeleteBatch))
    }

    constructor (limits: Limits)
      ensures Valid() && Begun() && this.limits == limits && accepted == [] && clean
    {
      this.limits := limits;
      batches, currentInsertBatch, currentUpdateBatch, currentRemoveBatch, currentIndex := [], None, None, None, 0;
      accepted, clean := [], true;
    }

    method AddToOperationsList(op: Op, isArray: bool) returns (r: Result<(), BulkError>)
      requires Valid() && Begun()
      modifies this
      ensures Valid() && Begun()
      ensures r == if |op.document| >= limits.maxBsonObjectSize then Err(DocumentTooLarge)
                   else if isArray then Err(OperationIsArray) else Ok(())
      ensures accepted == if r.Ok? then old(accepted) + [op] else old(accepted)
      ensures clean == (old(clean) && r != Err(OperationIsArray))
    {
      if |op.document| >= limits.maxBsonObjectSize {
        return Err(DocumentTooLarge);
      }
      var currentBatch := SelectBatch(op);
      if isArray {
        ForgetFirstFit(op, currentBatch);
        return Err(OperationIsArray);
      }
      Append(op, currentBatch);
      r := Ok(());
    }

    ghost predicate OtherLanes(kind: BatchType)
      reads this
    {
      && (kind != InsertBatch ==> Lane(InsertBatch))
      && (kind != UpdateBatch ==> Lane(UpdateBatch))
      && (kind != DeleteBatch ==> Lane(DeleteBatch))
    }

    /** `b` is the batch that takes `op` next; the other lanes are as they were. */
    ghost predicate Ready(op: Op, b: Batch)
      reads this
    {
      && Shaped() && IsOpen(limits, b, op.kind)
      && (clean ==>
            && OtherLanes(op.kind)
            && Takes(limits, BatchesOf(batches, op.kind), b, OfKind(Number(accepted), op.kind), Item(op, currentIndex)))
    }

    /** A batch closed for an array stays the open one too, so first fit is given up. */
    ghost method ForgetFirstFit(op: Op, b: Batch)
      requires Ready(op, b)
      modifies `clean
      ensures Valid() && !clean
    {
      clean := false;
    }

    method SelectBatch(op: Op) returns (b: Batch)
      requires Valid() && Begun()
      modifies this`batches
      ensures Ready(op, b) && Begun() && MayTake(b)
    {
      ghost var saved, items := BatchesOf(batches, op.kind), OfKind(Number(accepted), op.kind);
      ghost var item := Item(op, currentIndex);
      assert clean ==> Lane(op.kind);
      var kept := Current(op.kind);
      if kept == None {
        b := NewBatch(op.kind, currentIndex);
        if clean {
          LaneOpens(limits, saved, items, item, b);
        }
      } else {
        b := kept.value;
        if clean {
          LaneNotEmpty(limits, saved, b, items);
        }
      }
      var maxKeySize := limits.MaxKeySize();
      if b.size + 1 >= limits.maxWriteBatchSize
         || (b.size > 0 && b.sizeBytes + maxKeySize + |op.document| >= limits.maxBatchSizeBytes)
         || b.batchType != op.kind
      {
        b := CloseBatch(op, b);
      } else if clean && b.size > 0 {
        LaneStays(limits, saved, b, items, item);
      }
    }

    /** The batch has to be closed before it takes the operation. */
    ghost predicate MustClose(op: Op, b: Batch)
      reads this
    {
      && (if Current(op.kind).Some? then Current(op.kind).value == b && b.size > 0
          else b == NewBatch(op.kind, currentIndex) && limits.maxWriteBatchSize < 2)
      && (b.size + 1 >= limits.maxWriteBatchSize
          || (b.size > 0 && b.sizeBytes + limits.MaxKeySize() + |op.document| >= limits.maxBatchSizeBytes))
    }

    /** In the lane of a batch that is saved, first fit would start a new batch too. */
    lemma Closes(op: Op, b: Batch, next: Batch)
      requires Valid() && clean && IsOpen(limits, b, op.kind) && next == NewBatch(op.kind, currentIndex)
      requires MustClose(op, b)
      ensures Takes(limits, BatchesOf(batches + [b], op.kind), next, OfKind(Number(accepted), op.kind),
                    Item(op, currentIndex))
    {
      var items, item := OfKind(Number(accepted), op.kind), Item(op, currentIndex);
      BatchesOfSnoc(batches, b, op.kind);
      assert Lane(op.kind);
      if Current(op.kind).Some? {
        LaneCloses(limits, BatchesOf(batches, op.kind), b, items, item, next);
      } else {
        LaneOpens(limits, BatchesOf(batches, op.kind), items, item, b);
      }
    }

    /** The other lanes stay as they are. */
    lemma OthersStay(kind: BatchType, b: Batch)
      requires Valid() && clean && b.batchType == kind
      ensures forall other :: other != kind ==> LaneOf(limits, batches + [b], Current(other), accepted, other)
    {
      forall other | other != kind
        ensures LaneOf(limits, batches + [b], Current(other), accepted, other)
      {
        assert Lane(other);
        OtherLane(limits, batches, Current(other), accepted, other, b);
      }
    }

    /** The open batch is full for this operation: it is saved, and a new one started. */
    method CloseBatch(op: Op, b: Batch) returns (next: Batch)
      requires Valid() && IsOpen(limits, b, op.kind) && Begun() && MayTake(b)
      requires clean ==> MustClose(op, b)
      modifies this`batches
      ensures Ready(op, next) && Begun() && MayTake(next)
    {
      next := NewBatch(op.kind, currentIndex);
      if clean {
        Closes(op, b, next);
        OthersStay(op.kind, b);
      }
      BeginSnoc(batches, b);
      batches := batches + [b];
    }

    /** The operation goes into its batch, which is saved back as the open batch of its type. */
    method Append(op: Op, b: Batch)
      requires Ready(op, b) && Begun() && MayTake(b)
      modifies this`currentInsertBatch, this`currentUpdateBatch, this`currentRemoveBatch, this`currentIndex,
               this`accepted
      ensures Valid() && Begun() && accepted == old(accepted) + [op]
    {
      var sizeBytes := b.sizeBytes + (limits.MaxKeySize() + |op.document|);
      var grown := b.Push(op, currentIndex).(size := b.size + 1, sizeBytes := sizeBytes);
      Grown(limits, b, op, currentIndex, grown);
      GrownBegins(b, op, grown);
      if clean {
        NextLane(op, b, grown, InsertBatch);
        NextLane(op, b, grown, UpdateBatch);
        NextLane(op, b, grown, DeleteBatch);
      }
      currentIndex := currentIndex + 1;
      accepted := accepted + [op];
      Save(op.kind, grown);
    }

    lemma GrownBegins(b: Batch, op: Op, grown: Batch)
      requires MayTake(b) && b.WellFormed()
      requires grown.operations == b.operations + [op] && grown.originalIndexes == b.originalIndexes + [currentIndex]
      requires grown.originalZeroIndex == b.originalZeroIndex
      ensures BeginsRight(grown)
    {
    }

    lemma NextLane(op: Op, b: Batch, grown: Batch, kind: BatchType)
      requires Ready(op, b) && clean && grown.WellFormed() && grown.Items() == b.Items() + [Item(op, currentIndex)]
      ensures LaneOf(limits, batches, if kind == op.kind then Some(grown) else Current(kind), accepted + [op], kind)
    {
      OfKindSnoc(accepted, op, kind);
      if kind == op.kind {
        LaneGrows(limits, BatchesOf(batches, kind), b, OfKind(Number(accepted), kind), Item(op, currentIndex), grown);
      } else {
        assert Lane(kind);
      }
    }

    /** Saves the batch back as the open one of its type. */
    method Save(kind: BatchType, b: Batch)
      requires OpenBatches() && IsOpen(limits, b, kind) && Begun() && BeginsRight(b)
      modifies this`currentInsertBatch, this`currentUpdateBatch, this`currentRemoveBatch
      ensures OpenBatches() && Begun() && Current(kind) == Some(b)
      ensures forall other :: other != kind ==> Current(other) == old(Current(other))
    {
      match kind {
        case InsertBatch => currentInsertBatch := Some(b);
        case UpdateBatch => currentUpdateBatch := Some(b);
        case DeleteBatch => currentRemoveBatch := Some(b);
      }
    }

    /** The start of `execute`: the saved batches, then the open insert, update and remove batches. */
    method Execute() returns (r: Result<seq<Batch>, BulkError>)
      requires Valid()
      ensures r == if AllBatches() == [] then Err(BatchCannotBeEmpty) else Ok(AllBatches())
      ensures r.Ok? ==>
                r.value == batches + (if currentInsertBatch.Some? then [currentInsertBatch.value] else [])
                           + (if currentUpdateBatch.Some? then [currentUpdateBatch.value] else [])
                           + (if currentRemoveBatch.Some? then [currentRemoveBatch.value] else [])
    {
      var all := batches;
      if currentInsertBatch.Some? {
        all := all + [currentInsertBatch.value];
      }
      if currentUpdateBatch.Some? {
        all := all + [currentUpdateBatch.value];
      }
      if currentRemoveBatch.Some? {
        all := all + [currentRemoveBatch.value];
      }
      assert all == AllBatches();
      r := if |all| == 0 then Err(BatchCannotBeEmpty) else Ok(all);
    }

    /** Of all batches handed over, those of one type are that type's lane. */
    lemma LaneOfAll(kind: BatchType)
      requires Shaped()
      ensures BatchesOf(AllBatches(), kind) == Joined(BatchesOf(batches, kind), Current(kind))
    {
      var one := batches + Opened(InsertBatch);
      var two := one + Opened(UpdateBatch);
      AddOpened(batches, currentInsertBatch, InsertBatch, kind);
      AddOpened(one, currentUpdateBatch, UpdateBatch, kind);
      AddOpened(two, currentRemoveBatch, DeleteBatch, kind);
    }

    /** The batches of each type hold the operations of that type, once each and in order. */
    lemma LaneHolds(kind: BatchType)
      requires Valid() && clean
      ensures Holds(OfKind(Number(accepted), kind), BatchesOf(AllBatches(), kind))
      ensures ItemLists(BatchesOf(AllBatches(), kind)) == limits.Greedy(OfKind(Number(accepted), kind))
    {
      LaneOfAll(kind);
      assert Lane(kind);
      limits.GreedyHolds(OfKind(Number(accepted), kind));
    }

    lemma ExecutedBatches(kind: BatchType)
      requires Valid() && clean && limits.maxWriteBatchSize >= 2
      ensures WellSplit(limits, OfKind(Number(accepted), kind), BatchesOf(AllBatches(), kind))
    {
      LaneHolds(kind);
      GreedyWellSplit(limits, OfKind(Number(accepted), kind), BatchesOf(AllBatches(), kind));
    }

    /** Every batch handed over begins at the position of its first operation. */
    lemma ExecutedBegin()
      requires Begun()
      ensures AllBeginRight(AllBatches())
    {
    }

    /** What is handed over: by type, a split; empty exactly when nothing was accepted. */
    lemma Executed()
      requires Valid() && clean
      ensures AllBatches() == [] <==> accepted == []
      ensures accepted != [] ==> SplitsByType(limits, accepted, AllBatches())
    {
      forall kind
        ensures Holds(OfKind(Number(accepted), kind), BatchesOf(AllBatches(), kind))
        ensures ItemLists(BatchesOf(AllBatches(), kind)) == limits.Greedy(OfKind(Number(accepted), kind))
        ensures limits.maxWriteBatchSize >= 2 ==>
                  WellSplit(limits, OfKind(Number(accepted), kind), BatchesOf(AllBatches(), kind))
      {
        LaneHolds(kind);
        if limits.maxWriteBatchSize >= 2 {
          ExecutedBatches(kind);
        }
      }
      EmptyTogether(limits, accepted, AllBatches());
      if accepted != [] {
        LanesNoneEmpty(limits, accepted, AllBatches());
      }
    }

    function AllBatches(): seq<Batch>
      reads this
    {
      batches + Opened(InsertBatch) + Opened(UpdateBatch) + Opened(DeleteBatch)
    }

    function Opened(kind: BatchType): seq<Batch>
      reads this
    {
      if Current(kind).Some? then [Current(kind).value] else []
    }
  }

  lemma Grown(limits: Limits, b: Batch, op: Op, index: nat, grown: Batch)
    requires IsOpen(limits, b, op.kind)
    requires var sizeBytes := b.sizeBytes + (limits.MaxKeySize() + |op.document|);
             grown == b.Push(op, index).(size := b.size + 1, sizeBytes := sizeBytes)
    ensures IsOpen(limits, grown, op.kind) && grown.Items() == b.Items() + [Item(op, index)]
  {
    b.PushItems(op, index);
    assert grown.Items() == b.Push(op, index).Items();
    assert (b.Items() + [Item(op, index)])[..|b.operations|] == b.Items();
  }

  lemma AddOpened(batches: seq<Batch>, current: Option<Batch>, own: BatchType, kind: BatchType)
    requires current.Some? ==> current.value.batchType == own
    ensures BatchesOf(Joined(batches, current), kind) ==
              if own == kind then Joined(BatchesOf(batches, kind), current) else BatchesOf(batches, kind)
  {
    if current.Some? {
      BatchesOfSnoc(batches, current.value, kind);
    } else {
      assert Joined(batches, current) == batches;
      assert Joined(BatchesOf(batches, kind), current) == BatchesOf(batches, kind);
    }
  }

  /** Every batch is in the lane of its type. */
  lemma {:induction false} InLane(batches: seq<Batch>, k: nat) returns (m: nat)
    requires k < |batches|
    ensures m < |BatchesOf(batches, batches[k].batchType)| && BatchesOf(batches, batches[k].batchType)[m] == batches[k]
  {
    var n := |batches| - 1;
    var init := batches[..n];
    assert batches == init + [batches[n]];
    BatchesOfSnoc(init, batches[n], batches[k].batchType);
    if k == n {
      m := |BatchesOf(init, batches[k].batchType)|;
    } else {
      m := InLane(init, k);
    }
  }

  /** Per type, the batches are a shortest split of the operations of that type. */
  ghost predicate SplitByType(limits: Limits, ops: seq<Op>, batches: seq<Batch>) {
    forall kind :: WellSplit(limits, OfKind(Number(ops), kind), BatchesOf(batches, kind))
  }

  /** Per type, the batches are first fit. */
  ghost predicate GreedyByType(limits: Limits, ops: seq<Op>, batches: seq<Batch>) {
    forall kind ::
      && Holds(OfKind(Number(ops), kind), BatchesOf(batches, kind))
      && ItemLists(BatchesOf(batches, kind)) == limits.Greedy(OfKind(Number(ops), kind))
  }

  /** What the unordered splitter makes of the accepted operations. */
  ghost predicate SplitsByType(limits: Limits, ops: seq<Op>, batches: seq<Batch>) {
    && (forall kind :: Holds(OfKind(Number(ops), kind), BatchesOf(batches, kind)))
    && (limits.maxWriteBatchSize >= 2 ==> SplitByType(limits, ops, batches))
    && (NoneEmpty(batches) <==> limits.maxWriteBatchSize >= 2)
  }

  /** The type of the last operation has a non-empty lane. */
  lemma SomeLane(ops: seq<Op>, kind: BatchType)
    requires ops != [] && ops[|ops| - 1].kind == kind
    ensures OfKind(Number(ops), kind) != []
  {
  }

  lemma NoLane(ops: seq<Op>, kind: BatchType)
    requires ops == []
    ensures OfKind(Number(ops), kind) == []
  {
  }

  lemma NoBatches(limits: Limits, items: seq<Item>, batches: seq<Batch>)
    requires AllShaped(batches) && ItemLists(batches) == limits.Greedy(items)
    ensures items == [] ==> batches == []
  {
  }

  /** There are batches exactly when there are operations. */
  lemma EmptyTogether(limits: Limits, ops: seq<Op>, batches: seq<Batch>)
    requires GreedyByType(limits, ops, batches)
    ensures batches == [] <==> ops == []
  {
    if ops != [] {
      var kind := ops[|ops| - 1].kind;
      SomeLane(ops, kind);
      limits.GreedyHolds(OfKind(Number(ops), kind));
      assert ItemLists(BatchesOf(batches, kind)) != [];
    } else if batches != [] {
      var kind := batches[0].batchType;
      var m := InLane(batches, 0);
      NoLane(ops, kind);
      NoBatches(limits, OfKind(Number(ops), kind), BatchesOf(batches, kind));
    }
  }

  lemma LanesNoneEmpty(limits: Limits, ops: seq<Op>, batches: seq<Batch>)
    requires GreedyByType(limits, ops, batches) && ops != []
    ensures NoneEmpty(batches) <==> limits.maxWriteBatchSize >= 2
  {
    var last := ops[|ops| - 1].kind;
    SomeLane(ops, last);
    GreedyNoneEmpty(limits, OfKind(Number(ops), last), BatchesOf(batches, last));
    if limits.maxWriteBatchSize >= 2 {
      forall k | 0 <= k < |batches|
        ensures batches[k].operations != []
      {
        var kind := batches[k].batchType;
        var m := InLane(batches, k);
        GreedyNoneEmpty(limits, OfKind(Number(ops), kind), BatchesOf(batches, kind));
        NoBatches(limits, OfKind(Number(ops), kind), BatchesOf(batches, kind));
      }
    } else {
      LaneEmpty(batches, last);
    }
  }

  /** An empty batch of a lane is an empty batch. */
  lemma {:induction false} LaneEmpty(batches: seq<Batch>, kind: BatchType)
    ensures NoneEmpty(batches) ==> NoneEmpty(BatchesOf(batches, kind))
  {
    if batches != [] {
      var n := |batches| - 1;
      LaneEmpty(batches[..n], kind);
      assert batches == batches[..n] + [batches[n]];
      BatchesOfSnoc(batches[..n], batches[n], kind);
    }
  }

  /**
   * Adding any list of operations and executing: per type, the batches hold every accepted operation of that type
   * exactly once, in order and with its own index. When a batch may hold two operations they are within the limits and
   * no split within the limits has fewer batches; otherwise, and only then, an empty batch is handed over.
   */
  method SplitUnordered(limits: Limits, ops: seq<Op>) returns (r: Result<seq<Batch>, BulkError>)
    ensures r.Err? <==> Acceptable(limits, ops) == []
    ensures r.Ok? ==> SplitsByType(limits, Acceptable(limits, ops), r.value) && AllBeginRight(r.value)
  {
    var bulk := Filled(limits, ops);
    r := bulk.Execute();
    bulk.Executed();
    bulk.ExecutedBegin();
  }

  /** A bulk with any operations added. */
  method Filled(limits: Limits, ops: seq<Op>) returns (bulk: UnorderedBulkOperation)
    ensures fresh(bulk) && bulk.Valid() && bulk.Begun() && bulk.limits == limits && bulk.clean
    ensures bulk.accepted == Acceptable(limits, ops)
  {
    bulk := new UnorderedBulkOperation(limits);
    for i := 0 to |ops|
      invariant bulk.Valid() && bulk.Begun() && fresh(bulk) && bulk.limits == limits && bulk.clean
      invariant bulk.accepted == Acceptable(limits, ops[..i])
    {
      AcceptableNext(limits, ops, i);
      var _ := bulk.AddToOperationsList(ops[i], false);
    }
    assert ops[..|ops|] == ops;
  }
}
