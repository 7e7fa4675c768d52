/** How bulk operations are split into batches, independently of how the splitter keeps its state (src/bulk). */
module BulkBatches {
  import opened Common

  datatype BatchType = InsertBatch | UpdateBatch | DeleteBatch

  /** A user operation: its document is known by its serialized bytes. */
  datatype Op = Op(kind: BatchType, document: Bytes)

  /** A user operation with its position in the bulk. */
  datatype Item = Item(op: Op, index: nat)

  datatype Limits = Limits(maxBsonObjectSize: nat, maxBatchSizeBytes: nat, maxWriteBatchSize: nat)
  {
    /** Type byte, decimal digits of the largest array index, terminating zero. */
    function MaxKeySize(): nat {
      (if maxWriteBatchSize == 0 then 2 else Digits(maxWriteBatchSize - 1)) + 2
    }

    function Cost(item: Item): nat {
      MaxKeySize() + |item.op.document|
    }

    /** The byte count that the splitter tracks. */
    function Bytes(batch: seq<Item>): nat {
      if batch == [] then 0 else Bytes(batch[..|batch| - 1]) + Cost(batch[|batch| - 1])
    }

    predicate Uniform(batch: seq<Item>) {
      forall i, j :: 0 <= i < |batch| && 0 <= j < |batch| ==> batch[i].op.kind == batch[j].op.kind
    }

    /** The limits on a batch: one type, fewer than maxWriteBatchSize operations, and bytes from the second on. */
    predicate Fits(batch: seq<Item>) {
      && batch != [] && Uniform(batch) && |batch| < maxWriteBatchSize
      && (|batch| >= 2 ==> Bytes(batch) < maxBatchSizeBytes)
    }

    /** Any way to cut the operations, in order, into batches within the limits. */
    ghost predicate IsSplit(items: seq<Item>, split: seq<seq<Item>>) {
      Flatten(split) == items && forall k :: 0 <= k < |split| ==> Fits(split[k])
    }

    /**
     * First fit in arrival order: extend the last batch whenever the limits allow it. Where not even two operations may
     * share a batch, the first one is closed before anything is put in it.
     */
    function Greedy(items: seq<Item>): seq<seq<Item>> {
      if items == [] then [] else Extend(Greedy(items[..|items| - 1]), items[|items| - 1])
    }

    function Extend(batches: seq<seq<Item>>, item: Item): seq<seq<Item>> {
      if batches == [] then (if maxWriteBatchSize >= 2 then [[item]] else [[], [item]]) else
        var n := |batches| - 1;
        if Fits(batches[n] + [item]) then batches[..n] + [batches[n] + [item]] else batches + [[item]]
    }

    // -------------------------------------------------------------- what the limits are

    /** The documents of a batch together. */
    function DocumentBytes(batch: seq<Item>): nat {
      if batch == [] then 0 else DocumentBytes(batch[..|batch| - 1]) + |batch[|batch| - 1].op.document|
    }

    lemma {:induction false} BytesMeasured(batch: seq<Item>)
      ensures Bytes(batch) == |batch| * MaxKeySize() + DocumentBytes(batch)
    {
      if batch != [] {
        BytesMeasured(batch[..|batch| - 1]);
        assert |batch| * MaxKeySize() == (|batch| - 1) * MaxKeySize() + MaxKeySize();
      }
    }

    /** A batch is within the limits exactly if it has one type, stays below the count, and below the size if shared. */
    lemma FitsMeans(batch: seq<Item>)
      ensures Fits(batch) <==>
                && 0 < |batch| < maxWriteBatchSize
                && (forall i :: 0 <= i < |batch| ==> batch[i].op.kind == batch[0].op.kind)
                && (|batch| == 1
                    || |batch| * (Digits(maxWriteBatchSize - 1) + 2) + DocumentBytes(batch) < maxBatchSizeBytes)
    {
      BytesMeasured(batch);
    }

    // -------------------------------------------------------------- the limits are closed under shortening

    lemma {:induction false} BytesFrom(batch: seq<Item>, k: nat)
      requires k <= |batch|
      ensures Bytes(batch[k..]) <= Bytes(batch)
    {
      if k < |batch| {
        var n := |batch| - 1;
        assert batch[k..][..n - k] == batch[..n][k..];
        BytesFrom(batch[..n], k);
      }
    }

    lemma FitsFrom(batch: seq<Item>, k: nat)
      requires Fits(batch) && k < |batch|
      ensures Fits(batch[k..])
    {
      BytesFrom(batch, k);
    }

    lemma FitsButLast(batch: seq<Item>)
      requires Fits(batch) && |batch| >= 2
      ensures Fits(batch[..|batch| - 1])
    {
    }

    lemma FitsOne(item: Item)
      requires maxWriteBatchSize >= 2
      ensures Fits([item])
    {
    }

    /** The splitter's test for closing a batch is the negation of the limits on the extended batch. */
    lemma NotFitting(batch: seq<Item>, item: Item)
      requires batch != [] ==> Uniform(batch)
      ensures (batch != [] && (|batch| + 1 >= maxWriteBatchSize || Bytes(batch) + Cost(item) >= maxBatchSizeBytes
                               || batch[0].op.kind != item.op.kind)) ==> !Fits(batch + [item])
    {
      assert (batch + [item])[..|batch|] == batch;
      if batch != [] {
        assert (batch + [item])[0] == batch[0] && (batch + [item])[|batch|] == item;
      }
    }

    lemma Fitting(batch: seq<Item>, item: Item)
      requires batch != [] && Uniform(batch) && batch[0].op.kind == item.op.kind
      requires |batch| + 1 < maxWriteBatchSize && Bytes(batch) + Cost(item) < maxBatchSizeBytes
      ensures Fits(batch + [item])
    {
      assert (batch + [item])[..|batch|] == batch;
      assert forall i :: 0 <= i < |batch + [item]| ==> (batch + [item])[i].op.kind == item.op.kind;
    }

    // -------------------------------------------------------------- first fit is a split, and a shortest one

    lemma ExtendHolds(batches: seq<seq<Item>>, item: Item)
      ensures Flatten(Extend(batches, item)) == Flatten(batches) + [item]
      ensures var after := Extend(batches, item); after != [] && after[|after| - 1] != []
    {
      if batches == [] {
        FlattenOne([item]);
        OpenedEmpty(item);
      } else {
        var n := |batches| - 1;
        FlattenLast(batches);
        FlattenSnoc(batches[..n], batches[n] + [item]);
        Associative(Flatten(batches[..n]), batches[n], [item]);
        FlattenSnoc(batches, [item]);
      }
    }

    lemma LastApart(items: seq<Item>)
      requires items != []
      ensures items[..|items| - 1] + [items[|items| - 1]] == items
    {
    }

    /** Whatever the limits, first fit holds the operations once each and in order, and ends with one of them. */
    lemma {:induction false} GreedyHolds(items: seq<Item>)
      ensures Flatten(Greedy(items)) == items
      ensures items != [] ==> Greedy(items) != [] && Greedy(items)[|Greedy(items)| - 1] != []
    {
      if items != [] {
        var n := |items| - 1;
        GreedyHolds(items[..n]);
        ExtendHolds(Greedy(items[..n]), items[n]);
        LastApart(items);
      }
    }

    lemma OpenedEmpty(item: Item)
      ensures Flatten([[], [item]]) == [item]
    {
      var none: seq<seq<Item>> := [[]];
      assert [[], [item]] == none + [[item]];
      FlattenSnoc(none, [item]);
      FlattenOne<Item>([]);
    }

    lemma {:induction false} GreedyOpensEmpty(items: seq<Item>)
      requires maxWriteBatchSize < 2 && items != []
      ensures Greedy(items) != [] && Greedy(items)[0] == []
    {
      if |items| > 1 {
        GreedyOpensEmpty(items[..|items| - 1]);
      }
    }

    ghost predicate AllFit(batches: seq<seq<Item>>) {
      forall k :: 0 <= k < |batches| ==> Fits(batches[k])
    }

    lemma ExtendFits(batches: seq<seq<Item>>, item: Item)
      requires maxWriteBatchSize >= 2 && AllFit(batches)
      ensures AllFit(Extend(batches, item))
    {
      FitsOne(item);
    }

    lemma {:induction false} GreedyFits(items: seq<Item>)
      requires maxWriteBatchSize >= 2
      ensures AllFit(Greedy(items))
    {
      if items != [] {
        GreedyFits(items[..|items| - 1]);
        ExtendFits(Greedy(items[..|items| - 1]), items[|items| - 1]);
      }
    }

    lemma GreedySplits(items: seq<Item>)
      requires maxWriteBatchSize >= 2
      ensures IsSplit(items, Greedy(items))
    {
      GreedyHolds(items);
      GreedyFits(items);
      assert AllFit(Greedy(items));
    }

    /** A split of everything but the last operation, got by taking that operation out of its batch. */
    lemma DropLast(items: seq<Item>, split: seq<seq<Item>>) returns (shorter: seq<seq<Item>>)
      requires items != [] && IsSplit(items, split)
      ensures split != [] && split[|split| - 1][|split[|split| - 1]| - 1] == items[|items| - 1]
      ensures IsSplit(items[..|items| - 1], shorter)
      ensures var last := split[|split| - 1];
              if |last| == 1 then shorter == split[..|split| - 1]
              else shorter == split[..|split| - 1] + [last[..|last| - 1]]
    {
      assert |Flatten(split)| > 0;
      var n := |split| - 1;
      var front, last := split[..n], split[n];
      FlattenLast(split);
      assert last == last[..|last| - 1] + [last[|last| - 1]];
      Associative(Flatten(front), last[..|last| - 1], [last[|last| - 1]]);
      if |last| == 1 {
        shorter := front;
        assert Flatten(front) + [] == Flatten(front);
      } else {
        shorter := front + [last[..|last| - 1]];
        FitsButLast(last);
        FlattenSnoc(front, last[..|last| - 1]);
      }
      assert items[..|items| - 1] == Flatten(shorter);
    }

    /**
     * First fit stays ahead: no split uses fewer batches, and one that uses as many has a last batch at least as long.
     */
    lemma {:induction false} GreedyIsShortest(items: seq<Item>, split: seq<seq<Item>>)
      requires maxWriteBatchSize >= 2 && IsSplit(items, split)
      ensures |Greedy(items)| <= |split|
      ensures items != [] && |Greedy(items)| == |split| ==> |Greedy(items)[|split| - 1]| <= |split[|split| - 1]|
      decreases |items|
    {
      if items != [] {
        var n := |items| - 1;
        var x, before := items[n], Greedy(items[..n]);
        var shorter := DropLast(items, split);
        GreedyIsShortest(items[..n], shorter);
        GreedySplits(items[..n]);
        var last := split[|split| - 1];
        if before != [] && !Fits(before[|before| - 1] + [x]) && |last| >= 2 {
          MustClose(items, before, split, shorter);
        }
      }
    }

    /** A batch that first fit had to close cannot be extended by a split that is as short. */
    lemma MustClose(items: seq<Item>, before: seq<seq<Item>>, split: seq<seq<Item>>, shorter: seq<seq<Item>>)
      requires items != [] && before != [] && split != [] && |split[|split| - 1]| >= 2
      requires var last := split[|split| - 1];
               && Fits(last) && last[|last| - 1] == items[|items| - 1]
               && shorter == split[..|split| - 1] + [last[..|last| - 1]]
      requires Flatten(before) == items[..|items| - 1] == Flatten(shorter)
      requires |before| <= |shorter|
      requires |before| == |shorter| ==> |before[|before| - 1]| <= |shorter[|shorter| - 1]|
      requires !Fits(before[|before| - 1] + [items[|items| - 1]])
      ensures |before| < |shorter|
    {
      if |before| == |shorter| {
        var last, mine, x := split[|split| - 1], before[|before| - 1], items[|items| - 1];
        Contains(items[..|items| - 1], before, shorter);
        var k := |last| - 1 - |mine|;
        assert last[k..] == mine + [x];
        FitsFrom(last, k);
      }
    }

    /** Two splits of the same operations: the shorter last batch is the end of the longer one. */
    lemma Contains(items: seq<Item>, a: seq<seq<Item>>, b: seq<seq<Item>>)
      requires Flatten(a) == items == Flatten(b) && a != [] && b != []
      requires |a[|a| - 1]| <= |b[|b| - 1]|
      ensures var x, y := a[|a| - 1], b[|b| - 1]; x == y[|y| - |x|..]
    {
      FlattenLast(a);
      FlattenLast(b);
      var x, y := a[|a| - 1], b[|b| - 1];
      assert x == items[|items| - |x|..];
      assert y == items[|items| - |y|..];
    }

    // -------------------------------------------------------------- the tracked size bounds the encoded size

    /** Size of the BSON array body: each element has a type byte, its decimal index, a zero, and the document. */
    function Encoded(batch: seq<Item>): nat {
      if batch == [] then 0 else
        var n := |batch| - 1;
        Encoded(batch[..n]) + 1 + Digits(n) + 1 + |batch[n].op.document|
    }

    lemma {:induction false} EncodedWithin(batch: seq<Item>)
      requires |batch| < maxWriteBatchSize
      ensures Encoded(batch) <= Bytes(batch)
    {
      if batch != [] {
        EncodedWithin(batch[..|batch| - 1]);
        DigitsMonotone(|batch| - 1, maxWriteBatchSize - 1);
      }
    }

    /** Every batch of the splitter, once encoded, is within the byte limit, unless it is a single large document. */
    lemma BatchWithinLimit(batch: seq<Item>)
      requires Fits(batch)
      ensures Encoded(batch) <= Bytes(batch)
      ensures |batch| >= 2 ==> Encoded(batch) < maxBatchSizeBytes
    {
      EncodedWithin(batch);
    }
  }

  /** Length of `n.toString(10)`. */
  function Digits(n: nat): nat {
    if n < 10 then 1 else 1 + Digits(n / 10)
  }

  function Pow10(k: nat): nat {
    if k == 0 then 1 else 10 * Pow10(k - 1)
  }

  /** The least number of decimal digits in which a number can be written. */
  lemma {:induction false} DigitsExact(n: nat)
    ensures Digits(n) >= 1 && n < Pow10(Digits(n)) && (n > 0 ==> Pow10(Digits(n) - 1) <= n)
  {
    if n >= 10 {
      DigitsExact(n / 10);
    }
  }

  lemma {:induction false} DigitsMonotone(a: nat, b: nat)
    requires a <= b
    ensures Digits(a) <= Digits(b)
  {
    if b >= 10 && a >= 10 {
      DigitsMonotone(a / 10, b / 10);
    }
  }
}
