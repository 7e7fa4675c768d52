/** Cursor iteration (src/cursor/abstract_cursor.ts), against a server that answers with batches. */
module Cursors {
  import opened Common

  /** One reply to the first command or to a getMore; `last` when it comes with a cursor id of zero. */
  datatype Reply<T> = Reply(documents: seq<T>, last: bool)

  /** `Zero` is any zero id; `closedMark` when it is the constant that the cursor itself stores on closing. */
  datatype Id = Unset | Open | Zero(closedMark: bool)

  datatype Outcome<T> = Document(doc: T) | Null | Exhausted | Waiting

  datatype Call = CallNext | CallTryNext | CallHasNext

  /** The documents of all batches, up to the one that ends the cursor. */
  function AllDocuments<T>(replies: seq<Reply<T>>): seq<T> {
    if replies == [] then []
    else replies[0].documents + if replies[0].last then [] else AllDocuments(replies[1..])
  }

  /** They are the batches put together, up to the first that ends the cursor or, if none does, all of them. */
  lemma {:induction false} AllDocumentsMeans<T>(replies: seq<Reply<T>>, k: nat)
    requires k <= |replies| && forall i :: 0 <= i < k - 1 ==> !replies[i].last
    requires k == |replies| || (k > 0 && replies[k - 1].last)
    ensures AllDocuments(replies) == Flatten(seq(k, i requires 0 <= i < k => replies[i].documents))
    decreases k
  {
    if k > 0 {
      var parts := seq(k, i requires 0 <= i < k => replies[i].documents);
      if k == 1 {
        assert parts == [replies[0].documents];
        FlattenOne(replies[0].documents);
        assert !replies[0].last ==> replies[1..] == [];
      } else {
        AllDocumentsMeans(replies[1..], k - 1);
        assert parts[1..] == seq(k - 1, i requires 0 <= i < k - 1 => replies[1..][i].documents);
      }
    }
  }

  /** The server eventually ends the cursor. */
  predicate Finite<T>(replies: seq<Reply<T>>) {
    replies != [] && (replies[0].last || Finite(replies[1..]))
  }

  /** The iterator stopped at the last document it saw, or has not stopped. */
  ghost predicate StopsLast<T>(seen: seq<T>, stops: T -> bool, stopped: bool) {
    && (stopped ==> seen != [])
    && forall k :: 0 <= k < |seen| ==> (stops(seen[k]) <==> stopped && k == |seen| - 1)
  }

  /** Documents that came together. */
  ghost predicate IsBatch<T>(batch: seq<T>, buffered: seq<T>, replies: seq<Reply<T>>) {
    batch == buffered || exists k :: 0 <= k < |replies| && replies[k].documents == batch
  }

  predicate IsEnd<T(==)>(docs: seq<T>, batch: seq<T>) {
    |docs| <= |batch| && docs == batch[|batch| - |docs|..]
  }

  /** The end of one batch. */
  ghost predicate EndsBatch<T>(docs: seq<T>, buffered: seq<T>, replies: seq<Reply<T>>) {
    IsEnd(docs, buffered) || exists k :: 0 <= k < |replies| && IsEnd(docs, replies[k].documents)
  }

  ghost predicate Suffix<T>(s: seq<T>, t: seq<T>) {
    |s| <= |t| && s == t[|t| - |s|..]
  }

  lemma SuffixTail<T>(s: seq<T>, t: seq<T>)
    requires Suffix(s, t) && s != []
    ensures Suffix(s[1..], t) && s[0] == t[|t| - |s|]
  {
  }

  lemma EndsEarlier<T>(docs: seq<T>, buffered: seq<T>, replies: seq<Reply<T>>, k: nat)
    requires k <= |replies| && EndsBatch(docs, [], replies[k..])
    ensures EndsBatch(docs, buffered, replies)
  {
    if !IsEnd(docs, []) {
      var i :| 0 <= i < |replies[k..]| && IsEnd(docs, replies[k..][i].documents);
      assert IsEnd(docs, replies[k + i].documents);
    }
  }

  lemma EndOfBatch<T>(docs: seq<T>, first: T, batch: seq<T>, buffered: seq<T>, replies: seq<Reply<T>>)
    requires IsBatch([first] + batch, buffered, replies) && IsEnd(docs, batch)
    ensures EndsBatch(docs, buffered, replies)
  {
    var whole := [first] + batch;
    assert whole[|whole| - |docs|..] == batch[|batch| - |docs|..];
  }

  lemma StopsLater<T>(a: seq<T>, b: seq<T>, stops: T -> bool, stopped: bool)
    requires StopsLast(a, stops, false) && StopsLast(b, stops, stopped)
    ensures StopsLast(a + b, stops, stopped)
  {
    forall k | 0 <= k < |a + b|
      ensures stops((a + b)[k]) <==> stopped && k == |a + b| - 1
    {
      if k >= |a| {
        assert (a + b)[k] == b[k - |a|];
      }
    }
  }

  class Cursor<T> {
    var documents: seq<T>
    var id: Id
    var closed: bool

    /** What the server will answer. */
    var replies: seq<Reply<T>>

    predicate Valid()
      reads this
    {
      && (closed ==> documents == [] && id == Zero(true))
      && (id == Zero(true) ==> closed)
      && (id == Unset ==> documents == [])
    }

    /** All that has not been returned yet. */
    function Remaining(): seq<T>
      reads this
    {
      documents + if id.Zero? then [] else AllDocuments(replies)
    }

    /** The cursor ends by itself. */
    predicate Ends()
      reads this
    {
      id.Zero? || Finite(replies)
    }

    constructor (replies: seq<Reply<T>>)
      ensures Valid() && Remaining() == AllDocuments(replies) && (Ends() <==> Finite(replies)) && id == Unset
    {
      documents, id, closed := [], Unset, false;
      this.replies := replies;
    }

    /** `cleanupCursor` for a cursor the server has ended: it closes once its buffer is empty. */
    method Cleanup()
      requires Valid() && id.Zero?
      modifies `id, `closed
      ensures Valid() && id.Zero? && (documents == [] ==> closed)
      ensures documents != [] ==> id == old(id) && closed == old(closed)
    {
      if documents == [] {
        closed := true;
        id := Zero(true);
      }
    }

    /** The first command or a getMore. A getMore needs an open cursor and an empty buffer. */
    method Fetch()
      requires Valid() && documents == [] && !id.Zero? && replies != []
      modifies `documents, `id, `replies
      ensures Valid() && id != Unset && !closed
      ensures documents == old(replies[0].documents) && replies == old(replies[1..])
      ensures id == if old(replies[0].last) then Zero(false) else Open
      ensures Remaining() == old(Remaining()) && Ends() == old(Ends())
    {
      var reply := replies[0];
      replies := replies[1..];
      documents := reply.documents;
      id := if reply.last then Zero(false) else Open;
      assert [] + old(AllDocuments(replies)) == old(AllDocuments(replies));
    }

    method NextDocument() returns (r: Outcome<T>)
      requires Valid()
      modifies `documents
      ensures Valid()
      ensures old(documents) == [] ==> r == Null && documents == []
      ensures old(documents) != [] ==> r == Document(old(documents)[0]) && documents == old(documents)[1..]
    {
      if documents == [] {
        return Null;
      }
      r := Document(documents[0]);
      documents := documents[1..];
    }

    /** What one call takes from what remains. */
    ghost predicate Took(before: seq<T>, r: Outcome<T>)
      reads this
    {
      if r.Document? then before == [r.doc] + Remaining() else Remaining() == before
    }

    /** Something was fetched and brought nothing: one reply, or two on a cursor that had to be initialized. */
    ghost predicate Quiet(before: seq<Reply<T>>, initializing: bool)
      reads this
    {
      if initializing then |before| == |replies| + 2 && before[0].documents == [] && before[1].documents == []
      else |before| == |replies| + 1 && before[0].documents == []
    }

    /** The first document of the buffer. */
    method TakeFirst() returns (r: Outcome<T>)
      requires Valid() && documents != []
      modifies `documents
      ensures Valid() && r.Document? && Took(old(Remaining()), r) && Ends() == old(Ends())
      ensures [r.doc] + documents == old(documents)
    {
      HeadTail(documents);
      Associative([documents[0]], documents[1..], if id.Zero? then [] else AllDocuments(replies));
      r := NextDocument();
    }

    /**
     * Replies are fetched until there are documents or the cursor has ended; else `r` is a null, when not blocking and
     * a getMore brought nothing, or the wait for an answer.
     */
    method Fill(blocking: bool) returns (r: Outcome<T>)
      requires Valid() && !closed
      modifies `documents, `id, `replies
      ensures Valid() && Remaining() == old(Remaining()) && Ends() == old(Ends()) && (old(id).Zero? ==> id.Zero?)
      ensures Suffix(replies, old(replies)) && IsBatch(documents, old(documents), old(replies))
      ensures r == Null || r == Waiting
      ensures documents == [] && r == Waiting && !id.Zero? ==> replies == []
      ensures documents == [] && r == Null && !id.Zero? ==> !blocking && Quiet(old(replies), old(id) == Unset)
      ensures id == Unset ==> documents == [] && r == Waiting
    {
      ghost var heard := 0;
      r := Null;
      while documents == [] && !id.Zero?
        invariant Valid() && !closed && Remaining() == old(Remaining()) && Ends() == old(Ends())
        invariant heard + |replies| == |old(replies)| && Suffix(replies, old(replies)) && (old(id).Zero? ==> id.Zero?)
        invariant if heard == 0 then documents == old(documents) && id == old(id)
                  else id != Unset && documents == old(replies)[heard - 1].documents
        invariant !blocking && heard > 0 ==> documents != [] || id.Zero? || (old(id) == Unset && heard == 1)
        decreases |replies|
      {
        if replies == [] {
          return Waiting;
        }
        var initializing := id == Unset;
        SuffixTail(replies, old(replies));
        Fetch();
        heard := heard + 1;
        if documents == [] && !id.Zero? && !blocking && !initializing {
          assert Quiet(old(replies), old(id) == Unset);
          return Null;
        }
      }
    }

    /** `next`: the calls of itself in its callbacks become the turns of a loop. */
    method Advance(blocking: bool) returns (r: Outcome<T>)
      requires Valid()
      modifies this
      ensures Valid() && Took(old(Remaining()), r) && Ends() == old(Ends())
      ensures r != Exhausted && (r.Document? ==> !closed)
      ensures r == Null && (blocking || old(id).Zero?) ==> Remaining() == [] && closed
      ensures r == Waiting ==> replies == [] && documents == [] && !id.Zero?
      ensures id != Unset || r == Waiting
      ensures Suffix(replies, old(replies))
      ensures r == Null && !closed ==> Quiet(old(replies), old(id) == Unset)
      ensures r.Document? ==> IsBatch([r.doc] + documents, old(documents), old(replies))
    {
      if closed {
        return Null;
      }
      r := Fill(blocking);
      if documents != [] {
        r := TakeFirst();
      } else if id.Zero? {
        Cleanup();
        r := Null;
      }
    }

    /** `next` and `tryNext` for the user. */
    method Next(blocking: bool) returns (r: Outcome<T>)
      requires Valid()
      modifies this
      ensures Valid() && Took(old(Remaining()), r) && Ends() == old(Ends())
      ensures r == Exhausted <==> old(closed)
      ensures r == Null && blocking ==> Remaining() == [] && closed
      ensures r == Null && !blocking ==> if closed then Remaining() == [] else Quiet(old(replies), old(id) == Unset)
      ensures r == Waiting ==> replies == [] && documents == [] && !id.Zero?
    {
      if id == Zero(true) {
        return Exhausted;
      }
      r := Advance(blocking);
    }

    /** A document found ahead is put back in front of the buffer. */
    method HasNext() returns (r: Outcome<bool>)
      requires Valid()
      modifies this
      ensures Valid() && Remaining() == old(Remaining()) && Ends() == old(Ends())
      ensures r == Document(true) ==> documents != []
      ensures r == Document(false) ==> Remaining() == []
      ensures r == Waiting ==> replies == [] && documents == []
      ensures r.Document? || r == Waiting
    {
      if id == Zero(true) {
        return Document(false);
      }
      if documents != [] {
        return Document(true);
      }
      var next := Advance(true);
      match next
      case Document(doc) =>
        Associative([doc], documents, if id.Zero? then [] else AllDocuments(replies));
        PutBack(doc);
        return Document(true);
      case Waiting => return Waiting;
      case _ => return Document(false);
    }

    method PutBack(doc: T)
      requires Valid() && !closed && id != Unset
      modifies `documents
      ensures Valid() && documents == [doc] + old(documents)
    {
      documents := [doc] + documents;
    }

    method ToArray() returns (docs: seq<T>)
      requires Valid()
      modifies this
      ensures Valid()
      ensures docs + Remaining() == old(Remaining())
      ensures old(Ends()) ==> docs == old(Remaining()) && closed
    {
      docs := [];
      while true
        invariant Valid() && docs + Remaining() == old(Remaining()) && Ends() == old(Ends())
        decreases |Remaining()|
      {
        var next := Advance(true);
        if next.Document? {
          ghost var rest := if id.Zero? then [] else AllDocuments(replies);
          Collected(docs, next.doc, documents, rest);
          docs := docs + [next.doc] + documents;
          documents := [];
          assert Remaining() == rest;
        } else {
          return;
        }
      }
    }

    /**
     * `forEach`: the iterator sees the documents in order until it stops. When it stops inside a batch, the rest of
     * that batch has already left the buffer and is dropped.
     */
    method ForEach(stops: T -> bool) returns (seen: seq<T>, stopped: bool, dropped: seq<T>)
      requires Valid()
      modifies this
      ensures Valid()
      ensures seen + dropped + Remaining() == old(Remaining())
      ensures StopsLast(seen, stops, stopped)
      ensures !stopped ==> dropped == []
      ensures EndsBatch(dropped, old(documents), old(replies))
      ensures !stopped && old(Ends()) ==> seen == old(Remaining()) && closed
    {
      seen, stopped, dropped := [], false, [];
      while !stopped
        invariant Valid() && Ends() == old(Ends()) && (!stopped ==> dropped == [])
        invariant Suffix(replies, old(replies))
        invariant seen == [] || stopped || documents == []
        invariant seen == [] ==> documents == old(documents) && replies == old(replies)
        invariant EndsBatch(dropped, old(documents), old(replies))
        invariant seen + dropped + Remaining() == old(Remaining())
        invariant StopsLast(seen, stops, stopped)
        decreases |Remaining()|, !stopped
      {
        var shown;
        ghost var before, skipped := seen, |old(replies)| - |replies|;
        assert seen + [] == seen;
        shown, stopped, dropped := Round(stops);
        if shown == [] {
          return;
        }
        if before != [] {
          EndsEarlier(dropped, old(documents), old(replies), skipped);
        }
        seen := seen + shown;
        StopsLater(before, shown, stops, stopped);
        Joined(before, shown, dropped, Remaining());
      }
    }

    /** One document from the cursor and then the rest of its batch. */
    method Round(stops: T -> bool) returns (shown: seq<T>, stopped: bool, dropped: seq<T>)
      requires Valid()
      modifies this
      ensures Valid() && Ends() == old(Ends())
      ensures shown + (dropped + Remaining()) == old(Remaining())
      ensures shown == [] ==> !stopped && dropped == [] && Remaining() == old(Remaining())
      ensures shown == [] && Ends() ==> Remaining() == [] && closed
      ensures StopsLast(shown, stops, stopped)
      ensures !stopped ==> dropped == []
      ensures Suffix(replies, old(replies))
      ensures shown != [] && !stopped ==> documents == []
      ensures EndsBatch(dropped, old(documents), old(replies))
    {
      shown, stopped, dropped := [], false, [];
      var next := Advance(true);
      if !next.Document? {
        return;
      }
      shown := [next.doc];
      if stops(next.doc) {
        stopped := true;
        return;
      }
      ghost var batch := documents;
      var more;
      more, stopped, dropped := ShowRest(stops);
      Associative([next.doc], more, dropped + Remaining());
      StopsLater([next.doc], more, stops, stopped);
      EndOfBatch(dropped, next.doc, batch, old(documents), old(replies));
      shown := [next.doc] + more;
    }

    /** The rest of a batch is taken out of the buffer and shown until the iterator stops. */
    method ShowRest(stops: T -> bool) returns (shown: seq<T>, stopped: bool, dropped: seq<T>)
      requires Valid()
      modifies `documents
      ensures Valid() && documents == [] && Ends() == old(Ends())
      ensures shown + (dropped + Remaining()) == old(Remaining()) && IsEnd(dropped, old(documents))
      ensures StopsLast(shown, stops, stopped)
      ensures !stopped ==> dropped == []
    {
      var batch := documents;
      ghost var rest := if id.Zero? then [] else AllDocuments(replies);
      documents := [];
      stopped, dropped := Visit(batch, stops);
      var count := |batch| - |dropped|;
      shown := batch[..count];
      Parted(batch, count, rest);
      assert Remaining() == rest;
    }

    /** The inner loop over the rest of a batch. */
    static method Visit(batch: seq<T>, stops: T -> bool) returns (stopped: bool, dropped: seq<T>)
      ensures IsEnd(dropped, batch)
      ensures StopsLast(batch[..|batch| - |dropped|], stops, stopped)
      ensures !stopped ==> dropped == []
    {
      var i := 0;
      while i < |batch|
        invariant 0 <= i <= |batch|
        invariant forall k :: 0 <= k < i ==> !stops(batch[k])
      {
        if stops(batch[i]) {
          return true, batch[i + 1..];
        }
        i := i + 1;
      }
      return false, [];
    }
  }

  lemma Collected<T>(docs: seq<T>, doc: T, batch: seq<T>, rest: seq<T>)
    ensures docs + ([doc] + (batch + rest)) == (docs + [doc] + batch) + rest
  {
  }

  lemma Parted<T>(batch: seq<T>, count: nat, rest: seq<T>)
    requires count <= |batch|
    ensures batch + rest == batch[..count] + (batch[count..] + rest)
  {
  }

  lemma Joined<T>(seen: seq<T>, shown: seq<T>, dropped: seq<T>, rest: seq<T>)
    ensures seen + (shown + (dropped + rest)) == (seen + shown) + dropped + rest
  {
  }

  /** What one `next` or `tryNext` returns: a document, and for `next` always one as long as there are more. */
  method TakeOne<T>(cursor: Cursor<T>, blocking: bool) returns (got: seq<T>)
    requires cursor.Valid()
    modifies cursor
    ensures cursor.Valid() && got + cursor.Remaining() == old(cursor.Remaining()) && |got| <= 1
    ensures blocking && cursor.Remaining() != [] ==> |got| == 1
  {
    var r := cursor.Next(blocking);
    got := if r.Document? then [r.doc] else [];
  }

  function Nexts(calls: seq<Call>): nat {
    if calls == [] then 0
    else Nexts(calls[..|calls| - 1]) + if calls[|calls| - 1] == CallNext then 1 else 0
  }

  /**
   * Any mix of calls on a new cursor returns a prefix of the batches' documents, and as long as there are more each
   * `next` has returned one; `more` is a last `hasNext`.
   */
  method Drive<T>(replies: seq<Reply<T>>, calls: seq<Call>) returns (docs: seq<T>, more: Outcome<bool>, rest: seq<T>)
    ensures docs + rest == AllDocuments(replies)
    ensures more == Document(false) ==> rest == []
    ensures more == Document(true) ==> rest != []
    ensures calls != [] && calls[|calls| - 1] == CallHasNext ==> more.Document? || more == Waiting
    ensures rest != [] ==> |docs| >= Nexts(calls)
  {
    var cursor := new Cursor<T>(replies);
    docs, more := [], Null;
    for i := 0 to |calls|
      invariant cursor.Valid() && fresh(cursor)
      invariant docs + cursor.Remaining() == AllDocuments(replies)
      invariant more == Document(false) ==> cursor.Remaining() == []
      invariant more == Document(true) ==> cursor.Remaining() != []
      invariant i > 0 && calls[i - 1] == CallHasNext ==> more.Document? || more == Waiting
      invariant cursor.Remaining() != [] ==> |docs| >= Nexts(calls[..i])
    {
      assert calls[..i + 1][..i] == calls[..i];
      if calls[i] == CallHasNext {
        more := cursor.HasNext();
      } else {
        more := Null;
        var got := TakeOne(cursor, calls[i] == CallNext);
        Associative(docs, got, cursor.Remaining());
        docs := docs + got;
      }
    }
    rest := cursor.Remaining();
    assert calls[..|calls|] == calls;
  }

  /** On a new cursor that ends, `toArray` and a `forEach` that never stops both see every document. */
  method ReadAll<T>(replies: seq<Reply<T>>) returns (docs: seq<T>, seen: seq<T>)
    requires Finite(replies)
    ensures docs == AllDocuments(replies) && seen == AllDocuments(replies)
  {
    var cursor := new Cursor<T>(replies);
    docs := cursor.ToArray();
    cursor := new Cursor<T>(replies);
    var never := (_: T) => false;
    var stopped, dropped;
    seen, stopped, dropped := cursor.ForEach(never);
    assert seen != [] ==> !never(seen[|seen| - 1]);
  }
}
