/** No (lsid, txnNumber) pair is used for two purposes, in any run at all (src/sessions.ts). */
module TransactionPairs {
  import opened Common
  import opened Transactions
  import opened ServerSessions
  import opened TransactionIdentity

  /** Whatever was sent under the present number of a server session was sent for one purpose. */
  ghost predicate OnlyFor(w: World, sid: nat, purpose: Purpose) {
    sid < |w.numbers|
    && forall k :: 0 <= k < |w.log| && w.log[k].lsid == sid && w.log[k].number == Some(w.numbers[sid]) ==>
         w.log[k].purpose == purpose
  }

  /** No number lies ahead of its counter. */
  ghost predicate Behind(w: World) {
    forall k :: 0 <= k < |w.log| && w.log[k].number.Some? ==>
      w.log[k].lsid < |w.numbers| && w.log[k].number.value <= w.numbers[w.log[k].lsid]
  }

  predicate SamePair(a: Sent, b: Sent) {
    a.lsid == b.lsid && a.number == b.number
  }

  ghost predicate Unique(log: seq<Sent>) {
    forall i, j :: 0 <= i < j < |log| && log[i].number.Some? && SamePair(log[i], log[j]) ==>
      log[i].purpose == log[j].purpose
  }

  /** A transaction that may still send has the present number to itself. */
  ghost predicate Holds(w: World, x: Client) {
    !x.ended && Engaged(x.state) && x.server.Some? ==> OnlyFor(w, x.server.value, Txn(x.txn))
  }

  ghost predicate Pairs(w: World) {
    Behind(w) && Unique(w.log) && forall i :: 0 <= i < |w.clients| ==> Holds(w, w.clients[i])
  }

  lemma AcquirePairs(w: World, c: nat, now: Conditions)
    requires Inv(w) && Pairs(w) && c < |w.clients|
    ensures Pairs(Acquire(w, c, now))
  {
    var v := Acquire(w, c, now);
    forall i | 0 <= i < |v.clients|
      ensures Holds(v, v.clients[i])
    {
      assert Holds(w, w.clients[i]) && ClientFits(w, w.clients[i]);
    }
  }

  /** A number just drawn has not been sent. */
  lemma DrawPairs(w: World, c: nat, forTransaction: bool, purpose: Purpose)
    requires Inv(w) && Pairs(w) && Attached(w, c)
    ensures Pairs(Draw(w, c, forTransaction)) && OnlyFor(Draw(w, c, forTransaction), w.clients[c].server.value, purpose)
  {
    var v := Draw(w, c, forTransaction);
    forall i | 0 <= i < |v.clients|
      ensures Holds(v, v.clients[i])
    {
      assert Holds(w, w.clients[i]);
    }
  }

  lemma BeginPairs(w: World, c: nat, id: nat)
    requires Pairs(w) && Attached(w, c) && OnlyFor(w, w.clients[c].server.value, Txn(id))
    ensures Pairs(Begin(w, c, id))
  {
    var v := Begin(w, c, id);
    forall i | 0 <= i < |v.clients|
      ensures Holds(v, v.clients[i])
    {
      assert Holds(w, w.clients[i]);
    }
  }

  lemma StartPairs(w: World, c: nat, now: Conditions, refused: bool)
    requires Inv(w) && Pairs(w) && c < |w.clients|
    ensures Pairs(DoStart(w, c, now, refused))
  {
    AcquirePairs(w, c, now);
    AcquireKeeps(w, c, now);
    AcquireOwned(w, c, now);
    var v := Acquire(w, c, now);
    if !Active(v.clients[c].state) {
      DrawPairs(v, c, true, Txn(|v.issued|));
      BeginPairs(Draw(v, c, true), c, |v.issued|);
    }
  }

  /** The command about to be built is for the purpose that holds the present number. */
  ghost predicate Sole(w: World, c: nat, kind: Kind) {
    Attached(w, c) && (NumberFor(w, c, kind).Some? ==> OnlyFor(w, w.clients[c].server.value, PurposeOf(w, c, kind)))
  }

  lemma UniqueSnoc(log: seq<Sent>, e: Sent)
    requires Unique(log)
    requires forall k :: 0 <= k < |log| && e.number.Some? && SamePair(log[k], e) ==>
               log[k].purpose == e.purpose
    ensures Unique(log + [e])
  {
  }

  /** The state goes with the kind of the command. */
  ghost predicate Suits(w: World, c: nat, kind: Kind) {
    && Owned(w) && c < |w.clients|
    && (kind.EndsTransaction? ==> w.clients[c].state == InProgress || w.clients[c].state == Committed)
    && (kind.Retryable? ==> !Active(w.clients[c].state))
  }

  lemma ApplySuits(w: World, c: nat, kind: Kind)
    requires Suits(w, c, kind) && Attached(w, c)
    ensures Suits(Apply(w, c, kind), c, kind)
  {
  }

  lemma ApplyPairs(w: World, c: nat, kind: Kind)
    requires Suits(w, c, kind) && Pairs(w) && Sole(w, c, kind)
    ensures Pairs(Apply(w, c, kind)) && Sole(Apply(w, c, kind), c, kind)
  {
    var v := Apply(w, c, kind);
    UniqueSnoc(w.log, v.log[|w.log|]);
    forall i | 0 <= i < |v.clients|
      ensures Holds(v, v.clients[i])
    {
      assert Holds(w, w.clients[i]);
    }
  }

  lemma {:induction false} ApplyAllPairs(w: World, c: nat, kind: Kind, built: nat)
    requires Suits(w, c, kind) && Pairs(w) && Sole(w, c, kind)
    ensures var v := ApplyAll(w, c, kind, built); Suits(v, c, kind) && Pairs(v) && Sole(v, c, kind)
  {
    if built > 0 {
      ApplyAllPairs(w, c, kind, built - 1);
      ApplySuits(ApplyAll(w, c, kind, built - 1), c, kind);
      ApplyPairs(ApplyAll(w, c, kind, built - 1), c, kind);
    }
  }

  lemma SetStatePairs(w: World, c: nat, state: TxnState)
    requires Pairs(w) && c < |w.clients|
    requires Engaged(state) && !w.clients[c].ended ==> Engaged(w.clients[c].state)
    ensures Pairs(SetState(w, c, state))
  {
    var v := SetState(w, c, state);
    forall i | 0 <= i < |v.clients|
      ensures Holds(v, v.clients[i])
    {
      assert Holds(w, w.clients[i]);
    }
  }

  lemma OperationPairs(w: World, c: nat, now: Conditions, canRetryWrite: bool, built: nat)
    requires Inv(w) && Pairs(w) && c < |w.clients|
    ensures Pairs(DoOperation(w, c, now, canRetryWrite, built))
  {
    var willRetryWrite := canRetryWrite && !Active(w.clients[c].state);
    if !w.clients[c].ended && (willRetryWrite || built > 0) {
      AcquirePairs(w, c, now);
      AcquireKeeps(w, c, now);
      AcquireOwned(w, c, now);
      var v := Acquire(w, c, now);
      if willRetryWrite {
        DrawPairs(v, c, false, Write(|v.issued|));
        DrawKeeps(v, c, false);
        ApplyAllPairs(Draw(v, c, false), c, Retryable(|v.issued|), built);
      } else {
        assert Holds(v, v.clients[c]);
        ApplyAllPairs(v, c, Ordinary, built);
      }
    }
  }

  lemma SentEndPairs(w: World, c: nat, built: nat, state: TxnState)
    requires Appliable(w, c, EndsTransaction) && Pairs(w) && (state == Committed || state == Aborted)
    ensures Pairs(SetState(ApplyAll(w, c, EndsTransaction, built), c, state))
  {
    assert Holds(w, w.clients[c]);
    ApplyAllPairs(w, c, EndsTransaction, built);
    ApplyAllState(w, c, EndsTransaction, built);
    SetStatePairs(ApplyAll(w, c, EndsTransaction, built), c, state);
  }

  lemma CommitPairs(w: World, c: nat, now: Conditions, built: nat)
    requires Inv(w) && Pairs(w) && c < |w.clients|
    ensures Pairs(DoCommit(w, c, now, built))
  {
    AcquirePairs(w, c, now);
    AcquireKeeps(w, c, now);
    AcquireOwned(w, c, now);
    var v := Acquire(w, c, now);
    var s := v.clients[c].state;
    if (s == InProgress || s == Committed) && !v.clients[c].ended {
      SentEndPairs(v, c, built, AfterCommit(s));
    } else {
      SetStatePairs(v, c, AfterCommit(s));
    }
  }

  lemma AbortPairs(w: World, c: nat, now: Conditions, built: nat)
    requires Inv(w) && Pairs(w) && c < |w.clients|
    ensures Pairs(DoAbort(w, c, now, built))
  {
    AcquirePairs(w, c, now);
    AcquireKeeps(w, c, now);
    AcquireOwned(w, c, now);
    var v := Acquire(w, c, now);
    var s := v.clients[c].state;
    if s == InProgress && !v.clients[c].ended {
      SentEndPairs(v, c, built, AfterAbort(s));
    } else {
      SetStatePairs(v, c, AfterAbort(s));
    }
  }

  lemma ReleasePairs(w: World, c: nat, now: Conditions, dirty: bool)
    requires Pairs(w) && c < |w.clients| && w.clients[c].server.Some?
    ensures Pairs(Release(w, c, now, dirty))
  {
    var v := Release(w, c, now, dirty);
    forall i | 0 <= i < |v.clients|
      ensures Holds(v, v.clients[i])
    {
      assert Holds(w, w.clients[i]);
    }
  }

  lemma EndPairs(w: World, c: nat, now: Conditions, built: nat, dirty: bool)
    requires Inv(w) && Pairs(w) && c < |w.clients|
    ensures Pairs(DoEnd(w, c, now, built, dirty))
  {
    if !w.clients[c].ended {
      AcquirePairs(w, c, now);
      AcquireKeeps(w, c, now);
      AcquireOwned(w, c, now);
      var v := Acquire(w, c, now);
      AbortPairs(v, c, now, built);
      AbortKeeps(v, c, now, built);
      ReleasePairs(if Active(v.clients[c].state) then DoAbort(v, c, now, built) else v, c, now, dirty);
    }
  }

  lemma StepPairs(w: World, e: Event)
    requires Inv(w) && Pairs(w)
    ensures Pairs(Step(w, e))
  {
    if e.NewSession? {
      var v := Step(w, e);
      assert forall i :: 0 <= i < |w.clients| ==> Holds(w, w.clients[i]) && v.clients[i] == w.clients[i];
    } else if e.c < |w.clients| {
      match e
      case Start(c, now, refused) => StartPairs(w, c, now, refused);
      case Operation(c, now, canRetryWrite, built) => OperationPairs(w, c, now, canRetryWrite, built);
      case Commit(c, now, built) => CommitPairs(w, c, now, built);
      case Abort(c, now, built) => AbortPairs(w, c, now, built);
      case End(c, now, built, dirty) => EndPairs(w, c, now, built, dirty);
    }
  }

  lemma EmptyPairs()
    ensures Pairs(EMPTY)
  {
  }

  lemma NextPairs(w: World, e: Event, v: World)
    requires Inv(w) && Pairs(w) && v == Step(w, e)
    ensures Pairs(v)
  {
    StepPairs(w, e);
  }

  lemma {:induction false} RunPairs(events: seq<Event>)
    ensures Pairs(Run(events))
  {
    if events == [] {
      EmptyPairs();
    } else {
      var n := |events| - 1;
      RunPairs(events[..n]);
      NextPairs(Run(events[..n]), events[n], Run(events));
    }
  }

  /** Two commands under one (lsid, txnNumber) pair belong to one transaction or to one retryable write. */
  lemma PairHasOnePurpose(events: seq<Event>, i: nat, j: nat)
    requires i < |Run(events).log| && j < |Run(events).log|
    ensures var a, b := Run(events).log[i], Run(events).log[j];
            a.number.Some? && SamePair(a, b) ==> a.purpose == b.purpose
  {
    RunPairs(events);
    UniqueAt(Run(events).log, i, j);
  }

  lemma UniqueAt(log: seq<Sent>, i: nat, j: nat)
    requires Unique(log) && i < |log| && j < |log|
    ensures log[i].number.Some? && SamePair(log[i], log[j]) ==> log[i].purpose == log[j].purpose
  {
  }
}
