/** What each step of the client sessions sends, draws and changes (src/sessions.ts). */
module TransactionSteps {
  import opened Common
  import opened Transactions
  import opened ServerSessions
  import opened TransactionIdentity

  // ---------------------------------------------------------------- what each step sends and draws

  /** The commands that a step sends, all for one purpose. */
  datatype Sending = Sending(count: nat, purpose: Purpose)

  /**
   * A live session sends as often as the command is built: in a transaction for it, else for the retryable write or for
   * nothing. The end of a transaction is sent only if it has sent something before; an ended session sends nothing.
   */
  function Sends(w: World, e: Event): Sending
    requires !e.NewSession? ==> e.c < |w.clients|
  {
    match e
    case NewSession => Sending(0, Plain)
    case Start(_, _, _) => Sending(0, Plain)
    case Operation(c, _, canRetryWrite, built) =>
      var x := w.clients[c];
      Sending(if x.ended then 0 else built,
              if Active(x.state) then Txn(x.txn) else if canRetryWrite then Write(|w.issued|) else Plain)
    case Commit(c, _, built) =>
      var x := w.clients[c];
      Sending(if !x.ended && x.state in {InProgress, Committed} then built else 0, Txn(x.txn))
    case Abort(c, _, built) => EndingSends(w.clients[c], built)
    case End(c, _, built, _) => EndingSends(w.clients[c], built)
  }

  function EndingSends(x: Client, built: nat): Sending {
    Sending(if !x.ended && x.state == InProgress then built else 0, Txn(x.txn))
  }

  /** A number is drawn to start a transaction, and for a retryable write outside of one. */
  predicate Draws(w: World, e: Event)
    requires !e.NewSession? ==> e.c < |w.clients|
  {
    match e
    case Start(c, _, _) => !Active(w.clients[c].state)
    case Operation(c, _, canRetryWrite, _) => canRetryWrite && !Active(w.clients[c].state) && !w.clients[c].ended
    case _ => false
  }

  ghost predicate Adds(w: World, v: World, s: Sending) {
    && |v.log| == |w.log| + s.count && v.log[..|w.log|] == w.log
    && forall k :: |w.log| <= k < |v.log| ==> v.log[k].purpose == s.purpose
  }

  lemma OperationSends(w: World, c: nat, now: Conditions, canRetryWrite: bool, built: nat)
    requires Inv(w) && c < |w.clients|
    ensures var e, v := Operation(c, now, canRetryWrite, built), DoOperation(w, c, now, canRetryWrite, built);
            Adds(w, v, Sends(w, e)) && |v.issued| == |w.issued| + (if Draws(w, e) then 1 else 0)
  {
    var willRetryWrite := canRetryWrite && !Active(w.clients[c].state);
    if !w.clients[c].ended && (willRetryWrite || built > 0) {
      if willRetryWrite {
        WriteSends(w, c, now, built);
      } else {
        CommandSends(w, c, now, built);
      }
    }
  }

  lemma WriteSends(w: World, c: nat, now: Conditions, built: nat)
    requires Inv(w) && c < |w.clients| && !Active(w.clients[c].state)
    ensures Attached(Acquire(w, c, now), c)
    ensures var u := Draw(Acquire(w, c, now), c, false);
            var v := ApplyAll(u, c, Retryable(|w.issued|), built);
            Adds(w, v, Sending(built, Write(|w.issued|))) && |v.issued| == |w.issued| + 1
  {
    AcquireOwned(w, c, now);
    ApplyAllLog(Draw(Acquire(w, c, now), c, false), c, Retryable(|w.issued|), built);
  }

  lemma CommandSends(w: World, c: nat, now: Conditions, built: nat)
    requires Inv(w) && c < |w.clients|
    ensures Attached(Acquire(w, c, now), c)
    ensures var v := ApplyAll(Acquire(w, c, now), c, Ordinary, built);
            var purpose := if Active(w.clients[c].state) then Txn(w.clients[c].txn) else Plain;
            Adds(w, v, Sending(built, purpose)) && v.issued == w.issued
  {
    AcquireOwned(w, c, now);
    ApplyAllLog(Acquire(w, c, now), c, Ordinary, built);
  }

  lemma CommitSends(w: World, c: nat, now: Conditions, built: nat)
    requires Inv(w) && c < |w.clients|
    ensures var v := DoCommit(w, c, now, built);
            Adds(w, v, Sends(w, Event.Commit(c, now, built))) && v.issued == w.issued
  {
    AcquireOwned(w, c, now);
    ApplyAllLog(Acquire(w, c, now), c, EndsTransaction, built);
  }

  lemma AbortSends(w: World, c: nat, now: Conditions, built: nat)
    requires Inv(w) && c < |w.clients|
    ensures var v := DoAbort(w, c, now, built);
            Adds(w, v, Sends(w, Event.Abort(c, now, built))) && v.issued == w.issued
  {
    AcquireOwned(w, c, now);
    ApplyAllLog(Acquire(w, c, now), c, EndsTransaction, built);
  }

  lemma EndSends(w: World, c: nat, now: Conditions, built: nat, dirty: bool)
    requires Inv(w) && c < |w.clients|
    ensures var v := DoEnd(w, c, now, built, dirty);
            Adds(w, v, Sends(w, End(c, now, built, dirty))) && v.issued == w.issued
  {
    if !w.clients[c].ended {
      AcquireKeeps(w, c, now);
      AcquireSame(w, c, now);
      var v := Acquire(w, c, now);
      AbortSends(v, c, now, built);
      AddsFrom(w, v, if Active(v.clients[c].state) then DoAbort(v, c, now, built) else v,
               EndingSends(w.clients[c], built));
    }
  }

  lemma AcquireSame(w: World, c: nat, now: Conditions)
    requires c < |w.clients|
    ensures var v := Acquire(w, c, now);
            && v.log == w.log && v.issued == w.issued && |v.clients| == |w.clients|
            && v.clients[c] == w.clients[c].(server := v.clients[c].server)
  {
  }

  lemma AddsFrom(w: World, v: World, u: World, s: Sending)
    requires v.log == w.log && Adds(v, u, s)
    ensures Adds(w, u, s)
  {
  }

  lemma StartSends(w: World, c: nat, now: Conditions, refused: bool)
    requires Inv(w) && c < |w.clients|
    ensures var e, v := Event.Start(c, now, refused), DoStart(w, c, now, refused);
            Adds(w, v, Sending(0, Plain)) && |v.issued| == |w.issued| + (if Draws(w, e) then 1 else 0)
  {
    AcquireOwned(w, c, now);
  }

  /** Every step sends what it should, and draws a number when it should. */
  lemma StepSends(w: World, e: Event)
    requires Inv(w) && (!e.NewSession? ==> e.c < |w.clients|)
    ensures Adds(w, Step(w, e), Sends(w, e))
    ensures |Step(w, e).issued| == |w.issued| + if Draws(w, e) then 1 else 0
  {
    match e
    case NewSession =>
    case Start(c, now, refused) => StartSends(w, c, now, refused);
    case Operation(c, now, canRetryWrite, built) => OperationSends(w, c, now, canRetryWrite, built);
    case Commit(c, now, built) => CommitSends(w, c, now, built);
    case Abort(c, now, built) => AbortSends(w, c, now, built);
    case End(c, now, built, dirty) => EndSends(w, c, now, built, dirty);
  }

  // ---------------------------------------------------------------- how each step moves its session

  /** Where a step takes the transaction of its session. */
  function Moves(s: TxnState, ended: bool, e: Event): TxnState {
    match e
    case NewSession => s
    case Start(_, _, refused) => if s in {Starting, InProgress} || refused then s else Starting
    case Operation(_, _, _, built) =>
      if ended || built == 0 then s else if s in {Starting, InProgress} then InProgress else NoTransaction
    case Commit(_, _, _) =>
      if s in {Starting, CommittedEmpty} then CommittedEmpty else if s in {InProgress, Committed} then Committed else s
    case Abort(_, _, _) => if s in {Starting, InProgress} then Aborted else s
    case End(_, _, _, _) => if !ended && s in {Starting, InProgress} then Aborted else s
  }

  lemma OperationMoves(w: World, c: nat, now: Conditions, canRetryWrite: bool, built: nat)
    requires Inv(w) && c < |w.clients|
    ensures var x, v := w.clients[c], DoOperation(w, c, now, canRetryWrite, built);
            && |v.clients| == |w.clients| && v.clients[c].ended == x.ended
            && v.clients[c].state == Moves(x.state, x.ended, Operation(c, now, canRetryWrite, built))
  {
    var willRetryWrite := canRetryWrite && !Active(w.clients[c].state);
    if !w.clients[c].ended && (willRetryWrite || built > 0) {
      AcquireOwned(w, c, now);
      var v := Acquire(w, c, now);
      if willRetryWrite {
        ApplyAllState(Draw(v, c, false), c, Retryable(|v.issued|), built);
      } else {
        ApplyAllState(v, c, Ordinary, built);
      }
    }
  }

  lemma CommitMoves(w: World, c: nat, now: Conditions, built: nat)
    requires Inv(w) && c < |w.clients|
    ensures var x, v := w.clients[c], DoCommit(w, c, now, built);
            && |v.clients| == |w.clients| && v.clients[c].ended == x.ended
            && v.clients[c].state == Moves(x.state, x.ended, Event.Commit(c, now, built))
  {
    AcquireOwned(w, c, now);
    ApplyAllState(Acquire(w, c, now), c, EndsTransaction, built);
  }

  lemma AbortMoves(w: World, c: nat, now: Conditions, built: nat)
    requires Inv(w) && c < |w.clients|
    ensures var x, v := w.clients[c], DoAbort(w, c, now, built);
            && |v.clients| == |w.clients| && v.clients[c].ended == x.ended
            && v.clients[c].state == Moves(x.state, x.ended, Event.Abort(c, now, built))
  {
    AcquireOwned(w, c, now);
    ApplyAllState(Acquire(w, c, now), c, EndsTransaction, built);
  }

  lemma EndMoves(w: World, c: nat, now: Conditions, built: nat, dirty: bool)
    requires Inv(w) && c < |w.clients|
    ensures var x, v := w.clients[c], DoEnd(w, c, now, built, dirty);
            && |v.clients| == |w.clients| && v.clients[c].ended && (!x.ended ==> v.clients[c].server == None)
            && v.clients[c].state == Moves(x.state, x.ended, End(c, now, built, dirty))
  {
    if !w.clients[c].ended {
      AcquireKeeps(w, c, now);
      AcquireOwned(w, c, now);
      AbortMoves(Acquire(w, c, now), c, now, built);
      AbortKeeps(Acquire(w, c, now), c, now, built);
    }
  }

  /** Every step takes its session where it should, and ends it exactly when it is told to. */
  lemma StepMoves(w: World, e: Event)
    requires Inv(w) && !e.NewSession? && e.c < |w.clients|
    ensures var x, v := w.clients[e.c], Step(w, e);
            && |v.clients| == |w.clients|
            && v.clients[e.c].state == Moves(x.state, x.ended, e) && v.clients[e.c].ended == (x.ended || e.End?)
  {
    match e
    case Start(c, now, _) => AcquireOwned(w, c, now);
    case Operation(c, now, canRetryWrite, built) => OperationMoves(w, c, now, canRetryWrite, built);
    case Commit(c, now, built) => CommitMoves(w, c, now, built);
    case Abort(c, now, built) => AbortMoves(w, c, now, built);
    case End(c, now, built, dirty) => EndMoves(w, c, now, built, dirty);
  }

  // ---------------------------------------------------------------- server sessions and their numbers

  /** A pooled server session is reused if one has not timed out; else one is made, and the pool is empty. */
  lemma AcquireReuses(w: World, c: nat, now: Conditions)
    requires Inv(w) && c < |w.clients| && w.clients[c].server == None
    ensures var v := Acquire(w, c, now);
            var reusable := if now.loadBalanced then w.pool != []
                            else exists i :: 0 <= i < |w.pool| && w.pool[i] !in now.timedOut;
            && v.clients[c].server.Some?
            && (reusable ==> v.numbers == w.numbers && v.clients[c].server.value in w.pool)
            && (reusable && !now.loadBalanced ==> v.clients[c].server.value !in now.timedOut)
            && (!reusable ==> v.numbers == w.numbers + [0] && v.clients[c].server.value == |w.numbers| && v.pool == [])
  {
    CandidatesFind(w.pool, now);
    var found := Candidates(w.pool, now);
    if found != [] {
      assert w.pool[|w.pool| - |found|] == found[0];
    }
  }

  /** The server session of a session that ends is pooled exactly if it is fit for reuse. */
  lemma ReleaseReturns(w: World, c: nat, now: Conditions, dirty: bool)
    requires Inv(w) && c < |w.clients| && w.clients[c].server.Some?
    ensures var sid, v := w.clients[c].server.value, Release(w, c, now, dirty);
            && (sid in v.pool <==> if now.hasTimeout then sid !in now.timedOut && !dirty else now.loadBalanced)
            && (forall s :: s in w.pool && s !in now.timedOut ==> s in v.pool)
            && v.numbers == w.numbers
  {
    ReleasedKeeps(w.pool, w.clients[c].server.value, dirty, now);
  }

  /** How many numbers were drawn on a server session. */
  function Drawn(issued: seq<Issue>, lsid: nat): nat {
    if issued == [] then 0
    else Drawn(issued[..|issued| - 1], lsid) + if issued[|issued| - 1].lsid == lsid then 1 else 0
  }

  /** The numbers of a server session count up from 1 without a gap. */
  ghost predicate Consecutive(w: World) {
    forall sid: nat :: Drawn(w.issued, sid) == if sid < |w.numbers| then w.numbers[sid] else 0
  }

  lemma AcquireConsecutive(w: World, c: nat, now: Conditions)
    requires Inv(w) && Consecutive(w) && c < |w.clients|
    ensures Consecutive(Acquire(w, c, now))
  {
  }

  lemma DrawConsecutive(w: World, c: nat, forTransaction: bool)
    requires Consecutive(w) && Attached(w, c)
    ensures Consecutive(Draw(w, c, forTransaction))
  {
    var v := Draw(w, c, forTransaction);
    assert v.issued[..|w.issued|] == w.issued;
  }

  /** The numbers and the issues are as in another state. */
  lemma SameConsecutive(w: World, v: World)
    requires Consecutive(w) && v.issued == w.issued && v.numbers == w.numbers
    ensures Consecutive(v)
  {
  }

  lemma EndsConsecutive(w: World, c: nat, now: Conditions, built: nat)
    requires Inv(w) && Consecutive(w) && c < |w.clients|
    ensures Consecutive(DoCommit(w, c, now, built)) && Consecutive(DoAbort(w, c, now, built))
  {
    AcquireConsecutive(w, c, now);
    AcquireOwned(w, c, now);
    ApplyAllLog(Acquire(w, c, now), c, EndsTransaction, built);
    SameConsecutive(Acquire(w, c, now), DoCommit(w, c, now, built));
    SameConsecutive(Acquire(w, c, now), DoAbort(w, c, now, built));
  }

  lemma EndConsecutive(w: World, c: nat, now: Conditions, built: nat, dirty: bool)
    requires Inv(w) && Consecutive(w) && c < |w.clients|
    ensures Consecutive(DoEnd(w, c, now, built, dirty))
  {
    AcquireConsecutive(w, c, now);
    AcquireKeeps(w, c, now);
    var v := Acquire(w, c, now);
    EndsConsecutive(v, c, now, built);
    if !w.clients[c].ended {
      SameConsecutive(if Active(v.clients[c].state) then DoAbort(v, c, now, built) else v,
                      DoEnd(w, c, now, built, dirty));
    }
  }

  lemma OperationConsecutive(w: World, c: nat, now: Conditions, canRetryWrite: bool, built: nat)
    requires Inv(w) && Consecutive(w) && c < |w.clients|
    ensures Consecutive(DoOperation(w, c, now, canRetryWrite, built))
  {
    var willRetryWrite := canRetryWrite && !Active(w.clients[c].state);
    if !w.clients[c].ended && (willRetryWrite || built > 0) {
      AcquireConsecutive(w, c, now);
      AcquireOwned(w, c, now);
      var v := Acquire(w, c, now);
      var u := if willRetryWrite then Draw(v, c, false) else v;
      if willRetryWrite {
        DrawConsecutive(v, c, false);
      }
      ApplyAllLog(u, c, if willRetryWrite then Retryable(|v.issued|) else Ordinary, built);
      SameConsecutive(u, DoOperation(w, c, now, canRetryWrite, built));
    }
  }

  lemma StartConsecutive(w: World, c: nat, now: Conditions, refused: bool)
    requires Inv(w) && Consecutive(w) && c < |w.clients|
    ensures Consecutive(DoStart(w, c, now, refused))
  {
    AcquireConsecutive(w, c, now);
    AcquireOwned(w, c, now);
    var v := Acquire(w, c, now);
    if !Active(v.clients[c].state) {
      DrawConsecutive(v, c, true);
      SameConsecutive(Draw(v, c, true), DoStart(w, c, now, refused));
    }
  }

  lemma StepConsecutive(w: World, e: Event)
    requires Inv(w) && Consecutive(w)
    ensures Consecutive(Step(w, e))
  {
    if !e.NewSession? && e.c < |w.clients| {
      match e
      case Start(c, now, refused) => StartConsecutive(w, c, now, refused);
      case Operation(c, now, canRetryWrite, built) => OperationConsecutive(w, c, now, canRetryWrite, built);
      case Commit(c, now, built) => EndsConsecutive(w, c, now, built);
      case Abort(c, now, built) => EndsConsecutive(w, c, now, built);
      case End(c, now, built, dirty) => EndConsecutive(w, c, now, built, dirty);
    }
  }

  /** In every run, as many numbers were drawn on a server session as its counter says. */
  lemma {:induction false} NumbersConsecutive(events: seq<Event>)
    ensures Consecutive(Run(events))
  {
    if events != [] {
      NumbersConsecutive(events[..|events| - 1]);
      StepConsecutive(Run(events[..|events| - 1]), events[|events| - 1]);
    }
  }
}
