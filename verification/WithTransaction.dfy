/**
 * `withTransaction` (src/sessions.ts): the user's function, the server and the clock may do anything, except that an
 * attempt and a commit each take at least a millisecond.
 */
module WithTransaction {
  import opened Common
  import opened Transactions

  const MAX_WITH_TRANSACTION_TIMEOUT: nat := 120000

  /** How the user's function ended. */
  datatype UserResult = NoPromise | Resolved | Rejected(error: ServerError)

  /** An attempt was refused, or the user's function ran and left the transaction in a state. */
  datatype Attempt = Refused(error: Error) | Ran(end: UserResult, left: TxnState)

  /** What was tried: when, from which state, with what result, and when that was known. */
  datatype Tried =
    | Begin(at: nat, state: TxnState, attempt: Attempt, done: nat)
    | Commit(at: nat, state: TxnState, again: bool, answer: Outcome, done: nat)

  /** What has to come next. */
  datatype Sequel = Stop(r: Outcome) | NewAttempt | FirstCommit | CommitAgain

  predicate HasNotTimedOut(elapsed: nat) {
    elapsed < MAX_WITH_TRANSACTION_TIMEOUT
  }

  /** The milliseconds in which something may still be retried. */
  function Left(elapsed: nat): nat {
    if HasNotTimedOut(elapsed) then MAX_WITH_TRANSACTION_TIMEOUT - elapsed else 0
  }

  /**
   * A transaction that the user's function did not end itself is committed. In time, a commit is repeated as long as
   * its result is unknown, and everything is after a transient error. Anything else is the result of the call.
   */
  function Then(t: Tried): Sequel {
    match t
    case Begin(_, _, Refused(error), _) => Stop(Failed(error))
    case Begin(_, _, Ran(NoPromise, _), _) => Stop(Failed(NotAPromise))
    case Begin(_, _, Ran(Resolved, left), _) => if UserEnded(left) then Stop(Fine) else FirstCommit
    case Begin(_, _, Ran(Rejected(e), _), done) =>
      if e.isMongoError && e.transientLabel && HasNotTimedOut(done) then NewAttempt
      else Stop(Failed(Server(e.(unknownCommitLabel := e.unknownCommitLabel || e.maxTimeMSExpired))))
    case Commit(_, _, _, answer, done) =>
      if Unsettled(answer) && HasNotTimedOut(done) then
        if answer.error.error.unknownCommitLabel then CommitAgain
        else if answer.error.error.transientLabel then NewAttempt else Stop(answer)
      else Stop(answer)
  }

  /** A commit failed in a way that may be followed by another try. */
  predicate Unsettled(answer: Outcome) {
    answer.Failed? && answer.error.Server? && answer.error.error.isMongoError && !answer.error.error.maxTimeMSExpired
  }

  /**
   * One try leads to the next. A new attempt begins without an active transaction, the first commit finds what the
   * user's function left, a repeated one finds a committed transaction; time passes, and retries are in time.
   */
  predicate Leads(t: Tried, next: Tried) {
    && t.at < t.done == next.at
    && match Then(t)
       case NewAttempt => next.Begin? && HasNotTimedOut(next.at) && !Active(next.state)
       case FirstCommit => next.Commit? && !next.again && next.state == t.attempt.left
       case CommitAgain => next.Commit? && next.again && HasNotTimedOut(next.at) && next.state == Committed
       case Stop(_) => false
  }

  ghost predicate Chained(trace: seq<Tried>) {
    forall i :: 0 < i < |trace| ==> Leads(trace[i - 1], trace[i])
  }

  /** The tries from the first to the one that gives the result. */
  ghost predicate Whole(trace: seq<Tried>, r: Outcome) {
    trace != [] && Chained(trace) && Then(trace[|trace| - 1]) == Stop(r)
  }

  lemma Prepend(t: Tried, rest: seq<Tried>, r: Outcome)
    requires Whole(rest, r) && Leads(t, rest[0])
    ensures Whole([t] + rest, r)
  {
    var trace := [t] + rest;
    forall i | 0 < i < |trace|
      ensures Leads(trace[i - 1], trace[i])
    {
      assert trace[i] == rest[i - 1];
      if i > 1 {
        assert trace[i - 1] == rest[i - 2] && Leads(rest[i - 2], rest[i - 1]);
      }
    }
  }

  lemma One(t: Tried, r: Outcome)
    requires Then(t) == Stop(r)
    ensures Whole([t], r)
  {
  }

  /** The times only go up, so they run out. */
  lemma {:induction false} Bounded(trace: seq<Tried>)
    requires trace != [] && Chained(trace) && HasNotTimedOut(trace[0].at)
    ensures |trace| <= 1 + Left(trace[0].at)
    decreases |trace|
  {
    if |trace| > 1 {
      var rest := trace[1..];
      assert Leads(trace[0], trace[1]);
      forall i | 0 < i < |rest|
        ensures Leads(rest[i - 1], rest[i])
      {
        assert Leads(trace[i], trace[i + 1]);
      }
      assert |rest| > 1 ==> Leads(rest[0], rest[1]);
      if HasNotTimedOut(rest[0].at) {
        Bounded(rest);
      }
    }
  }

  /**
   * Success means that the last thing done was a commit that succeeded, or that the user's function resolved and had
   * ended the transaction itself.
   */
  lemma FineMeans(trace: seq<Tried>)
    requires Whole(trace, Fine)
    ensures var last := trace[|trace| - 1];
            || (last.Commit? && last.answer == Fine)
            || (last.Begin? && last.attempt == Ran(Resolved, last.attempt.left) && UserEnded(last.attempt.left))
  {
  }

  /** The server's error that a try ended with, if it did. */
  function ErrorOf(t: Tried): Option<ServerError> {
    match t
    case Begin(_, _, Ran(Rejected(e), _), _) => Some(e)
    case Commit(_, _, _, Failed(Server(e)), _) => Some(e)
    case _ => None
  }

  /**
   * When there is a next try: in time, after an error of the driver or the server. A commit whose result is unknown is
   * repeated, and everything is after a transient error, but no commit is followed by anything once its own time has
   * run out.
   */
  lemma RetriesExactly(t: Tried)
    ensures var retriable := ErrorOf(t).Some? && ErrorOf(t).value.isMongoError && t.done < 120000;
            && (Then(t) == CommitAgain <==>
                  t.Commit? && retriable && !ErrorOf(t).value.maxTimeMSExpired && ErrorOf(t).value.unknownCommitLabel)
            && (Then(t) == NewAttempt <==>
                  && retriable && ErrorOf(t).value.transientLabel
                  && (t.Commit? ==> !ErrorOf(t).value.maxTimeMSExpired && !ErrorOf(t).value.unknownCommitLabel))
            && (Then(t) == FirstCommit <==>
                  && t.Begin? && t.attempt.Ran? && t.attempt.end == Resolved
                  && t.attempt.left in {Starting, InProgress, CommittedEmpty})
            && (Then(t).Stop? ==> Then(t).r == Result(t))
  {
  }

  /** What the call answers when there is no next try. */
  function Result(t: Tried): Outcome {
    if t.Commit? then t.answer
    else if t.attempt.Refused? then Failed(t.attempt.error)
    else if t.attempt.end.NoPromise? then Failed(NotAPromise)
    else if t.attempt.end.Resolved? then Fine
    else
      var e := t.attempt.end.error;
      Failed(Server(if e.maxTimeMSExpired then e.(unknownCommitLabel := true) else e))
  }

  /** `attemptTransactionCommit` */
  method AttemptCommit(session: ClientSession, elapsed: nat, again: bool) returns (r: Outcome, trace: seq<Tried>)
    requires session.Sound()
    requires if again then session.transaction.state == Committed && HasNotTimedOut(elapsed)
             else !UserEnded(session.transaction.state)
    modifies session, session.transaction
    ensures session.Sound() && (session.transaction == old(session.transaction) || fresh(session.transaction))
    ensures !Active(session.transaction.state)
    ensures r.Failed? ==> !r.error.IllegalTransition? && r.error != AlreadyInProgress
    ensures Whole(trace, r)
    ensures var t := trace[0];
            t.Commit? && t.at == elapsed && t.again == again && t.state == old(session.transaction.state)
    decreases Left(elapsed), 0
  {
    var state := session.transaction.state;
    var first: Try, second: Try := *, *;
    r := session.CommitTransaction(first, second);
    var took: nat :| took >= 1;
    var tried := Tried.Commit(elapsed, state, again, r, elapsed + took);
    trace := [tried];
    if r.Failed? && r.error.Server? {
      var err := r.error.error;
      if err.isMongoError && HasNotTimedOut(elapsed + took) && !err.maxTimeMSExpired {
        if err.unknownCommitLabel {
          var rest;
          r, rest := AttemptCommit(session, elapsed + took, true);
          Prepend(tried, rest, r);
          trace := [tried] + rest;
          return;
        } else if err.transientLabel {
          var rest;
          r, rest := AttemptTransaction(session, elapsed + took);
          Prepend(tried, rest, r);
          trace := [tried] + rest;
          return;
        }
      }
    }
    One(tried, r);
  }

  /** `attemptTransaction` */
  method AttemptTransaction(session: ClientSession, elapsed: nat) returns (r: Outcome, trace: seq<Tried>)
    requires session.Sound() && HasNotTimedOut(elapsed)
    modifies session, session.transaction
    ensures session.Sound() && (session.transaction == old(session.transaction) || fresh(session.transaction))
    ensures Active(session.transaction.state) ==> Active(old(session.transaction.state))
    ensures r == Fine ==> !Active(session.transaction.state)
    ensures r.Failed? ==> !r.error.IllegalTransition?
    ensures r == Failed(AlreadyInProgress) <==> !session.snapshotEnabled && Active(old(session.transaction.state))
    ensures Whole(trace, r)
    ensures var t := trace[0]; t.Begin? && t.at == elapsed && t.state == old(session.transaction.state)
    decreases Left(elapsed), 1
  {
    var state := session.transaction.state;
    var unsupported: bool, unacknowledged: bool := *, *;
    r := session.StartTransaction(unsupported, unacknowledged);
    if r.Failed? {
      var refused := Begin(elapsed, state, Refused(r.error), elapsed + 1);
      One(refused, r);
      return r, [refused];
    }
    var calls: seq<Call>, end: UserResult := *, *;
    var _ := session.PerformAll(calls);
    var took: nat :| took >= 1;
    var tried := Begin(elapsed, state, Ran(end, session.transaction.state), elapsed + took);
    r, trace := Conclude(session, tried);
  }

  /** What follows when the user's function has ended. */
  method Conclude(session: ClientSession, tried: Tried) returns (r: Outcome, trace: seq<Tried>)
    requires session.Sound() && tried.Begin? && HasNotTimedOut(tried.at) && tried.at < tried.done
    requires tried.attempt.Ran? && tried.attempt.left == session.transaction.state
    modifies session, session.transaction
    ensures session.Sound() && (session.transaction == old(session.transaction) || fresh(session.transaction))
    ensures !Active(session.transaction.state)
    ensures r.Failed? ==> !r.error.IllegalTransition? && r.error != AlreadyInProgress
    ensures Whole(trace, r) && trace[0] == tried
    decreases Left(tried.at), 0
  {
    var end, done := tried.attempt.end, tried.done;
    var first: Try, second: Try := *, *;
    if end.NoPromise? {
      var _ := session.AbortTransaction(first, second);
      One(tried, Failed(NotAPromise));
      return Failed(NotAPromise), [tried];
    }
    if end.Resolved? {
      if UserEnded(session.transaction.state) {
        One(tried, Fine);
        return Fine, [tried];
      }
      var rest;
      r, rest := AttemptCommit(session, done, false);
      Prepend(tried, rest, r);
      return r, [tried] + rest;
    }
    if Active(session.transaction.state) {
      var _ := session.AbortTransaction(first, second);
    }
    if end.error.isMongoError && end.error.transientLabel && HasNotTimedOut(done) {
      var rest;
      r, rest := AttemptTransaction(session, done);
      Prepend(tried, rest, r);
      return r, [tried] + rest;
    }
    var thrown := if end.error.maxTimeMSExpired then end.error.(unknownCommitLabel := true) else end.error;
    r := Failed(Server(thrown));
    One(tried, r);
    return r, [tried];
  }

  /**
   * The whole call: it ends, and the tries lead from one to the next as they should, with at most as many retries as
   * milliseconds. It leaves no transaction active that was not before; success means that one was committed, unless the
   * user's function had ended it.
   */
  method WithTransaction(session: ClientSession) returns (r: Outcome, trace: seq<Tried>)
    requires session.Sound()
    modifies session, session.transaction
    ensures session.Sound()
    ensures Active(session.transaction.state) ==> Active(old(session.transaction.state)) && r.Failed?
    ensures r.Failed? ==> !r.error.IllegalTransition?
    ensures r == Failed(AlreadyInProgress) <==> !session.snapshotEnabled && Active(old(session.transaction.state))
    ensures Whole(trace, r) && |trace| <= 1 + MAX_WITH_TRANSACTION_TIMEOUT
    ensures var t := trace[0]; t.Begin? && t.at == 0 && t.state == old(session.transaction.state)
    ensures r == Fine ==>
              var last := trace[|trace| - 1];
              if last.Commit? then last.answer == Fine
              else last.attempt == Ran(Resolved, last.attempt.left) && UserEnded(last.attempt.left)
  {
    r, trace := AttemptTransaction(session, 0);
    Bounded(trace);
    if r == Fine {
      FineMeans(trace);
    }
  }
}
