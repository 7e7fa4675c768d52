/** The transaction of a client session (src/transactions.ts) and the calls that move it (src/sessions.ts). */
module Transactions {
  import opened Common

  datatype TxnState = NoTransaction | Starting | InProgress | Committed | CommittedEmpty | Aborted

  /** The table of legal transitions. */
  function NextStates(s: TxnState): set<TxnState> {
    match s
    case NoTransaction => {NoTransaction, Starting}
    case Starting => {InProgress, Committed, CommittedEmpty, Aborted}
    case InProgress => {InProgress, Committed, Aborted}
    case Committed => {Committed, CommittedEmpty, Starting, NoTransaction}
    case Aborted => {Starting, NoTransaction}
    case CommittedEmpty => {CommittedEmpty, NoTransaction}
  }

  predicate Active(s: TxnState) {
    s == Starting || s == InProgress
  }

  predicate Ended(s: TxnState) {
    s == Committed || s == CommittedEmpty || s == Aborted
  }

  /** What `withTransaction` takes for an end chosen by the user; an empty commit is not among them. */
  predicate UserEnded(s: TxnState) {
    s == NoTransaction || s == Committed || s == Aborted
  }

  /** An error of the driver or the server, by what the session code asks of it. */
  datatype ServerError = ServerError(
    isMongoError: bool, isNetwork: bool, isWriteConcern: bool, isRetryable: bool, maxTimeMSExpired: bool,
    unsatisfiableWriteConcern: bool, retryableWriteLabel: bool, transientLabel: bool, unknownCommitLabel: bool)
  {
    predicate UnknownCommitResult() {
      maxTimeMSExpired || !unsatisfiableWriteConcern
    }

    /** A failure of a commit after which its result is unknown. */
    predicate LeavesCommitUnknown() {
      (isNetwork || isWriteConcern || isRetryable || maxTimeMSExpired) && UnknownCommitResult()
    }

    /** A failure after which a commit lets go of the pinned server. */
    predicate UnpinsCommit() {
      if isNetwork || isWriteConcern || isRetryable || maxTimeMSExpired then UnknownCommitResult() else transientLabel
    }
  }

  datatype Error =
    | IllegalTransition(from: TxnState, to: TxnState)
    | SnapshotSession
    | UnsupportedTopology
    | UnacknowledgedWriteConcern
    | AlreadyInProgress
    | NoneStarted
    | CommitAfterAbort
    | AbortTwice
    | AbortAfterCommit
    | ExpiredSession
    | NotAPromise
    | Server(error: ServerError)

  datatype Outcome = Fine | Failed(error: Error)

  /** One try at sending a command: the server selected, whether the command was built, how it went. */
  datatype Try = Try(pin: Option<nat>, built: bool, failure: Option<ServerError>, unpins: bool)

  datatype Call =
    | Start(unsupported: bool, unacknowledged: bool)
    | Command(first: Try, again: Option<Try>)
    | Commit(first: Try, second: Try)
    | Abort(first: Try, second: Try)
    | EndSession(first: Try, second: Try)

  class Transaction {
    var state: TxnState
    var pinnedServer: Option<nat>

    /** A server is pinned only while there is a transaction to run or to commit again. */
    predicate Sound()
      reads this
    {
      pinnedServer.Some? ==> state != NoTransaction && state != Aborted
    }

    constructor ()
      ensures state == NoTransaction && pinnedServer == None
    {
      state, pinnedServer := NoTransaction, None;
    }

    method Transition(next: TxnState) returns (r: Outcome)
      modifies this
      ensures next in NextStates(old(state)) ==>
                && r == Fine && state == next
                && pinnedServer == if next in {NoTransaction, Starting, Aborted} then None else old(pinnedServer)
      ensures next !in NextStates(old(state)) ==> r == Failed(IllegalTransition(old(state), next)) && unchanged(this)
    {
      if next in NextStates(state) {
        state := next;
        if state == NoTransaction || state == Starting || state == Aborted {
          UnpinServer();
        }
        return Fine;
      }
      return Failed(IllegalTransition(state, next));
    }

    method PinServer(server: nat)
      modifies `pinnedServer
      ensures pinnedServer == if Active(state) then Some(server) else old(pinnedServer)
    {
      if Active(state) {
        pinnedServer := Some(server);
      }
    }

    method UnpinServer()
      modifies `pinnedServer
      ensures pinnedServer == None
    {
      pinnedServer := None;
    }
  }

  // ---------------------------------------------------------------- what the calls do to the state

  /** The state once a command has been built, for a command that ends the transaction or not. */
  function AfterBuild(s: TxnState, endsTransaction: bool): TxnState {
    if !Active(s) && !endsTransaction then NoTransaction else if s == Starting then InProgress else s
  }

  function AfterTry(s: TxnState, t: Try): TxnState {
    if t.built then AfterBuild(s, false) else s
  }

  function AfterCommit(s: TxnState): TxnState {
    match s
    case NoTransaction => NoTransaction
    case Aborted => Aborted
    case Starting => CommittedEmpty
    case CommittedEmpty => CommittedEmpty
    case _ => Committed
  }

  function AfterAbort(s: TxnState): TxnState {
    if Active(s) then Aborted else s
  }

  /**
   * What refuses a start: a snapshot session, an active transaction, a sharded cluster that is too old or, when the
   * transaction number has already been drawn, an unacknowledged write concern.
   */
  function StartError(s: TxnState, snapshot: bool, unsupported: bool, unacknowledged: bool): Option<Error> {
    if snapshot then Some(SnapshotSession)
    else if Active(s) then Some(AlreadyInProgress)
    else if unsupported then Some(UnsupportedTopology)
    else if unacknowledged then Some(UnacknowledgedWriteConcern)
    else None
  }

  /** How the end of a transaction goes on the wire: a failure that may be retried is, once. */
  function EndAnswer(first: Try, second: Try): Outcome {
    var retried := first.failure.Some? && first.failure.value.retryableWriteLabel;
    var failure := if retried then second.failure else first.failure;
    if failure.Some? then Failed(Server(failure.value)) else Fine
  }

  /** What a commit reports: the server's answer, labelled if it leaves the result unknown. */
  function CommitAnswer(sent: Outcome): Outcome {
    if sent.Failed? && sent.error.Server? && sent.error.error.LeavesCommitUnknown()
    then Failed(Server(sent.error.error.(unknownCommitLabel := true))) else sent
  }

  /** A commit succeeds exactly if its last command does, and the error is otherwise the server's. */
  lemma CommitReports(first: Try, second: Try)
    ensures var r := CommitAnswer(EndAnswer(first, second));
            var retried := first.failure.Some? && first.failure.value.retryableWriteLabel;
            && (r == Fine <==> if retried then second.failure == None else first.failure == None)
            && (r.Failed? ==>
                  && r.error.Server?
                  && var e := (if retried then second.failure else first.failure).value;
                     var unknown := e.maxTimeMSExpired
                                    || ((e.isNetwork || e.isWriteConcern || e.isRetryable)
                                        && !e.unsatisfiableWriteConcern);
                     r.error.error == e.(unknownCommitLabel := e.unknownCommitLabel || unknown))
  {
  }

  /** A failed commit that leaves its result unknown, or that is transient, lets go of the pinned server. */
  lemma CommitLetsGo(e: ServerError)
    ensures var known := e.unsatisfiableWriteConcern && !e.maxTimeMSExpired;
            var ambiguous := e.isNetwork || e.isWriteConcern || e.isRetryable || e.maxTimeMSExpired;
            && (ambiguous && !known ==> e.UnpinsCommit() && e.LeavesCommitUnknown())
            && (ambiguous && known ==> !e.UnpinsCommit() && !e.LeavesCommitUnknown())
            && (!ambiguous ==> (e.UnpinsCommit() <==> e.transientLabel) && !e.LeavesCommitUnknown())
  {
  }

  /** The life of a transaction, call by call. */
  lemma LifeCycle(s: TxnState)
    ensures AfterCommit(s) == (if s in {Starting, CommittedEmpty} then CommittedEmpty
                               else if s in {InProgress, Committed} then Committed else s)
    ensures AfterAbort(s) == if s in {Starting, InProgress} then Aborted else s
    ensures AfterBuild(s, false) == if s in {Starting, InProgress} then InProgress else NoTransaction
    ensures s != Starting ==> AfterBuild(s, true) == s
    ensures forall snapshot, unsupported, unacknowledged ::
              StartError(s, snapshot, unsupported, unacknowledged) == None <==>
                !snapshot && s !in {Starting, InProgress} && !unsupported && !unacknowledged
  {
  }

  /** A session that ends leaves no transaction active, and an operation moves one only by building its command. */
  lemma SessionLife(s: TxnState, first: Try, second: Try, snapshot: bool)
    ensures !Active(AfterCall(s, EndSession(first, second), snapshot, false))
    ensures AfterCall(s, Command(first, None), snapshot, true) == s
    ensures AfterCall(s, Command(first, None), snapshot, false) == if first.built then AfterBuild(s, false) else s
    ensures first.built || second.built ==>
              AfterCall(s, Command(first, Some(second)), snapshot, false) == AfterBuild(s, false)
  {
  }

  /**
   * What the table rules out: a transaction that runs is not left but by its end, only such a one is aborted, an empty
   * commit comes of no command, and nothing but a start leads out of an end into a transaction.
   */
  lemma TableForbids(s: TxnState, t: TxnState)
    requires t in NextStates(s)
    ensures Active(s) ==> t !in {NoTransaction, Starting}
    ensures t == Aborted ==> Active(s)
    ensures t == InProgress ==> Active(s)
    ensures t == Committed ==> Active(s) || s == Committed
    ensures t == CommittedEmpty ==> s in {Starting, Committed, CommittedEmpty}
    ensures t == Starting ==> s in {NoTransaction, Committed, Aborted}
    ensures t == NoTransaction ==> s == NoTransaction || Ended(s)
  {
  }

  function AfterCall(s: TxnState, call: Call, snapshot: bool, ended: bool): TxnState {
    match call
    case Start(unsupported, unacknowledged) =>
      if StartError(s, snapshot, unsupported, unacknowledged).Some? then s else Starting
    case Command(first, again) =>
      if ended then s
      else if again.Some? then AfterTry(AfterTry(s, first), again.value) else AfterTry(s, first)
    case Commit(_, _) => AfterCommit(s)
    case Abort(_, _) => AfterAbort(s)
    case EndSession(_, _) => if ended then s else AfterAbort(s)
  }

  function AfterCalls(s: TxnState, calls: seq<Call>, snapshot: bool, ended: bool): TxnState
    decreases |calls|
  {
    if calls == [] then s
    else AfterCalls(AfterCall(s, calls[0], snapshot, ended), calls[1..], snapshot, ended || calls[0].EndSession?)
  }

  class ClientSession {
    const snapshotEnabled: bool
    var transaction: Transaction
    var hasEnded: bool

    predicate Sound()
      reads this, transaction
    {
      transaction.Sound()
    }

    constructor (snapshotEnabled: bool)
      ensures Sound() && transaction.state == NoTransaction && !hasEnded && this.snapshotEnabled == snapshotEnabled
      ensures fresh(transaction)
    {
      this.snapshotEnabled := snapshotEnabled;
      transaction := new Transaction();
      hasEnded := false;
    }

    method StartTransaction(unsupported: bool, unacknowledged: bool) returns (r: Outcome)
      requires Sound()
      modifies this`transaction, transaction
      ensures Sound() && (transaction == old(transaction) || fresh(transaction))
      ensures var refusal := StartError(old(transaction.state), snapshotEnabled, unsupported, unacknowledged);
              r == if refusal.Some? then Failed(refusal.value) else Fine
      ensures r == Fine ==> transaction.pinnedServer == None
      ensures var start := Start(unsupported, unacknowledged);
              transaction.state == AfterCall(old(transaction.state), start, snapshotEnabled, hasEnded)
    {
      if snapshotEnabled {
        return Failed(SnapshotSession);
      }
      if Active(transaction.state) {
        return Failed(AlreadyInProgress);
      }
      if transaction.pinnedServer.Some? && Ended(transaction.state) {
        transaction.UnpinServer();
      }
      if unsupported {
        return Failed(UnsupportedTopology);
      }
      if unacknowledged {
        return Failed(UnacknowledgedWriteConcern);
      }
      transaction := new Transaction();
      r := transaction.Transition(Starting);
    }

    /**
     * `applySession`: a command outside a transaction leaves the last one behind; the first command inside starts it.
     */
    method ApplySession(endsTransaction: bool) returns (r: Outcome, startTransaction: bool)
      requires Sound()
      requires endsTransaction ==> transaction.state in {InProgress, Committed}
      modifies transaction
      ensures Sound()
      ensures r == if hasEnded then Failed(ExpiredSession) else Fine
      ensures transaction.state ==
                if hasEnded then old(transaction.state) else AfterBuild(old(transaction.state), endsTransaction)
      ensures startTransaction <==> !hasEnded && old(transaction.state) == Starting
      ensures transaction.pinnedServer ==
                if hasEnded || Active(old(transaction.state)) || endsTransaction then old(transaction.pinnedServer)
                else None
    {
      startTransaction := false;
      if hasEnded {
        return Failed(ExpiredSession), false;
      }
      var inTransaction := Active(transaction.state) || endsTransaction;
      r := Fine;
      if !inTransaction {
        if transaction.state != NoTransaction {
          r := transaction.Transition(NoTransaction);
        }
        return;
      }
      if transaction.state == Starting {
        r := transaction.Transition(InProgress);
        startTransaction := true;
      }
    }

    /** A server is selected, perhaps pinned, and the command perhaps built and sent. */
    method Attempt(t: Try, endsTransaction: bool) returns (r: Outcome)
      requires Sound() && !hasEnded
      requires endsTransaction ==> transaction.state in {InProgress, Committed}
      modifies transaction
      ensures Sound()
      ensures transaction.state ==
                if t.built then AfterBuild(old(transaction.state), endsTransaction) else old(transaction.state)
      ensures transaction.pinnedServer ==
                if (t.failure.Some? && t.unpins) || (t.built && !Active(old(transaction.state)) && !endsTransaction)
                then None
                else if t.pin.Some? && Active(old(transaction.state)) then t.pin else old(transaction.pinnedServer)
      ensures r == if t.failure.Some? then Failed(Server(t.failure.value)) else Fine
    {
      if t.pin.Some? && Active(transaction.state) {
        transaction.PinServer(t.pin.value);
      }
      if t.built {
        var _, _ := ApplySession(endsTransaction);
      }
      if t.failure.Some? {
        if t.unpins {
          transaction.UnpinServer();
        }
        return Failed(Server(t.failure.value));
      }
      return Fine;
    }

    /** An operation on the session, with the second try of a retryable one. */
    method Execute(first: Try, again: Option<Try>) returns (r: Outcome)
      requires Sound()
      modifies transaction
      ensures Sound() && (r.Failed? ==> !r.error.IllegalTransition?)
      ensures transaction.state == AfterCall(old(transaction.state), Command(first, again), snapshotEnabled, hasEnded)
      ensures hasEnded ==> r == Failed(ExpiredSession)
      ensures !hasEnded ==>
                var last := if again.Some? then again.value else first;
                && r == (if last.failure.Some? then Failed(Server(last.failure.value)) else Fine)
                && (last.pin.Some? && r == Fine && Active(old(transaction.state)) ==>
                      transaction.pinnedServer == last.pin)
    {
      if hasEnded {
        return Failed(ExpiredSession);
      }
      if transaction.pinnedServer.Some? && Ended(transaction.state) {
        transaction.UnpinServer();
      }
      r := Attempt(first, false);
      if again.Some? {
        r := Attempt(again.value, false);
      }
    }

    /** The end of a transaction is sent, and sent once more after a retryable failure. */
    method SendEnd(commit: bool, first: Try, second: Try) returns (r: Outcome)
      requires Sound() && transaction.state in {InProgress, Committed}
      modifies transaction
      ensures Sound() && transaction.state == old(transaction.state)
      ensures r == if hasEnded then Failed(ExpiredSession) else EndAnswer(first, second)
      ensures !commit && !hasEnded ==>
                transaction.pinnedServer.None? || (first.failure.Some? && first.failure.value.retryableWriteLabel)
    {
      if hasEnded {
        return Failed(ExpiredSession);
      }
      r := Attempt(first, true);
      if !commit {
        transaction.UnpinServer();
      }
      if r.Failed? && r.error.Server? && r.error.error.retryableWriteLabel {
        if commit {
          transaction.UnpinServer();
        }
        r := Attempt(second, true);
      }
    }

    method CommitTransaction(first: Try, second: Try) returns (r: Outcome)
      requires Sound()
      modifies transaction
      ensures Sound() && transaction.state == AfterCommit(old(transaction.state))
      ensures old(transaction.state) in {InProgress, Committed} ==>
                r == if hasEnded then Failed(ExpiredSession) else CommitAnswer(EndAnswer(first, second))
      ensures old(transaction.state) == NoTransaction ==> r == Failed(NoneStarted)
      ensures old(transaction.state) == Aborted ==> r == Failed(CommitAfterAbort)
      ensures old(transaction.state) in {Starting, CommittedEmpty} ==> r == Fine
      ensures r.Failed? && r.error.Server? && r.error.error.UnpinsCommit() ==> transaction.pinnedServer == None
      ensures r.Failed? && r.error.Server? && r.error.error.LeavesCommitUnknown() ==> r.error.error.unknownCommitLabel
    {
      var s := transaction.state;
      if s == NoTransaction {
        return Failed(NoneStarted);
      }
      if s == Starting || s == CommittedEmpty {
        r := transaction.Transition(CommittedEmpty);
        return;
      }
      if s == Aborted {
        return Failed(CommitAfterAbort);
      }
      var sent := SendEnd(true, first, second);
      r := transaction.Transition(Committed);
      if sent.Failed? && r == Fine {
        r := sent;
        if sent.error.Server? {
          var e := sent.error.error;
          if e.UnpinsCommit() {
            transaction.UnpinServer();
          }
          if e.LeavesCommitUnknown() {
            r := Failed(Server(e.(unknownCommitLabel := true)));
          }
        }
      }
    }

    /** Aborting an active transaction reports no failure of the server. */
    method AbortTransaction(first: Try, second: Try) returns (r: Outcome)
      requires Sound()
      modifies transaction
      ensures Sound() && transaction.state == AfterAbort(old(transaction.state))
      ensures Active(old(transaction.state)) ==> r == Fine && transaction.pinnedServer == None
      ensures old(transaction.state) == NoTransaction ==> r == Failed(NoneStarted)
      ensures old(transaction.state) == Aborted ==> r == Failed(AbortTwice)
      ensures old(transaction.state) in {Committed, CommittedEmpty} ==> r == Failed(AbortAfterCommit)
    {
      var s := transaction.state;
      if s == NoTransaction {
        return Failed(NoneStarted);
      }
      if s == Starting {
        r := transaction.Transition(Aborted);
        return;
      }
      if s == Aborted {
        return Failed(AbortTwice);
      }
      if s == Committed || s == CommittedEmpty {
        return Failed(AbortAfterCommit);
      }
      var _ := SendEnd(false, first, second);
      r := transaction.Transition(Aborted);
    }

    method Perform(call: Call) returns (r: Outcome)
      requires Sound()
      modifies this, transaction
      ensures Sound() && (transaction == old(transaction) || fresh(transaction))
      ensures r.Failed? ==> !r.error.IllegalTransition?
      ensures transaction.state == AfterCall(old(transaction.state), call, snapshotEnabled, old(hasEnded))
      ensures hasEnded == (old(hasEnded) || call.EndSession?)
    {
      match call
      case Start(unsupported, unacknowledged) => r := StartTransaction(unsupported, unacknowledged);
      case Command(first, again) => r := Execute(first, again);
      case Commit(first, second) => r := CommitTransaction(first, second);
      case Abort(first, second) => r := AbortTransaction(first, second);
      case EndSession(first, second) =>
        r := Fine;
        if !hasEnded {
          if Active(transaction.state) {
            r := AbortTransaction(first, second);
          }
          hasEnded := true;
        }
    }

    /** Any sequence of calls: none of them attempts a transition outside the table. */
    method PerformAll(calls: seq<Call>) returns (results: seq<Outcome>)
      requires Sound()
      modifies this, transaction
      ensures Sound() && (transaction == old(transaction) || fresh(transaction))
      ensures |results| == |calls|
      ensures forall i :: 0 <= i < |results| && results[i].Failed? ==> !results[i].error.IllegalTransition?
      ensures transaction.state == AfterCalls(old(transaction.state), calls, snapshotEnabled, old(hasEnded))
    {
      results := [];
      var i := 0;
      while i < |calls|
        modifies this, transaction
        invariant i == |results| <= |calls|
        invariant Sound() && (transaction == old(transaction) || fresh(transaction))
        invariant forall k :: 0 <= k < i && results[k].Failed? ==> !results[k].error.IllegalTransition?
        invariant AfterCalls(old(transaction.state), calls, snapshotEnabled, old(hasEnded))
               == AfterCalls(transaction.state, calls[i..], snapshotEnabled, hasEnded)
      {
        assert calls[i..][1..] == calls[i + 1..];
        var r := Perform(calls[i]);
        results := results + [r];
        i := i + 1;
      }
    }
  }

  /** A new session put through any calls stays within the table and pins only as the states allow. */
  method RunSession(snapshotEnabled: bool, calls: seq<Call>)
    returns (results: seq<Outcome>, state: TxnState, pinned: bool)
    ensures |results| == |calls|
    ensures forall i :: 0 <= i < |results| && results[i].Failed? ==> !results[i].error.IllegalTransition?
    ensures state == AfterCalls(NoTransaction, calls, snapshotEnabled, false)
    ensures pinned ==> state != NoTransaction && state != Aborted
  {
    var session := new ClientSession(snapshotEnabled);
    results := session.PerformAll(calls);
    state, pinned := session.transaction.state, session.transaction.pinnedServer.Some?;
  }
}
