/**
 * Which (lsid, txnNumber) pairs the commands of many client sessions carry while they share a pool of server sessions
 * (src/sessions.ts, src/operations/execute_operation.ts). Each client session is used for one call at a time.
 */
module TransactionIdentity {
  import opened Common
  import opened Transactions
  import opened ServerSessions

  /** What a transaction number is drawn for. */
  datatype Issue = Issue(lsid: nat, number: nat, forTransaction: bool)

  /** What a command is part of: the transaction or the retryable write with that issue, or neither. */
  datatype Purpose = Txn(id: nat) | Write(id: nat) | Plain

  datatype Sent = Sent(lsid: nat, number: Option<nat>, purpose: Purpose, startTransaction: bool)

  /** `overtaken` when a number was drawn and no command has been built since. */
  datatype Client = Client(server: Option<nat>, state: TxnState, ended: bool, txn: nat, overtaken: bool)

  datatype World = World(clients: seq<Client>, pool: seq<nat>, numbers: seq<nat>, issued: seq<Issue>, log: seq<Sent>)

  datatype Kind = Ordinary | Retryable(id: nat) | EndsTransaction

  /** A start is `refused` when the new transaction's options are; its number has been drawn by then. */
  datatype Event =
    | NewSession
    | Start(c: nat, now: Conditions, refused: bool)
    | Operation(c: nat, now: Conditions, canRetryWrite: bool, built: nat)
    | Commit(c: nat, now: Conditions, built: nat)
    | Abort(c: nat, now: Conditions, built: nat)
    | End(c: nat, now: Conditions, built: nat, dirty: bool)

  // ---------------------------------------------------------------- steps

  /** The getter of the server session, which takes one from the pool when there is none. */
  function Acquire(w: World, c: nat, now: Conditions): World
    requires c < |w.clients|
  {
    if w.clients[c].server.Some? then w
    else
      var found := Candidates(w.pool, now);
      if found == [] then
        w.(clients := w.clients[c := w.clients[c].(server := Some(|w.numbers|))],
           pool := [], numbers := w.numbers + [0])
      else
        w.(clients := w.clients[c := w.clients[c].(server := Some(found[0]))], pool := found[1..])
  }

  /** `incrementTransactionNumber` */
  function Draw(w: World, c: nat, forTransaction: bool): World
    requires Attached(w, c)
  {
    var sid := w.clients[c].server.value;
    var number := w.numbers[sid] + 1;
    w.(clients := w.clients[c := w.clients[c].(overtaken := true)],
       numbers := w.numbers[sid := number],
       issued := w.issued + [Issue(sid, number, forTransaction)])
  }

  function SetState(w: World, c: nat, state: TxnState): World
    requires c < |w.clients|
  {
    w.(clients := w.clients[c := w.clients[c].(state := state)])
  }

  function Begin(w: World, c: nat, id: nat): World
    requires c < |w.clients|
  {
    w.(clients := w.clients[c := w.clients[c].(state := Starting, txn := id, overtaken := false)])
  }

  /** The number is drawn before the new transaction is made; if that throws, the old transaction stays. */
  function DoStart(w: World, c: nat, now: Conditions, refused: bool): World
    requires c < |w.clients| && Owned(w)
  {
    var v := Acquire(w, c, now);
    if Active(v.clients[c].state) then v
    else
      AcquireOwned(w, c, now);
      if refused then Draw(v, c, true) else Begin(Draw(v, c, true), c, |v.issued|)
  }

  predicate InTransaction(w: World, c: nat, kind: Kind)
    requires c < |w.clients|
  {
    Active(w.clients[c].state) || kind.EndsTransaction?
  }

  /** The server session of the client session can be counted on. */
  predicate Attached(w: World, c: nat) {
    c < |w.clients| && w.clients[c].server.Some? && w.clients[c].server.value < |w.numbers|
  }

  function NumberFor(w: World, c: nat, kind: Kind): Option<nat>
    requires Attached(w, c)
  {
    var number := w.numbers[w.clients[c].server.value];
    if number != 0 && (kind.Retryable? || InTransaction(w, c, kind)) then Some(number) else None
  }

  function PurposeOf(w: World, c: nat, kind: Kind): Purpose
    requires c < |w.clients|
  {
    if InTransaction(w, c, kind) then Txn(w.clients[c].txn) else if kind.Retryable? then Write(kind.id) else Plain
  }

  /** `applySession` on a command of a session that has not ended. */
  function Apply(w: World, c: nat, kind: Kind): World
    requires Attached(w, c)
  {
    var client := w.clients[c];
    var next := client.(state := AfterBuild(client.state, kind.EndsTransaction?),
                        overtaken := InTransaction(w, c, kind) && client.overtaken);
    var sent := Sent(client.server.value, NumberFor(w, c, kind), PurposeOf(w, c, kind), client.state == Starting);
    w.(clients := w.clients[c := next], log := w.log + [sent])
  }

  /** The command is built once for every try that gets so far. */
  function ApplyAll(w: World, c: nat, kind: Kind, built: nat): (v: World)
    requires Attached(w, c)
    ensures |v.clients| == |w.clients| && v.clients[c].server == w.clients[c].server && v.numbers == w.numbers
    ensures forall i :: 0 <= i < |w.clients| && i != c ==> v.clients[i] == w.clients[i]
  {
    if built == 0 then w else Apply(ApplyAll(w, c, kind, built - 1), c, kind)
  }

  function DoOperation(w: World, c: nat, now: Conditions, canRetryWrite: bool, built: nat): World
    requires c < |w.clients| && Owned(w)
  {
    var willRetryWrite := canRetryWrite && !Active(w.clients[c].state);
    if w.clients[c].ended || (!willRetryWrite && built == 0) then w
    else
      AcquireOwned(w, c, now);
      var v := Acquire(w, c, now);
      if willRetryWrite then ApplyAll(Draw(v, c, false), c, Retryable(|v.issued|), built)
      else ApplyAll(v, c, Ordinary, built)
  }

  /** A commit is sent only for a transaction that has sent a command, and again if it was already committed. */
  function DoCommit(w: World, c: nat, now: Conditions, built: nat): World
    requires c < |w.clients| && Owned(w)
  {
    AcquireOwned(w, c, now);
    var v := Acquire(w, c, now);
    var s := v.clients[c].state;
    var sends := (s == InProgress || s == Committed) && !v.clients[c].ended;
    var sent := if sends then ApplyAll(v, c, EndsTransaction, built) else v;
    SetState(sent, c, AfterCommit(s))
  }

  function DoAbort(w: World, c: nat, now: Conditions, built: nat): World
    requires c < |w.clients| && Owned(w)
  {
    AcquireOwned(w, c, now);
    var v := Acquire(w, c, now);
    var s := v.clients[c].state;
    var sent := if s == InProgress && !v.clients[c].ended then ApplyAll(v, c, EndsTransaction, built) else v;
    SetState(sent, c, AfterAbort(s))
  }

  function Release(w: World, c: nat, now: Conditions, dirty: bool): World
    requires c < |w.clients| && w.clients[c].server.Some?
  {
    w.(clients := w.clients[c := w.clients[c].(server := None, ended := true)],
       pool := Released(w.pool, w.clients[c].server.value, dirty, now))
  }

  function DoEnd(w: World, c: nat, now: Conditions, built: nat, dirty: bool): World
    requires c < |w.clients| && Owned(w)
  {
    if w.clients[c].ended then w
    else
      AcquireOwned(w, c, now);
      var v := Acquire(w, c, now);
      Release(if Active(v.clients[c].state) then DoAbort(v, c, now, built) else v, c, now, dirty)
  }

  function Step(w: World, e: Event): World
    requires Owned(w)
  {
    if e.NewSession? then w.(clients := w.clients + [Client(None, NoTransaction, false, 0, false)])
    else if e.c >= |w.clients| then w
    else
      match e
      case Start(c, now, refused) => DoStart(w, c, now, refused)
      case Operation(c, now, canRetryWrite, built) => DoOperation(w, c, now, canRetryWrite, built)
      case Commit(c, now, built) => DoCommit(w, c, now, built)
      case Abort(c, now, built) => DoAbort(w, c, now, built)
      case End(c, now, built, dirty) => DoEnd(w, c, now, built, dirty)
  }

  // ---------------------------------------------------------------- who holds a server session

  /** A server session is with one client session or once in the pool. */
  ghost predicate Owned(w: World) {
    && (forall i :: 0 <= i < |w.clients| && w.clients[i].server.Some? ==> w.clients[i].server.value < |w.numbers|)
    && (forall i, j :: 0 <= i < j < |w.clients| && w.clients[i].server.Some? ==>
          w.clients[i].server != w.clients[j].server)
    && (forall k :: 0 <= k < |w.pool| ==> w.pool[k] < |w.numbers|)
    && (forall k, l :: 0 <= k < l < |w.pool| ==> w.pool[k] != w.pool[l])
    && (forall i, k :: 0 <= i < |w.clients| && 0 <= k < |w.pool| ==> w.clients[i].server != Some(w.pool[k]))
  }

  lemma AcquireOwned(w: World, c: nat, now: Conditions)
    requires Owned(w) && c < |w.clients|
    ensures Owned(Acquire(w, c, now)) && |Acquire(w, c, now).clients| == |w.clients|
    ensures Acquire(w, c, now).clients[c].server.Some?
  {
    UsableFinds(w.pool, now.timedOut);
  }

  lemma ReleaseOwned(w: World, c: nat, now: Conditions, dirty: bool)
    requires Owned(w) && c < |w.clients| && w.clients[c].server.Some?
    ensures Owned(Release(w, c, now, dirty))
  {
    TrimmedKeeps(w.pool, now.timedOut);
  }

  // ---------------------------------------------------------------- what each client session and the log agree on

  /** No number is drawn twice on a server session, and none lies ahead of its counter. */
  ghost predicate IssuedOnce(w: World) {
    && (forall i :: 0 <= i < |w.issued| ==>
          w.issued[i].lsid < |w.numbers| && 1 <= w.issued[i].number <= w.numbers[w.issued[i].lsid])
    && Distinct(w.issued)
  }

  ghost predicate Distinct(issued: seq<Issue>) {
    forall i, j :: 0 <= i < j < |issued| ==> issued[i].lsid != issued[j].lsid || issued[i].number != issued[j].number
  }

  /** A transaction that may still send commands. */
  predicate Engaged(s: TxnState) {
    Active(s) || s == Committed
  }

  /** The transaction has sent a command. */
  ghost predicate Begun(log: seq<Sent>, id: nat) {
    exists k :: 0 <= k < |log| && log[k].purpose == Txn(id)
  }

  ghost predicate ClientFits(w: World, x: Client) {
    !x.ended && Engaged(x.state) ==>
      && x.txn < |w.issued| && w.issued[x.txn].forTransaction
      && x.server == Some(w.issued[x.txn].lsid) && x.server.value < |w.numbers|
      && (w.numbers[x.server.value] == w.issued[x.txn].number <==> !x.overtaken)
      && (Active(x.state) ==> !x.overtaken)
      && (Begun(w.log, x.txn) <==> x.state != Starting)
  }

  ghost predicate ClientsFit(w: World) {
    forall i :: 0 <= i < |w.clients| ==> ClientFits(w, w.clients[i])
  }

  predicate SentFits(issued: seq<Issue>, e: Sent) {
    match e.purpose
    case Txn(id) => id < |issued| && issued[id].forTransaction && e.lsid == issued[id].lsid && e.number.Some?
    case Write(id) =>
      && id < |issued| && !issued[id].forTransaction && e.lsid == issued[id].lsid
      && e.number == Some(issued[id].number)
    case Plain => e.number == None
  }

  /** The first command of a transaction, and no other, starts it. */
  ghost predicate StartsAt(log: seq<Sent>, k: nat)
    requires k < |log|
  {
    log[k].startTransaction <==> log[k].purpose.Txn? && !Begun(log[..k], log[k].purpose.id)
  }

  ghost predicate LogFits(w: World) {
    forall k :: 0 <= k < |w.log| ==> SentFits(w.issued, w.log[k]) && StartsAt(w.log, k)
  }

  ghost predicate Inv(w: World) {
    Owned(w) && IssuedOnce(w) && ClientsFit(w) && LogFits(w)
  }

  /** Every command of a transaction carries the number drawn when the transaction was started. */
  ghost predicate Faithful(w: World) {
    forall k :: 0 <= k < |w.log| ==> Carries(w.issued, w.log[k])
  }

  predicate Carries(issued: seq<Issue>, e: Sent) {
    e.purpose.Txn? ==> e.purpose.id < |issued| && e.number == Some(issued[e.purpose.id].number)
  }

  // ---------------------------------------------------------------- the steps keep it

  lemma AcquireKeeps(w: World, c: nat, now: Conditions)
    requires Inv(w) && c < |w.clients|
    ensures Inv(Acquire(w, c, now)) && (Faithful(Acquire(w, c, now)) <==> Faithful(w))
  {
    AcquireOwned(w, c, now);
    var v := Acquire(w, c, now);
    forall i | 0 <= i < |v.clients|
      ensures ClientFits(v, v.clients[i])
    {
      assert ClientFits(w, w.clients[i]);
    }
  }

  lemma DrawKeeps(w: World, c: nat, forTransaction: bool)
    requires Inv(w) && c < |w.clients| && w.clients[c].server.Some? && !Active(w.clients[c].state)
    ensures Inv(Draw(w, c, forTransaction)) && (Faithful(Draw(w, c, forTransaction)) <==> Faithful(w))
  {
    var v := Draw(w, c, forTransaction);
    forall i | 0 <= i < |v.clients|
      ensures ClientFits(v, v.clients[i])
    {
      assert ClientFits(w, w.clients[i]);
    }
    assert forall k :: 0 <= k < |w.log| ==> SentFits(w.issued, w.log[k]) && SentFits(v.issued, w.log[k]);
    assert forall k :: 0 <= k < |w.log| ==> (Carries(v.issued, w.log[k]) <==> Carries(w.issued, w.log[k]));
  }

  lemma BeginKeeps(w: World, c: nat, id: nat)
    requires Inv(w) && Attached(w, c) && id < |w.issued| && !Begun(w.log, id)
    requires w.issued[id] == Issue(w.clients[c].server.value, w.numbers[w.clients[c].server.value], true)
    ensures Inv(Begin(w, c, id)) && (Faithful(Begin(w, c, id)) <==> Faithful(w))
  {
    var v := Begin(w, c, id);
    forall i | 0 <= i < |v.clients|
      ensures ClientFits(v, v.clients[i])
    {
      assert ClientFits(w, w.clients[i]);
    }
  }

  lemma NotYetBegun(w: World)
    requires LogFits(w)
    ensures !Begun(w.log, |w.issued|)
  {
    assert forall k :: 0 <= k < |w.log| ==> SentFits(w.issued, w.log[k]);
  }

  lemma StartKeeps(w: World, c: nat, now: Conditions, refused: bool)
    requires Inv(w) && c < |w.clients|
    ensures Inv(DoStart(w, c, now, refused)) && (Faithful(DoStart(w, c, now, refused)) <==> Faithful(w))
  {
    AcquireKeeps(w, c, now);
    AcquireOwned(w, c, now);
    var v := Acquire(w, c, now);
    if !Active(v.clients[c].state) {
      NotYetBegun(v);
      DrawKeeps(v, c, true);
      BeginKeeps(Draw(v, c, true), c, |v.issued|);
    }
  }

  lemma BegunSnoc(log: seq<Sent>, e: Sent, id: nat)
    ensures Begun(log + [e], id) <==> Begun(log, id) || e.purpose == Txn(id)
  {
    var longer := log + [e];
    assert longer[|log|] == e;
    if Begun(log, id) {
      var k :| 0 <= k < |log| && log[k].purpose == Txn(id);
      assert longer[k].purpose == Txn(id);
    }
  }

  lemma LogSnoc(w: World, v: World, e: Sent)
    requires LogFits(w) && v.log == w.log + [e] && v.issued == w.issued && SentFits(w.issued, e)
    requires e.startTransaction <==> e.purpose.Txn? && !Begun(w.log, e.purpose.id)
    ensures LogFits(v)
  {
    forall k | 0 <= k < |v.log|
      ensures SentFits(v.issued, v.log[k]) && StartsAt(v.log, k)
    {
      if k < |w.log| {
        assert v.log[k] == w.log[k] && v.log[..k] == w.log[..k] && StartsAt(w.log, k);
      } else {
        assert v.log[..k] == w.log;
      }
    }
  }

  /** What `applySession` may be called on. */
  ghost predicate Appliable(w: World, c: nat, kind: Kind) {
    && Inv(w) && c < |w.clients| && w.clients[c].server.Some? && !w.clients[c].ended
    && (kind.EndsTransaction? ==> w.clients[c].state == InProgress || w.clients[c].state == Committed)
    && (kind.Retryable? ==>
          && !Active(w.clients[c].state) && kind.id < |w.issued|
          && w.issued[kind.id] == Issue(w.clients[c].server.value, w.numbers[w.clients[c].server.value], false))
  }

  lemma ApplyLogs(w: World, c: nat, kind: Kind)
    requires Appliable(w, c, kind)
    ensures LogFits(Apply(w, c, kind))
  {
    var v := Apply(w, c, kind);
    assert ClientFits(w, w.clients[c]);
    LogSnoc(w, v, v.log[|w.log|]);
  }

  lemma ApplyKeeps(w: World, c: nat, kind: Kind)
    requires Appliable(w, c, kind)
    ensures Appliable(Apply(w, c, kind), c, kind)
  {
    var v := Apply(w, c, kind);
    var e := v.log[|w.log|];
    ApplyLogs(w, c, kind);
    assert ClientFits(w, w.clients[c]);
    forall i | 0 <= i < |v.clients|
      ensures ClientFits(v, v.clients[i])
    {
      assert ClientFits(w, w.clients[i]);
      BegunSnoc(w.log, e, w.clients[i].txn);
    }
  }

  /** The first try changes the state; building the same command again changes nothing more. */
  lemma {:induction false} ApplyAllState(w: World, c: nat, kind: Kind, built: nat)
    requires Attached(w, c)
    ensures var x, y := w.clients[c], ApplyAll(w, c, kind, built).clients[c];
            var inTransaction := Active(x.state) || kind.EndsTransaction?;
            && y.state == (if built == 0 then x.state else AfterBuild(x.state, kind.EndsTransaction?))
            && y.overtaken == (if built == 0 || inTransaction then x.overtaken else false)
            && y.ended == x.ended && y.txn == x.txn
  {
    if built > 0 {
      ApplyAllState(w, c, kind, built - 1);
    }
  }

  lemma {:induction false} ApplyAllKeeps(w: World, c: nat, kind: Kind, built: nat)
    requires Appliable(w, c, kind)
    ensures Appliable(ApplyAll(w, c, kind, built), c, kind)
  {
    if built > 0 {
      ApplyAllKeeps(w, c, kind, built - 1);
      ApplyKeeps(ApplyAll(w, c, kind, built - 1), c, kind);
    }
  }

  /** All tries of a command carry the same number and belong to the same purpose. */
  lemma {:induction false} ApplyAllLog(w: World, c: nat, kind: Kind, built: nat)
    requires Attached(w, c)
    ensures var v := ApplyAll(w, c, kind, built);
            && v.issued == w.issued && |v.log| == |w.log| + built && v.log[..|w.log|] == w.log
            && forall k :: |w.log| <= k < |v.log| ==>
                 v.log[k].number == NumberFor(w, c, kind) && v.log[k].purpose == PurposeOf(w, c, kind)
  {
    if built > 0 {
      ApplyAllLog(w, c, kind, built - 1);
      ApplyAllState(w, c, kind, built - 1);
      var u, v := ApplyAll(w, c, kind, built - 1), ApplyAll(w, c, kind, built);
      assert v.log[..|u.log|] == u.log;
      assert v.log[..|w.log|] == u.log[..|w.log|];
    }
  }

  /** However often a command is built, it is faithful unless it belongs to a transaction whose number was overtaken. */
  lemma ApplyAllFaithful(w: World, c: nat, kind: Kind, built: nat)
    requires Appliable(w, c, kind)
    ensures Faithful(ApplyAll(w, c, kind, built))
       <==> Faithful(w) && (InTransaction(w, c, kind) && built > 0 ==> !w.clients[c].overtaken)
  {
    ApplyAllLog(w, c, kind, built);
    assert ClientFits(w, w.clients[c]);
    LogGrows(w, ApplyAll(w, c, kind, built), NumberFor(w, c, kind), PurposeOf(w, c, kind));
  }

  lemma LogGrows(w: World, v: World, number: Option<nat>, purpose: Purpose)
    requires v.issued == w.issued && |w.log| <= |v.log| && v.log[..|w.log|] == w.log
    requires forall k :: |w.log| <= k < |v.log| ==> v.log[k].number == number && v.log[k].purpose == purpose
    ensures Faithful(v) <==> Faithful(w) && (|v.log| > |w.log| ==> Carries(w.issued, Sent(0, number, purpose, false)))
  {
    assert forall k :: 0 <= k < |w.log| ==> v.log[k] == w.log[k];
    if Faithful(v) && |v.log| > |w.log| {
      assert Carries(v.issued, v.log[|w.log|]);
    }
  }

  lemma SetStateKeeps(w: World, c: nat, state: TxnState)
    requires Inv(w) && c < |w.clients|
    requires state == w.clients[c].state || state in {CommittedEmpty, Aborted, NoTransaction} || w.clients[c].ended
          || (state == Committed && w.clients[c].state == InProgress)
    ensures Inv(SetState(w, c, state)) && (Faithful(SetState(w, c, state)) <==> Faithful(w))
  {
    var v := SetState(w, c, state);
    forall i | 0 <= i < |v.clients|
      ensures ClientFits(v, v.clients[i])
    {
      assert ClientFits(w, w.clients[i]);
    }
  }

  lemma OperationKeeps(w: World, c: nat, now: Conditions, canRetryWrite: bool, built: nat)
    requires Inv(w) && c < |w.clients|
    ensures Inv(DoOperation(w, c, now, canRetryWrite, built))
    ensures Faithful(DoOperation(w, c, now, canRetryWrite, built)) <==> Faithful(w)
  {
    var willRetryWrite := canRetryWrite && !Active(w.clients[c].state);
    if !w.clients[c].ended && (willRetryWrite || built > 0) {
      AcquireKeeps(w, c, now);
      AcquireOwned(w, c, now);
      var v := Acquire(w, c, now);
      if willRetryWrite {
        DrawKeeps(v, c, false);
        ApplyAllKeeps(Draw(v, c, false), c, Retryable(|v.issued|), built);
        ApplyAllFaithful(Draw(v, c, false), c, Retryable(|v.issued|), built);
      } else {
        assert ClientFits(v, v.clients[c]);
        ApplyAllKeeps(v, c, Ordinary, built);
        ApplyAllFaithful(v, c, Ordinary, built);
      }
    }
  }

  /**
   * A repeated commit goes out under a number that was drawn for something else: for a retryable write whose command
   * was not built, or for a transaction whose start was refused.
   */
  predicate OvertakenCommit(w: World, e: Event) {
    && e.Commit? && e.c < |w.clients| && e.built > 0
    && w.clients[e.c].state == Committed && !w.clients[e.c].ended && w.clients[e.c].overtaken
  }

  /** The end of a transaction is sent and its outcome recorded. */
  lemma SentEndKeeps(w: World, c: nat, built: nat, state: TxnState)
    requires Appliable(w, c, EndsTransaction) && (state == Committed || state == Aborted)
    ensures var v := SetState(ApplyAll(w, c, EndsTransaction, built), c, state);
            Inv(v) && (Faithful(v) <==> Faithful(w) && (built > 0 ==> !w.clients[c].overtaken))
  {
    ApplyAllKeeps(w, c, EndsTransaction, built);
    ApplyAllFaithful(w, c, EndsTransaction, built);
    SetStateKeeps(ApplyAll(w, c, EndsTransaction, built), c, state);
  }

  lemma CommitKeeps(w: World, c: nat, now: Conditions, built: nat)
    requires Inv(w) && c < |w.clients|
    ensures Inv(DoCommit(w, c, now, built))
    ensures Faithful(DoCommit(w, c, now, built)) <==> Faithful(w) && !OvertakenCommit(w, Event.Commit(c, now, built))
  {
    AcquireKeeps(w, c, now);
    AcquireOwned(w, c, now);
    var v := Acquire(w, c, now);
    var s := v.clients[c].state;
    if (s == InProgress || s == Committed) && !v.clients[c].ended {
      assert ClientFits(v, v.clients[c]);
      SentEndKeeps(v, c, built, AfterCommit(s));
    } else {
      SetStateKeeps(v, c, AfterCommit(s));
    }
  }

  lemma AbortKeeps(w: World, c: nat, now: Conditions, built: nat)
    requires Inv(w) && c < |w.clients|
    ensures Inv(DoAbort(w, c, now, built)) && (Faithful(DoAbort(w, c, now, built)) <==> Faithful(w))
    ensures DoAbort(w, c, now, built).clients[c].server.Some?
  {
    AcquireKeeps(w, c, now);
    AcquireOwned(w, c, now);
    var v := Acquire(w, c, now);
    var s := v.clients[c].state;
    if s == InProgress && !v.clients[c].ended {
      assert ClientFits(v, v.clients[c]);
      SentEndKeeps(v, c, built, AfterAbort(s));
    } else {
      SetStateKeeps(v, c, AfterAbort(s));
    }
  }

  lemma ReleaseKeeps(w: World, c: nat, now: Conditions, dirty: bool)
    requires Inv(w) && c < |w.clients| && w.clients[c].server.Some?
    ensures Inv(Release(w, c, now, dirty)) && (Faithful(Release(w, c, now, dirty)) <==> Faithful(w))
  {
    ReleaseOwned(w, c, now, dirty);
    var v := Release(w, c, now, dirty);
    forall i | 0 <= i < |v.clients|
      ensures ClientFits(v, v.clients[i])
    {
      assert ClientFits(w, w.clients[i]);
    }
  }

  lemma EndKeeps(w: World, c: nat, now: Conditions, built: nat, dirty: bool)
    requires Inv(w) && c < |w.clients|
    ensures Inv(DoEnd(w, c, now, built, dirty)) && (Faithful(DoEnd(w, c, now, built, dirty)) <==> Faithful(w))
  {
    if !w.clients[c].ended {
      AcquireKeeps(w, c, now);
      AcquireOwned(w, c, now);
      var v := Acquire(w, c, now);
      AbortKeeps(v, c, now, built);
      ReleaseKeeps(if Active(v.clients[c].state) then DoAbort(v, c, now, built) else v, c, now, dirty);
    }
  }

  /** Every step keeps the invariant, and only an overtaken commit breaks faithfulness. */
  lemma StepKeeps(w: World, e: Event)
    requires Inv(w)
    ensures Inv(Step(w, e)) && (Faithful(Step(w, e)) <==> Faithful(w) && !OvertakenCommit(w, e))
  {
    if e.NewSession? {
      var v := Step(w, e);
      assert forall i :: 0 <= i < |w.clients| ==> ClientFits(w, w.clients[i]) && v.clients[i] == w.clients[i];
    } else if e.c < |w.clients| {
      match e
      case Start(c, now, refused) => StartKeeps(w, c, now, refused);
      case Operation(c, now, canRetryWrite, built) => OperationKeeps(w, c, now, canRetryWrite, built);
      case Commit(c, now, built) => CommitKeeps(w, c, now, built);
      case Abort(c, now, built) => AbortKeeps(w, c, now, built);
      case End(c, now, built, dirty) => EndKeeps(w, c, now, built, dirty);
    }
  }

  // ---------------------------------------------------------------- every run

  const EMPTY := World([], [], [], [], [])

  function Run(events: seq<Event>): (w: World)
    ensures Inv(w)
  {
    if events == [] then EMPTY
    else
      StepKeeps(Run(events[..|events| - 1]), events[|events| - 1]);
      Step(Run(events[..|events| - 1]), events[|events| - 1])
  }

  /** Some commit of the run was overtaken. */
  predicate EverOvertaken(events: seq<Event>) {
    events != [] &&
      var n := |events| - 1;
      EverOvertaken(events[..n]) || OvertakenCommit(Run(events[..n]), events[n])
  }

  /** The commands of every transaction carry its number exactly when no commit was ever overtaken. */
  lemma {:induction false} FaithfulUnlessOvertaken(events: seq<Event>)
    ensures Faithful(Run(events)) <==> !EverOvertaken(events)
  {
    if events != [] {
      var n := |events| - 1;
      FaithfulUnlessOvertaken(events[..n]);
      StepKeeps(Run(events[..n]), events[n]);
    }
  }

  /** The tries of one retryable write carry one pair; so do all commands of one transaction. */
  lemma PurposeHasOnePair(events: seq<Event>, i: nat, j: nat)
    requires i < |Run(events).log| && j < |Run(events).log|
    requires Run(events).log[i].purpose == Run(events).log[j].purpose
    requires Run(events).log[i].purpose.Txn? ==> !EverOvertaken(events)
    ensures var a, b := Run(events).log[i], Run(events).log[j];
            !a.purpose.Plain? ==> a.number.Some? && a.lsid == b.lsid && a.number == b.number
  {
    var w := Run(events);
    FaithfulUnlessOvertaken(events);
    assert SentFits(w.issued, w.log[i]) && SentFits(w.issued, w.log[j]);
    if w.log[i].purpose.Txn? {
      assert Carries(w.issued, w.log[i]) && Carries(w.issued, w.log[j]);
    }
  }

  /** Exactly the first command of a transaction asks the server to start it. */
  lemma FirstCommandStarts(events: seq<Event>, k: nat)
    requires k < |Run(events).log|
    ensures var log := Run(events).log;
            log[k].startTransaction
            <==> log[k].purpose.Txn? && forall j :: 0 <= j < k ==> log[j].purpose != log[k].purpose
  {
    var log := Run(events).log;
    assert StartsAt(log, k);
    assert forall j :: 0 <= j < k ==> log[..k][j] == log[j];
  }

  // ---------------------------------------------------------------- operations that reach the server

  /** An operation gets as far as building its command, and a start as far as its new transaction. */
  predicate Reaches(e: Event) {
    (e.Operation? ==> e.built > 0) && (e.Start? ==> !e.refused)
  }

  predicate AllReach(events: seq<Event>) {
    forall i :: 0 <= i < |events| ==> Reaches(events[i])
  }

  /** No number was drawn in vain. */
  ghost predicate NoneOvertaken(w: World) {
    forall i :: 0 <= i < |w.clients| ==> !w.clients[i].overtaken
  }

  lemma SentNotOvertaken(w: World, c: nat, kind: Kind, built: nat, state: TxnState)
    requires Attached(w, c) && NoneOvertaken(w)
    ensures NoneOvertaken(SetState(ApplyAll(w, c, kind, built), c, state))
  {
    ApplyAllState(w, c, kind, built);
  }

  lemma OperationNotOvertaken(w: World, c: nat, now: Conditions, canRetryWrite: bool, built: nat)
    requires Inv(w) && c < |w.clients| && built > 0 && NoneOvertaken(w)
    ensures NoneOvertaken(DoOperation(w, c, now, canRetryWrite, built))
  {
    if !w.clients[c].ended {
      AcquireKeeps(w, c, now);
      AcquireOwned(w, c, now);
      var v := Acquire(w, c, now);
      if canRetryWrite && !Active(w.clients[c].state) {
        ApplyAllState(Draw(v, c, false), c, Retryable(|v.issued|), built);
      } else {
        ApplyAllState(v, c, Ordinary, built);
      }
    }
  }

  lemma EndsNotOvertaken(w: World, c: nat, now: Conditions, built: nat)
    requires Inv(w) && c < |w.clients| && NoneOvertaken(w)
    ensures NoneOvertaken(DoCommit(w, c, now, built)) && NoneOvertaken(DoAbort(w, c, now, built))
  {
    AcquireKeeps(w, c, now);
    AcquireOwned(w, c, now);
    var v := Acquire(w, c, now);
    var s := v.clients[c].state;
    if (s == InProgress || s == Committed) && !v.clients[c].ended {
      SentNotOvertaken(v, c, EndsTransaction, built, AfterCommit(s));
      SentNotOvertaken(v, c, EndsTransaction, built, AfterAbort(s));
    }
  }

  lemma StartNotOvertaken(w: World, c: nat, now: Conditions)
    requires Owned(w) && c < |w.clients| && NoneOvertaken(w)
    ensures NoneOvertaken(DoStart(w, c, now, false))
  {
    AcquireOwned(w, c, now);
  }

  lemma EndNotOvertaken(w: World, c: nat, now: Conditions, built: nat, dirty: bool)
    requires Inv(w) && c < |w.clients| && NoneOvertaken(w)
    ensures NoneOvertaken(DoEnd(w, c, now, built, dirty))
  {
    AcquireKeeps(w, c, now);
    EndsNotOvertaken(Acquire(w, c, now), c, now, built);
  }

  lemma StepNotOvertaken(w: World, e: Event)
    requires Inv(w) && NoneOvertaken(w) && Reaches(e)
    ensures NoneOvertaken(Step(w, e))
  {
    if !e.NewSession? && e.c < |w.clients| {
      match e
      case Start(c, now, _) => StartNotOvertaken(w, c, now);
      case Operation(c, now, canRetryWrite, built) => OperationNotOvertaken(w, c, now, canRetryWrite, built);
      case Commit(c, now, built) => EndsNotOvertaken(w, c, now, built);
      case Abort(c, now, built) => EndsNotOvertaken(w, c, now, built);
      case End(c, now, built, dirty) => EndNotOvertaken(w, c, now, built, dirty);
    }
  }

  /** A run in which every operation builds its command and no start is refused is faithful. */
  lemma {:induction false} ReachingRunsFaithful(events: seq<Event>)
    requires AllReach(events)
    ensures Faithful(Run(events)) && NoneOvertaken(Run(events))
  {
    if events != [] {
      var n := |events| - 1;
      ReachingRunsFaithful(events[..n]);
      StepKeeps(Run(events[..n]), events[n]);
      StepNotOvertaken(Run(events[..n]), events[n]);
    }
  }

  /** A live client session in the given state. */
  predicate At(w: World, c: nat, state: TxnState) {
    c < |w.clients| && !w.clients[c].ended && w.clients[c].state == state
  }

  /** The two events that draw a number in vain: a retryable write that is not built, and a start that is refused. */
  function InVain(c: nat, now: Conditions, byStart: bool): Event {
    if byStart then Event.Start(c, now, true) else Operation(c, now, true, 0)
  }

  /** After either, a repeated commit goes out under the number drawn. */
  lemma OvertakenFollows(w: World, c: nat, now: Conditions, byStart: bool)
    requires Inv(w) && At(w, c, Committed)
    ensures var e, f := InVain(c, now, byStart), Event.Commit(c, now, 1);
            Inv(Step(w, e)) && OvertakenCommit(Step(w, e), f)
  {
    StepKeeps(w, InVain(c, now, byStart));
  }

  lemma StartAt(w: World, c: nat, now: Conditions)
    requires Inv(w) && At(w, c, NoTransaction)
    ensures At(Step(w, Event.Start(c, now, false)), c, Starting)
  {
  }

  lemma CommandAt(w: World, c: nat, now: Conditions)
    requires Inv(w) && At(w, c, Starting)
    ensures At(Step(w, Operation(c, now, false, 1)), c, InProgress)
  {
    AcquireOwned(w, c, now);
    ApplyAllState(Acquire(w, c, now), c, Ordinary, 1);
  }

  lemma CommitAt(w: World, c: nat, now: Conditions)
    requires Inv(w) && At(w, c, InProgress)
    ensures At(Step(w, Event.Commit(c, now, 1)), c, Committed)
  {
    AcquireOwned(w, c, now);
    ApplyAllState(Acquire(w, c, now), c, EndsTransaction, 1);
  }

  lemma RunSnoc(events: seq<Event>, e: Event)
    ensures Run(events + [e]) == Step(Run(events), e)
  {
    assert (events + [e])[..|events|] == events;
  }

  /** From a session without a transaction, a start, a command and a commit lead to a committed transaction. */
  function Committing(now: Conditions): seq<Event> {
    [NewSession] + [Event.Start(0, now, false)] + [Operation(0, now, false, 1)] + [Event.Commit(0, now, 1)]
  }

  lemma StartedAt(now: Conditions)
    ensures At(Run([NewSession] + [Event.Start(0, now, false)]), 0, Starting)
  {
    RunSnoc([], NewSession);
    assert [] + [NewSession] == [NewSession];
    assert At(Step(EMPTY, NewSession), 0, NoTransaction);
    RunSnoc([NewSession], Event.Start(0, now, false));
    StartAt(Run([NewSession]), 0, now);
  }

  lemma CommittedAt(now: Conditions)
    ensures At(Run(Committing(now)), 0, Committed)
  {
    StartedAt(now);
    var events := [NewSession] + [Event.Start(0, now, false)];
    RunSnoc(events, Operation(0, now, false, 1));
    CommandAt(Run(events), 0, now);
    RunSnoc(events + [Operation(0, now, false, 1)], Event.Commit(0, now, 1));
    CommitAt(Run(events + [Operation(0, now, false, 1)]), 0, now);
  }

  /** Two runs in which the commands of a transaction do not all carry its number. */
  lemma OvertakenExample(now: Conditions)
    ensures !Faithful(Run(Committing(now) + [Operation(0, now, true, 0)] + [Event.Commit(0, now, 1)]))
    ensures !Faithful(Run(Committing(now) + [Event.Start(0, now, true)] + [Event.Commit(0, now, 1)]))
  {
    CommittedAt(now);
    OvertakenAfter(Committing(now), 0, now, false);
    OvertakenAfter(Committing(now), 0, now, true);
  }

  lemma OvertakenAfter(events: seq<Event>, c: nat, now: Conditions, byStart: bool)
    requires At(Run(events), c, Committed)
    ensures !Faithful(Run(events + [InVain(c, now, byStart)] + [Event.Commit(c, now, 1)]))
  {
    RunSnoc(events, InVain(c, now, byStart));
    OvertakenFollows(Run(events), c, now, byStart);
    var longer := events + [InVain(c, now, byStart)];
    RunSnoc(longer, Event.Commit(c, now, 1));
    StepKeeps(Run(longer), Event.Commit(c, now, 1));
  }
}
