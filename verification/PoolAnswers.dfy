/** Why each check-out is answered as it is, and with which connection (src/cmap/connection_pool.ts). */
module PoolAnswers {
  import opened Common
  import opened PoolProtocol

  // ---------------------------------------------------------------- every answer has its reason

  /** The answer of the member at the front of the line, unless it is cancelled. */
  function ToFront(p: Pool, outcome: Outcome): Option<Answer> {
    if p.requests.FrontWaits() then Some(Answer(p.requests.queue[0].request, outcome)) else None
  }

  /**
   * The one answer that an event gives, if any: a closed pool refuses; a timer cancels its own request; the first
   * available connection goes to the front of the line if it is of the present generation and found usable, and so
   * does a connection, or a failure, of the attempt made for the line; closing answers from the back.
   */
  function Reason(p: Pool, e: Event): Option<Answer> {
    var queue, pending := p.requests.queue, p.conns.pending;
    match e
    case CheckOut => if p.closed then Some(Answer(p.requests.count, PoolClosed)) else None
    case Timeout(at) => if at < |queue| && queue[at].timer then Some(Answer(queue[at].request, TimedOut)) else None
    case ProcessStep(unusable) =>
      if p.inLoop && p.conns.available != [] && p.conns.available[0].generation == p.generation && !unusable
      then ToFront(p, Connected(p.conns.available[0])) else None
    case Established(at) =>
      if at < |pending| && pending[at].forWaiter && !p.closed then ToFront(p, Connected(pending[at].conn)) else None
    case NotEstablished(at) => if at < |pending| && pending[at].forWaiter then ToFront(p, ConnectFailed) else None
    case CloseDrain =>
      if p.closing && queue != [] && !queue[|queue| - 1].cancelled
      then Some(Answer(queue[|queue| - 1].request, PoolClosed)) else None
    case _ => None
  }

  function Given(a: Option<Answer>): seq<Answer> {
    if a.Some? then [a.value] else []
  }

  lemma RequestAnswers(p: Pool, e: Event)
    requires e.CheckOut? || e.Timeout? || e.CloseDrain?
    ensures Step(p, e).requests.answers == p.requests.answers + Given(Reason(p, e))
  {
  }

  lemma ConnectionAnswers(p: Pool, e: Event)
    requires e.ProcessStep? || e.Established? || e.NotEstablished?
    ensures Step(p, e).requests.answers == p.requests.answers + Given(Reason(p, e))
  {
  }

  lemma NoAnswers(p: Pool, e: Event)
    requires e.CheckIn? || e.Clear? || e.ProcessBegin? || e.EnsureMinPoolSize?
          || e.CloseBegin? || e.CloseFinish? || e.DestroyAvailable?
    ensures Step(p, e).requests.answers == p.requests.answers && Reason(p, e) == None
  {
  }

  lemma StepAnswers(p: Pool, e: Event)
    ensures Step(p, e).requests.answers == p.requests.answers + Given(Reason(p, e))
  {
    if e.CheckOut? || e.Timeout? || e.CloseDrain? {
      RequestAnswers(p, e);
    } else if e.ProcessStep? || e.Established? || e.NotEstablished? {
      ConnectionAnswers(p, e);
    } else {
      NoAnswers(p, e);
    }
  }

  /** The answers of a run are those for which its events give reason, in order. */
  function Reasons(options: Options, events: seq<Event>): seq<Answer> {
    if events == [] then [] else
      var n := |events| - 1;
      Reasons(options, events[..n]) + Given(Reason(Run(options, events[..n]), events[n]))
  }

  lemma {:induction false} AnswersHaveReasons(options: Options, events: seq<Event>)
    ensures Run(options, events).requests.answers == Reasons(options, events)
  {
    if events != [] {
      AnswersHaveReasons(options, events[..|events| - 1]);
      StepAnswers(Run(options, events[..|events| - 1]), events[|events| - 1]);
    }
  }

  // ---------------------------------------------------------------- where connections go

  /** A usable connection of the present generation goes back to the front of an open pool; any other is destroyed. */
  lemma CheckInReturns(p: Pool, at: nat, broken: bool)
    requires at < |p.conns.checkedOut|
    ensures var c, d := p.conns, Step(p, CheckIn(at, broken)).conns;
            && d.checkedOut == c.checkedOut[..at] + c.checkedOut[at + 1..]
            && d.pending == c.pending && d.counter == c.counter
            && (if !p.closed && c.checkedOut[at].generation == p.generation && !broken
                then d.available == [c.checkedOut[at]] + c.available && d.permits == c.permits
                else d.available == c.available && d.permits == c.permits + 1)
  {
  }

  /** A new connection goes to whoever waits at the front for it, else to the back of the deque of an open pool. */
  lemma EstablishedGoes(p: Pool, at: nat)
    requires at < |p.conns.pending|
    ensures var c, d := p.conns, Step(p, Established(at)).conns;
            var conn, served := c.pending[at].conn, Reason(p, Established(at)).Some?;
            && d.pending == c.pending[..at] + c.pending[at + 1..] && d.permits == c.permits
            && d.checkedOut == c.checkedOut + (if served then [conn] else [])
            && d.available == c.available + (if served || p.closed then [] else [conn])
  {
  }

  /** Whoever is answered with a connection has it lent, and nobody else has. */
  lemma ServedIsLent(p: Pool, e: Event)
    ensures var c, d, a := p.conns, Step(p, e).conns, Reason(p, e);
            && (a.Some? && a.value.outcome.Connected? ==> d.checkedOut == c.checkedOut + [a.value.outcome.conn])
            && (!e.CheckIn? && !(a.Some? && a.value.outcome.Connected?) ==> d.checkedOut == c.checkedOut)
  {
    if e == EnsureMinPoolSize && p.options.minPoolSize > p.TotalConnectionCount() {
      ManyCreated(p.conns, p.generation, p.options.minPoolSize - p.TotalConnectionCount());
    }
  }

  /** A turn that finds a connection and someone waiting takes the connection; what is not handed out is destroyed. */
  lemma TurnTakes(p: Pool, unusable: bool)
    requires p.inLoop && p.requests.FrontWaits() && p.conns.available != []
    ensures var c, q := p.conns, Step(p, ProcessStep(unusable));
            && q.conns.available == c.available[1..] && q.inLoop
            && (if c.available[0].generation == p.generation && !unusable
                then q.conns.permits == c.permits && q.requests.queue == p.requests.queue[1..]
                else q.conns.permits == c.permits + 1 && q.requests == p.requests)
  {
  }

  /** A check-out on an open pool joins the end of the line, with a timer if there is a timeout. */
  lemma CheckOutWaits(p: Pool)
    requires !p.closed
    ensures var q, r := p.requests, Step(p, CheckOut).requests;
            && r.queue == q.queue + [Waiter(q.count, false, p.options.waitQueueTimeout)]
            && r.count == q.count + 1 && r.answers == q.answers
  {
  }

  /** The connections missing to the minimum, by the pool's own count, are created; never more. */
  lemma MinimumReached(p: Pool)
    requires !p.closed && p.options.minPoolSize > 0
    ensures var q := Step(p, EnsureMinPoolSize);
            var counted := |p.conns.available| + p.options.maxPoolSize - p.conns.permits;
            var missing := if counted < p.options.minPoolSize then p.options.minPoolSize - counted else 0;
            && |q.conns.pending| == |p.conns.pending| + missing && q.conns.permits == p.conns.permits - missing
            && q.conns.available == p.conns.available && q.conns.checkedOut == p.conns.checkedOut
            && q.requests == p.requests
  {
    if p.TotalConnectionCount() < p.options.minPoolSize {
      ManyCreated(p.conns, p.generation, p.options.minPoolSize - p.TotalConnectionCount());
    }
  }

  lemma {:induction false} ManyCreated(c: Conns, generation: nat, count: nat)
    ensures var d := c.CreateMany(generation, count);
            && d.permits == c.permits - count && d.counter == c.counter + count
            && d.available == c.available && d.checkedOut == c.checkedOut
            && |d.pending| == |c.pending| + count && d.pending[..|c.pending|] == c.pending
            && forall i :: |c.pending| <= i < |d.pending| ==>
                 d.pending[i] == Pending(Conn(c.counter + (i - |c.pending|), generation), false)
  {
    if count > 0 {
      ManyCreated(c, generation, count - 1);
    }
  }

  // ---------------------------------------------------------------- stale connections

  ghost predicate UpTo(conns: seq<Conn>, generation: nat) {
    forall i :: 0 <= i < |conns| ==> conns[i].generation <= generation
  }

  ghost predicate PendingUpTo(pending: seq<Pending>, generation: nat) {
    forall i :: 0 <= i < |pending| ==> pending[i].conn.generation <= generation
  }

  /** No connection is of a generation still to come. */
  ghost predicate Dated(p: Pool) {
    && UpTo(p.conns.available, p.generation) && UpTo(p.conns.checkedOut, p.generation)
    && PendingUpTo(p.conns.pending, p.generation)
  }

  lemma RemoveUpTo(conns: seq<Conn>, generation: nat, at: nat)
    requires UpTo(conns, generation) && at < |conns|
    ensures UpTo(Remove(conns, at), generation)
  {
  }

  lemma RemovePendingUpTo(pending: seq<Pending>, generation: nat, at: nat)
    requires PendingUpTo(pending, generation) && at < |pending|
    ensures PendingUpTo(Remove(pending, at), generation)
  {
  }

  lemma DatedConns(p: Pool, e: Event)
    requires Dated(p) && (e.CheckIn? || e.ProcessStep? || e.DestroyAvailable?)
    ensures Dated(Step(p, e))
  {
    if e.CheckIn? && e.at < |p.conns.checkedOut| {
      RemoveUpTo(p.conns.checkedOut, p.generation, e.at);
    }
  }

  lemma DatedAttempts(p: Pool, e: Event)
    requires Dated(p) && (e.Established? || e.NotEstablished?)
    ensures Dated(Step(p, e))
  {
    if e.at < |p.conns.pending| {
      RemovePendingUpTo(p.conns.pending, p.generation, e.at);
    }
  }

  lemma DatedMinimum(p: Pool)
    requires Dated(p)
    ensures Dated(Step(p, EnsureMinPoolSize))
  {
    var missing := p.options.minPoolSize - p.TotalConnectionCount();
    if missing > 0 {
      ManyCreated(p.conns, p.generation, missing);
      var d := p.conns.CreateMany(p.generation, missing);
      assert forall i :: 0 <= i < |p.conns.pending| ==> d.pending[i] == d.pending[..|p.conns.pending|][i];
    }
  }

  lemma DatedStep(p: Pool, e: Event)
    requires Dated(p)
    ensures Dated(Step(p, e))
  {
    match e
    case CheckIn(_, _) => DatedConns(p, e);
    case ProcessStep(_) => DatedConns(p, e);
    case DestroyAvailable => DatedConns(p, e);
    case Established(_) => DatedAttempts(p, e);
    case NotEstablished(_) => DatedAttempts(p, e);
    case EnsureMinPoolSize => DatedMinimum(p);
    case _ =>
  }

  lemma {:induction false} DatedRun(options: Options, events: seq<Event>)
    ensures Dated(Run(options, events))
  {
    if events != [] {
      DatedRun(options, events[..|events| - 1]);
      DatedStep(Run(options, events[..|events| - 1]), events[|events| - 1]);
    }
  }

  /** The connection is of an earlier generation and is not being established, so it can never be handed out. */
  ghost predicate Stale(p: Pool, conn: Conn) {
    && conn.generation < p.generation && conn.id < p.conns.counter
    && NotAmong(p.conns.pending, conn)
  }

  ghost predicate NotAmong(pending: seq<Pending>, conn: Conn) {
    forall i :: 0 <= i < |pending| ==> pending[i].conn != conn
  }

  lemma RemoveNotAmong(pending: seq<Pending>, conn: Conn, at: nat)
    requires NotAmong(pending, conn) && at < |pending|
    ensures NotAmong(Remove(pending, at), conn)
  {
  }

  lemma StaleMinimum(p: Pool, conn: Conn)
    requires Stale(p, conn)
    ensures Stale(Step(p, EnsureMinPoolSize), conn)
  {
    var missing := p.options.minPoolSize - p.TotalConnectionCount();
    if missing > 0 {
      ManyCreated(p.conns, p.generation, missing);
      var d := p.conns.CreateMany(p.generation, missing);
      assert forall i :: 0 <= i < |p.conns.pending| ==> d.pending[i] == d.pending[..|p.conns.pending|][i];
    }
  }

  lemma StaleStep(p: Pool, e: Event, conn: Conn)
    requires Stale(p, conn)
    ensures Stale(Step(p, e), conn)
  {
    match e
    case EnsureMinPoolSize => StaleMinimum(p, conn);
    case ProcessStep(_) => StaleAttempts(p, e, conn);
    case Established(_) => StaleAttempts(p, e, conn);
    case NotEstablished(_) => StaleAttempts(p, e, conn);
    case _ =>
  }

  lemma StaleAttempts(p: Pool, e: Event, conn: Conn)
    requires Stale(p, conn) && (e.ProcessStep? || e.Established? || e.NotEstablished?)
    ensures Stale(Step(p, e), conn)
  {
    if !e.ProcessStep? && e.at < |p.conns.pending| {
      RemoveNotAmong(p.conns.pending, conn, e.at);
    }
  }

  lemma StaleUnserved(p: Pool, e: Event, conn: Conn)
    requires Stale(p, conn)
    ensures Reason(p, e).Some? ==> Reason(p, e).value.outcome != Connected(conn)
  {
  }

  lemma RunLast(options: Options, before: seq<Event>, after: seq<Event>)
    requires after != []
    ensures var n := |after| - 1;
            Run(options, before + after) == Step(Run(options, before + after[..n]), after[n])
  {
    var n := |after| - 1;
    LastApart(before, after);
    RunOne(options, before + after[..n], after[n]);
  }

  lemma LastApart(before: seq<Event>, after: seq<Event>)
    requires after != []
    ensures before + after == (before + after[..|after| - 1]) + [after[|after| - 1]]
  {
  }

  lemma {:induction false} NeverAgain(options: Options, before: seq<Event>, after: seq<Event>, conn: Conn)
    requires Stale(Run(options, before), conn)
    ensures Stale(Run(options, before + after), conn)
    ensures var given, all := Run(options, before).requests.answers, Run(options, before + after).requests.answers;
            |given| <= |all| && forall i :: |given| <= i < |all| ==> all[i].outcome != Connected(conn)
    decreases |after|
  {
    if after == [] {
      assert before + after == before;
    } else {
      var n := |after| - 1;
      NeverAgain(options, before, after[..n], conn);
      RunLast(options, before, after);
      StaleStep(Run(options, before + after[..n]), after[n], conn);
      StaleUnserved(Run(options, before + after[..n]), after[n], conn);
      StepAnswers(Run(options, before + after[..n]), after[n]);
    }
  }

  lemma {:induction false} IdCounted(conns: seq<Conn>, i: nat)
    requires i < |conns|
    ensures Ids(conns)[conns[i].id] >= 1
  {
    if i > 0 {
      IdCounted(conns[1..], i - 1);
    }
  }

  /** After `clear`, no connection that was available or lent by then is ever handed out again. */
  lemma ClearedNeverServed(options: Options, before: seq<Event>, after: seq<Event>, conn: Conn)
    requires options.minPoolSize <= options.maxPoolSize
    requires conn in Run(options, before).conns.available || conn in Run(options, before).conns.checkedOut
    ensures var given, all := Run(options, before + [Clear]).requests.answers,
                              Run(options, before + [Clear] + after).requests.answers;
            |given| <= |all| && forall i :: |given| <= i < |all| ==> all[i].outcome != Connected(conn)
  {
    var p := Run(options, before);
    ConnRun(options, before);
    DatedRun(options, before);
    HeldOnce(p.conns, conn);
    assert (before + [Clear])[..|before|] == before;
    NeverAgain(options, before + [Clear], after, conn);
  }

  lemma HeldOnce(c: Conns, conn: Conn)
    requires Disjoint(c) && (conn in c.available || conn in c.checkedOut)
    ensures conn.id < c.counter && forall i :: 0 <= i < |c.pending| ==> c.pending[i].conn != conn
  {
    if conn in c.available {
      var k :| 0 <= k < |c.available| && c.available[k] == conn;
      IdCounted(c.available, k);
    } else {
      var k :| 0 <= k < |c.checkedOut| && c.checkedOut[k] == conn;
      IdCounted(c.checkedOut, k);
    }
    assert Live(c)[conn.id] >= 1;
    forall i | 0 <= i < |c.pending|
      ensures c.pending[i].conn != conn
    {
      IdCounted(PendingConns(c.pending), i);
      assert Live(c)[c.pending[i].conn.id] <= 1;
    }
  }

  // ---------------------------------------------------------------- a whole pass over the wait queue

  /** The requests that wait, in line. */
  function Waiting(queue: seq<Waiter>): seq<nat> {
    if queue == [] then []
    else (if queue[0].cancelled then [] else [queue[0].request]) + Waiting(queue[1..])
  }

  /** The connections that may be handed out, in the order of the deque. */
  function Fit(conns: seq<Conn>, generation: nat, unusable: set<nat>): seq<Conn> {
    if conns == [] then []
    else (if conns[0].generation == generation && conns[0].id !in unusable then [conns[0]] else [])
         + Fit(conns[1..], generation, unusable)
  }

  /** The first waiting request gets the first connection, and so on while both last. */
  function Matched(waiting: seq<nat>, fit: seq<Conn>): seq<Answer>
    decreases |waiting|
  {
    if waiting == [] || fit == [] then []
    else [Answer(waiting[0], Connected(fit[0]))] + Matched(waiting[1..], fit[1..])
  }

  lemma {:induction false} MatchedInOrder(waiting: seq<nat>, fit: seq<Conn>)
    ensures var all := Matched(waiting, fit);
            && |all| == (if |waiting| <= |fit| then |waiting| else |fit|)
            && forall i :: 0 <= i < |all| ==> all[i] == Answer(waiting[i], Connected(fit[i]))
    decreases |waiting|
  {
    if waiting != [] && fit != [] {
      MatchedInOrder(waiting[1..], fit[1..]);
    }
  }

  /** One turn takes nothing from what is still to be answered: who leaves unanswered would not have been. */
  lemma MatchedStep(queue: seq<Waiter>, conns: seq<Conn>, generation: nat, unusable: set<nat>)
    requires queue != [] && (queue[0].cancelled || conns != [])
    ensures var all := Matched(Waiting(queue), Fit(conns, generation, unusable));
            if queue[0].cancelled then all == Matched(Waiting(queue[1..]), Fit(conns, generation, unusable))
            else if conns[0].generation != generation || conns[0].id in unusable then
              all == Matched(Waiting(queue), Fit(conns[1..], generation, unusable))
            else
              all == [Answer(queue[0].request, Connected(conns[0]))]
                     + Matched(Waiting(queue[1..]), Fit(conns[1..], generation, unusable))
  {
    var rest := Waiting(queue[1..]);
    assert [] + rest == rest && ([queue[0].request] + rest)[1..] == rest;
    if conns != [] {
      var fit := Fit(conns[1..], generation, unusable);
      assert [] + fit == fit && ([conns[0]] + fit)[1..] == fit;
    }
  }
}
