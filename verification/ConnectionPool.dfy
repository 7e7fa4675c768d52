/**
 * `ConnectionPool` as it updates itself in place (src/cmap/connection_pool.ts). Each method is a run of steps of the
 * protocol, so what is proved of every run of the protocol holds between any calls of these methods.
 */
module ConnectionPools {
  import opened Common
  import opened PoolProtocol
  import opened PoolAnswers

  /** The state after more events. */
  function Steps(p: Pool, events: seq<Event>): Pool {
    if events == [] then p else Step(Steps(p, events[..|events| - 1]), events[|events| - 1])
  }

  lemma StepsSnoc(p: Pool, events: seq<Event>, e: Event)
    ensures Steps(p, events + [e]) == Step(Steps(p, events), e)
  {
    assert (events + [e])[..|events|] == events;
  }

  /** Runs compose, so a sequence of method calls on a new pool is one run of the protocol. */
  lemma {:induction false} RunThen(options: Options, before: seq<Event>, events: seq<Event>)
    ensures Steps(Run(options, before), events) == Run(options, before + events)
  {
    if events == [] {
      assert before + events == before;
    } else {
      var n := |events| - 1;
      RunThen(options, before, events[..n]);
      assert events == events[..n] + [events[n]];
      Associative(before, events[..n], [events[n]]);
      RunOne(options, before + events[..n], events[n]);
    }
  }

  /** The turns of one pass over the wait queue, with the connections found closed or idle. */
  ghost predicate OnePass(trace: seq<Event>, unusable: set<nat>, start: Pool) {
    && trace != [] && trace[0] == ProcessBegin
    && forall i :: 1 <= i < |trace| ==> TurnOf(trace, i, unusable, start)
  }

  ghost predicate TurnOf(trace: seq<Event>, i: nat, unusable: set<nat>, start: Pool)
    requires i < |trace|
  {
    var p := Steps(start, trace[..i]);
    trace[i] == ProcessStep(p.conns.available != [] && p.conns.available[0].id in unusable)
  }

  ghost predicate Closing(trace: seq<Event>) {
    && trace != [] && trace[0] == CloseBegin && trace[|trace| - 1] == CloseFinish
    && forall i :: 0 < i < |trace| - 1 ==> trace[i] == CloseDrain
  }

  class ConnectionPool {
    const options: Options
    var permits: int
    var connectionCounter: nat
    var connections: seq<Conn>
    var connecting: seq<Pending>
    var waitQueue: seq<Waiter>
    var generation: nat
    var processingWaitQueue: bool
    var closed: bool

    /** The callbacks called so far, and the number of check-outs requested. */
    var answers: seq<Answer>
    var requested: nat

    /** Connections in the hands of callers. */
    var lent: seq<Conn>

    /** Where the two loops stand. */
    ghost var inLoop: bool
    ghost var closing: bool

    ghost function View(): Pool
      reads this
    {
      Pool(options, Conns(permits, connectionCounter, connections, connecting, lent),
           Requests(waitQueue, requested, answers),
           generation, processingWaitQueue, inLoop, closing, closed)
    }

    constructor (options: Options)
      requires options.minPoolSize <= options.maxPoolSize
      ensures View() == NewPool(options)
    {
      this.options := options;
      permits, connectionCounter, connections, connecting, lent := options.maxPoolSize, 1, [], [], [];
      waitQueue, requested, answers := [], 0, [];
      generation, processingWaitQueue, inLoop, closing, closed := 0, false, false, false, false;
    }

    method TotalConnectionCount() returns (n: int)
      ensures n == View().TotalConnectionCount()
    {
      n := |connections| + (options.maxPoolSize - permits);
    }

    method CheckOut()
      modifies `waitQueue, `requested, `answers
      ensures View() == Step(old(View()), Event.CheckOut)
    {
      if closed {
        answers := answers + [Answer(requested, PoolClosed)];
        requested := requested + 1;
        return;
      }
      var member := Waiter(requested, false, options.waitQueueTimeout);
      requested := requested + 1;
      waitQueue := waitQueue + [member];
    }

    /** The timer of a member of the queue fires. */
    method TimedOut(at: nat)
      requires at < |waitQueue| && waitQueue[at].timer
      modifies `waitQueue, `answers
      ensures View() == Step(old(View()), Timeout(at))
    {
      var member := waitQueue[at];
      waitQueue := waitQueue[at := member.(cancelled := true, timer := false)];
      answers := answers + [Answer(member.request, Outcome.TimedOut)];
    }

    /** A connection comes back from its caller, once. */
    method CheckIn(connection: Conn, connectionClosed: bool, at: nat)
      requires at < |lent| && lent[at] == connection
      modifies `permits, `connections, `lent
      ensures View() == Step(old(View()), Event.CheckIn(at, connectionClosed))
    {
      var stale := connection.generation != generation;
      var willDestroy := closed || stale || connectionClosed;
      lent := Remove(lent, at);
      if !willDestroy {
        connections := [connection] + connections;
      } else {
        permits := permits + 1;
      }
    }

    method Clear()
      modifies `generation
      ensures View() == Step(old(View()), Event.Clear)
    {
      generation := generation + 1;
    }

    method PopMember()
      requires closing && waitQueue != []
      modifies `waitQueue, `answers
      ensures View() == Step(old(View()), CloseDrain) && |waitQueue| == old(|waitQueue|) - 1
    {
      var n := |waitQueue| - 1;
      var member := waitQueue[n];
      waitQueue := waitQueue[..n];
      if !member.cancelled {
        answers := answers + [Answer(member.request, PoolClosed)];
      }
    }

    /** Who waits is answered, the latest first. */
    method Drain(ghost start: Pool) returns (ghost trace: seq<Event>)
      requires closing && !closed && View() == Steps(start, [CloseBegin])
      modifies `waitQueue, `answers
      ensures waitQueue == [] && View() == Steps(start, trace)
      ensures trace != [] && trace[0] == CloseBegin && forall i :: 0 < i < |trace| ==> trace[i] == CloseDrain
    {
      trace := [CloseBegin];
      while waitQueue != []
        invariant trace != [] && trace[0] == CloseBegin
        invariant forall i :: 0 < i < |trace| ==> trace[i] == CloseDrain
        invariant View() == Steps(start, trace)
        decreases |waitQueue|
      {
        StepsSnoc(start, trace, CloseDrain);
        trace := trace + [CloseDrain];
        PopMember();
      }
    }

    /** Closing answers everyone who waits. */
    method Close() returns (ghost trace: seq<Event>)
      requires !closing
      modifies `waitQueue, `answers, `closing, `closed
      ensures closed && !closing
      ensures old(closed) ==> View() == old(View())
      ensures !old(closed) ==> waitQueue == [] && Closing(trace) && View() == Steps(old(View()), trace)
    {
      trace := [];
      if closed {
        return;
      }
      closing := true;
      StepsSnoc(old(View()), [], CloseBegin);
      trace := Drain(old(View()));
      closing, closed := false, true;
      StepsSnoc(old(View()), trace, CloseFinish);
      trace := trace + [CloseFinish];
    }

    /** The available connections of a closed pool have been destroyed. */
    method ConnectionsDestroyed()
      requires closed
      modifies `connections
      ensures View() == Step(old(View()), DestroyAvailable)
    {
      connections := [];
    }

    method CreateConnection(forWaiter: bool)
      modifies `permits, `connectionCounter, `connecting
      ensures View() == old(View()).(conns := old(View()).conns.Create(generation, forWaiter))
    {
      connecting := connecting + [Pending(Conn(connectionCounter, generation), forWaiter)];
      connectionCounter := connectionCounter + 1;
      permits := permits - 1;
    }

    /** Enough connections are opened to reach the minimum by the pool's own count. */
    method EnsureMinPoolSize()
      modifies `permits, `connectionCounter, `connecting
      ensures View() == Step(old(View()), Event.EnsureMinPoolSize)
    {
      if closed || options.minPoolSize == 0 {
        return;
      }
      var i := TotalConnectionCount();
      ghost var first, made := i, 0;
      while i < options.minPoolSize
        invariant made >= 0 && i == first + made
        invariant made > 0 ==> i <= options.minPoolSize
        invariant View() == old(View()).(conns := old(View()).conns.CreateMany(generation, made))
      {
        CreateConnection(false);
        i := i + 1;
        made := made + 1;
      }
    }

    /** The requests in line, each with the connection that it will get as long as there are any. */
    function ToServe(unusable: set<nat>): seq<Answer>
      reads this
    {
      Matched(Waiting(waitQueue), Fit(connections, generation, unusable))
    }

    /**
     * What a pass leaves: whoever still waits found no connection, and one is being opened for the line, in the present
     * generation, unless the maximum is reached.
     */
    ghost predicate Passed(before: seq<Pending>, counter: nat)
      reads this
    {
      && (waitQueue != [] ==> !waitQueue[0].cancelled && connections == [])
      && (if processingWaitQueue
          then waitQueue != [] && connecting == before + [Pending(Conn(counter, generation), true)]
          else connecting == before && (waitQueue == [] || (options.maxPoolSize > 0 && permits <= 0)))
    }

    /** One turn of the loop over the wait queue. */
    method Turn(unusable: set<nat>)
      requires inLoop && waitQueue != []
      requires waitQueue[0].cancelled || connections != []
      modifies `waitQueue, `connections, `permits, `answers, `lent
      ensures var u := old(connections) != [] && old(connections)[0].id in unusable;
              View() == Step(old(View()), ProcessStep(u))
      ensures |waitQueue| + |connections| < old(|waitQueue| + |connections|)
      ensures answers + ToServe(unusable) == old(answers + ToServe(unusable))
    {
      MatchedStep(waitQueue, connections, generation, unusable);
      if waitQueue[0].cancelled {
        waitQueue := waitQueue[1..];
        return;
      }
      ghost var served := Answer(waitQueue[0].request, Connected(connections[0]));
      ghost var rest := Matched(Waiting(waitQueue[1..]), Fit(connections[1..], generation, unusable));
      Associative(answers, [served], rest);
      Offer(unusable);
      if waitQueue != old(waitQueue) {
        assert answers + ToServe(unusable) == (old(answers) + [served]) + rest;
      }
    }

    /** The first connection is handed to the member at the front, or destroyed if it is stale or cannot be used. */
    method Offer(unusable: set<nat>)
      requires inLoop && waitQueue != [] && !waitQueue[0].cancelled && connections != []
      modifies `waitQueue, `connections, `permits, `answers, `lent
      ensures View() == Step(old(View()), ProcessStep(old(connections)[0].id in unusable))
      ensures connections == old(connections)[1..]
      ensures if old(connections)[0].generation == generation && old(connections)[0].id !in unusable
              then waitQueue == old(waitQueue)[1..]
                   && answers == old(answers) + [Answer(old(waitQueue)[0].request, Connected(old(connections)[0]))]
              else waitQueue == old(waitQueue) && answers == old(answers)
    {
      var member := waitQueue[0];
      var connection := connections[0];
      connections := connections[1..];
      var isStale := connection.generation != generation;
      if !isStale && connection.id !in unusable {
        waitQueue := waitQueue[1..];
        answers := answers + [Answer(member.request, Connected(connection))];
        lent := lent + [connection];
      } else {
        permits := permits + 1;
      }
    }

    /** Waiters are served while connections last. */
    method ServeAll(unusable: set<nat>, ghost start: Pool, ghost begun: seq<Event>) returns (ghost trace: seq<Event>)
      requires inLoop && OnePass(begun, unusable, start) && View() == Steps(start, begun)
      modifies `waitQueue, `connections, `permits, `answers, `lent
      ensures OnePass(trace, unusable, start) && View() == Steps(start, trace)
      ensures answers == old(answers + ToServe(unusable))
      ensures waitQueue != [] ==> !waitQueue[0].cancelled && connections == []
    {
      trace := begun;
      while waitQueue != [] && (waitQueue[0].cancelled || connections != [])
        invariant OnePass(trace, unusable, start) && View() == Steps(start, trace)
        invariant answers + ToServe(unusable) == old(answers + ToServe(unusable))
        decreases |waitQueue| + |connections|
      {
        trace := Recorded(trace, unusable, start);
        Turn(unusable);
      }
      assert ToServe(unusable) == [] && answers + [] == answers;
    }

    /** The loop, and then one connection is opened for whoever still waits. */
    method ProcessWaitQueue(unusable: set<nat>) returns (ghost trace: seq<Event>)
      modifies `waitQueue, `connections, `permits, `answers, `lent, `processingWaitQueue, `inLoop, `connectionCounter,
               `connecting
      requires !inLoop
      ensures !inLoop
      ensures OnePass(trace, unusable, old(View())) && View() == Steps(old(View()), trace)
      ensures !old(closed || processingWaitQueue) ==>
                answers == old(answers + ToServe(unusable)) && Passed(old(connecting), old(connectionCounter))
    {
      ghost var start := View();
      trace := [ProcessBegin];
      StepsSnoc(start, [], ProcessBegin);
      if closed || processingWaitQueue {
        return;
      }
      processingWaitQueue, inLoop := true, true;
      trace := ServeAll(unusable, start, trace);
      trace := Recorded(trace, unusable, start);
      var total := TotalConnectionCount();
      if waitQueue != [] && (options.maxPoolSize <= 0 || total < options.maxPoolSize) {
        inLoop := false;
        CreateConnection(true);
      } else {
        inLoop, processingWaitQueue := false, false;
      }
    }

    /** The next turn, added to the account of the pass. */
    ghost method Recorded(trace: seq<Event>, unusable: set<nat>, start: Pool) returns (longer: seq<Event>)
      requires OnePass(trace, unusable, start) && View() == Steps(start, trace)
      ensures OnePass(longer, unusable, start)
      ensures Steps(start, longer) == Step(View(), ProcessStep(connections != [] && connections[0].id in unusable))
    {
      var e := ProcessStep(connections != [] && connections[0].id in unusable);
      longer := trace + [e];
      StepsSnoc(start, trace, e);
      forall i | 1 <= i < |longer|
        ensures TurnOf(longer, i, unusable, start)
      {
        assert longer[..i] == trace[..i];
        if i < |trace| {
          assert TurnOf(trace, i, unusable, start);
        } else {
          assert longer[..i] == trace;
        }
      }
    }

    /** A connection attempt succeeded. */
    method Established(at: nat)
      requires at < |connecting|
      modifies `connecting, `connections, `waitQueue, `answers, `lent, `processingWaitQueue
      ensures View() == Step(old(View()), Event.Established(at))
    {
      var attempt := connecting[at];
      connecting := Remove(connecting, at);
      if closed {
        return;
      }
      if !attempt.forWaiter {
        connections := connections + [attempt.conn];
        return;
      }
      if waitQueue == [] || waitQueue[0].cancelled {
        waitQueue := if waitQueue == [] then [] else waitQueue[1..];
        connections := connections + [attempt.conn];
        processingWaitQueue := false;
        return;
      }
      answers := answers + [Answer(waitQueue[0].request, Connected(attempt.conn))];
      waitQueue := waitQueue[1..];
      lent := lent + [attempt.conn];
      processingWaitQueue := false;
    }

    /** A connection attempt failed. */
    method NotEstablished(at: nat)
      requires at < |connecting|
      modifies `connecting, `permits, `waitQueue, `answers, `processingWaitQueue
      ensures View() == Step(old(View()), Event.NotEstablished(at))
    {
      var attempt := connecting[at];
      connecting := Remove(connecting, at);
      permits := permits + 1;
      if !attempt.forWaiter {
        return;
      }
      if waitQueue == [] || waitQueue[0].cancelled {
        waitQueue := if waitQueue == [] then [] else waitQueue[1..];
        processingWaitQueue := false;
        return;
      }
      answers := answers + [Answer(waitQueue[0].request, ConnectFailed)];
      waitQueue := waitQueue[1..];
      processingWaitQueue := false;
    }
  }

  /** What happens to a pool from outside: calls, timers and the ends of connection attempts. */
  datatype Call =
    | OnCheckOut
    | OnTimer(at: nat)
    | OnCheckIn(at: nat, connectionClosed: bool)
    | OnClear
    | OnProcess(unusable: set<nat>)
    | OnEstablished(at: nat)
    | OnNotEstablished(at: nat)
    | OnMinPoolSizeTimer
    | OnClose
    | OnDestroyed

  /** The loops are not in progress. */
  ghost predicate Idle(pool: ConnectionPool)
    reads pool
  {
    !pool.inLoop && !pool.closing
  }

  /** The calls that are one step. */
  function StepOf(call: Call): Option<Event> {
    match call
    case OnCheckOut => Some(CheckOut)
    case OnTimer(at) => Some(Timeout(at))
    case OnCheckIn(at, connectionClosed) => Some(CheckIn(at, connectionClosed))
    case OnClear => Some(Clear)
    case OnEstablished(at) => Some(Established(at))
    case OnNotEstablished(at) => Some(NotEstablished(at))
    case OnMinPoolSizeTimer => Some(EnsureMinPoolSize)
    case OnDestroyed => Some(DestroyAvailable)
    case OnProcess(_) => None
    case OnClose => None
  }

  /** One call; what cannot happen in the present state changes nothing. */
  method Handle(pool: ConnectionPool, call: Call, ghost history: seq<Event>) returns (ghost longer: seq<Event>)
    requires Idle(pool) && pool.View() == Run(pool.options, history)
    modifies pool
    ensures Idle(pool) && pool.View() == Run(pool.options, longer) && history <= longer
    ensures StepOf(call).Some? ==> longer == history + [StepOf(call).value]
    ensures call.OnProcess? ==> OnePass(longer[|history|..], call.unusable, old(pool.View()))
    ensures call == OnClose && !old(pool.closed) ==> Closing(longer[|history|..]) && pool.closed
  {
    if call == OnClose {
      if pool.closed {
        return history;
      }
      ghost var trace := pool.Close();
      RunThen(pool.options, history, trace);
      return history + trace;
    }
    if call.OnProcess? {
      ghost var trace := pool.ProcessWaitQueue(call.unusable);
      RunThen(pool.options, history, trace);
      return history + trace;
    }
    HandleStep(pool, call);
    RunOne(pool.options, history, StepOf(call).value);
    return history + [StepOf(call).value];
  }

  method HandleStep(pool: ConnectionPool, call: Call)
    requires StepOf(call).Some? && Idle(pool)
    modifies pool
    ensures Idle(pool) && pool.View() == Step(old(pool.View()), StepOf(call).value)
  {
    match call
    case OnCheckOut => pool.CheckOut();
    case OnTimer(at) => if at < |pool.waitQueue| && pool.waitQueue[at].timer { pool.TimedOut(at); }
    case OnCheckIn(at, connectionClosed) => if at < |pool.lent| { pool.CheckIn(pool.lent[at], connectionClosed, at); }
    case OnClear => pool.Clear();
    case OnEstablished(at) => if at < |pool.connecting| { pool.Established(at); }
    case OnNotEstablished(at) => if at < |pool.connecting| { pool.NotEstablished(at); }
    case OnMinPoolSizeTimer => pool.EnsureMinPoolSize();
    case OnDestroyed => if pool.closed { pool.ConnectionsDestroyed(); }
  }

  /** Any sequence of calls on a new pool keeps the account of connections and answers every check-out as promised. */
  method Operate(options: Options, calls: seq<Call>)
    returns (permits: int, connecting: nat, available: nat, lent: nat, requested: nat, answers: seq<Answer>,
             closed: bool)
    requires options.minPoolSize <= options.maxPoolSize
    ensures !closed ==> options.maxPoolSize == permits + connecting + available + lent
    ensures options.maxPoolSize > 0 ==> permits >= 0 && connecting + available + lent <= options.maxPoolSize
    ensures forall r: nat :: Fires(answers, r) <= 1 && (closed && r < requested ==> Fires(answers, r) == 1)
    ensures forall i, j :: 0 <= i < j < |Served(answers)| ==> Served(answers)[i] < Served(answers)[j]
  {
    var pool := new ConnectionPool(options);
    ghost var history := [];
    for i := 0 to |calls|
      invariant Idle(pool) && fresh(pool) && pool.options == options && pool.View() == Run(options, history)
    {
      history := Handle(pool, calls[i], history);
    }
    permits, connecting, available, lent := pool.permits, |pool.connecting|, |pool.connections|, |pool.lent|;
    requested, answers, closed := pool.requested, pool.answers, pool.closed;
    PoolConserves(options, history);
    forall r: nat
      ensures Fires(answers, r) <= 1 && (closed && r < requested ==> Fires(answers, r) == 1)
    {
      EveryCheckOutAnswered(options, history, r);
    }
    forall i, j | 0 <= i < j < |Served(answers)|
      ensures Served(answers)[i] < Served(answers)[j]
    {
      ServedInOrder(options, history, i, j);
    }
  }
}
