/**
 * The connection pool as a system of steps (src/cmap/connection_pool.ts). User code can run inside the pool's
 * callbacks, so the loop of processWaitQueue and the drain of close are cut into single steps that other steps may come
 * between.
 */
module PoolProtocol {
  import opened Common

  datatype Options = Options(maxPoolSize: nat, minPoolSize: nat, waitQueueTimeout: bool)

  function Remove<T>(s: seq<T>, i: nat): seq<T>
    requires i < |s|
  {
    s[..i] + s[i + 1..]
  }

  // ---------------------------------------------------------------- connections

  datatype Conn = Conn(id: nat, generation: nat)

  /** A connection being established, for the wait queue or for the minimum size. */
  datatype Pending = Pending(conn: Conn, forWaiter: bool)

  /** Where a newly established connection goes. */
  datatype Destination = ToAvailable | ToCaller | ToNobody

  datatype Conns = Conns(permits: int, counter: nat, available: seq<Conn>, pending: seq<Pending>, checkedOut: seq<Conn>)
  {
    /** `createConnection`: a permit is taken before the attempt starts. */
    function Create(generation: nat, forWaiter: bool): Conns {
      this.(permits := permits - 1, counter := counter + 1,
            pending := pending + [Pending(Conn(counter, generation), forWaiter)])
    }

    function CreateMany(generation: nat, count: nat): Conns {
      if count == 0 then this else CreateMany(generation, count - 1).Create(generation, false)
    }

    /** A check-in either returns the connection to the front of the deque or destroys it. */
    function Return(at: nat, keep: bool): Conns
      requires at < |checkedOut|
    {
      if keep then this.(checkedOut := Remove(checkedOut, at), available := [checkedOut[at]] + available)
      else this.(checkedOut := Remove(checkedOut, at), permits := permits + 1)
    }

    /** The first available connection is handed out or, if it cannot be used, destroyed. */
    function TakeFirst(usable: bool): Conns
      requires available != []
    {
      if usable then this.(available := available[1..], checkedOut := checkedOut + [available[0]])
      else this.(available := available[1..], permits := permits + 1)
    }

    function Land(at: nat, destination: Destination): Conns
      requires at < |pending|
    {
      match destination
      case ToAvailable => this.(pending := Remove(pending, at), available := available + [pending[at].conn])
      case ToCaller => this.(pending := Remove(pending, at), checkedOut := checkedOut + [pending[at].conn])
      case ToNobody => this.(pending := Remove(pending, at))
    }

    function Fail(at: nat): Conns
      requires at < |pending|
    {
      this.(pending := Remove(pending, at), permits := permits + 1)
    }

    function Held(): nat {
      |available| + |pending| + |checkedOut|
    }
  }

  // ---------------------------------------------------------------- requests

  /** A check-out in the wait queue; `timer` while its timeout can still fire. */
  datatype Waiter = Waiter(request: nat, cancelled: bool, timer: bool)

  datatype Outcome = Connected(conn: Conn) | ConnectFailed | TimedOut | PoolClosed

  datatype Answer = Answer(request: nat, outcome: Outcome)
  {
    /** Answered by serving the queue, rather than by a timer or by closing. */
    predicate Served() {
      outcome.Connected? || outcome.ConnectFailed?
    }
  }

  datatype Requests = Requests(queue: seq<Waiter>, count: nat, answers: seq<Answer>)
  {
    function Enqueue(timer: bool): Requests {
      this.(queue := queue + [Waiter(count, false, timer)], count := count + 1)
    }

    function Refuse(): Requests {
      this.(count := count + 1, answers := answers + [Answer(count, PoolClosed)])
    }

    /** The timeout of a waiting request; the cancelled member stays in the queue. */
    function TimeOut(at: nat): Requests
      requires at < |queue|
    {
      this.(queue := queue[at := Waiter(queue[at].request, true, false)],
            answers := answers + [Answer(queue[at].request, TimedOut)])
    }

    /** The front member leaves, answered unless it is cancelled. */
    function Shift(outcome: Outcome): Requests
      requires queue != []
    {
      if queue[0].cancelled then this.(queue := queue[1..])
      else this.(queue := queue[1..], answers := answers + [Answer(queue[0].request, outcome)])
    }

    /** The last member leaves when the pool closes. */
    function Pop(): Requests
      requires queue != []
    {
      var last := queue[|queue| - 1];
      if last.cancelled then this.(queue := queue[..|queue| - 1])
      else this.(queue := queue[..|queue| - 1], answers := answers + [Answer(last.request, PoolClosed)])
    }

    /** Somebody at the front can be answered. */
    predicate FrontWaits() {
      queue != [] && !queue[0].cancelled
    }
  }

  // ---------------------------------------------------------------- the pool and its steps

  datatype Pool = Pool(options: Options, conns: Conns, requests: Requests, generation: nat,
                       processing: bool, inLoop: bool, closing: bool, closed: bool)
  {
    /** The count the code goes by, in which available connections appear twice. */
    function TotalConnectionCount(): int {
      |conns.available| + (options.maxPoolSize - conns.permits)
    }

    /** There is room for a connection, by that count; a maximum of 0 is none. */
    predicate MayCreate() {
      options.maxPoolSize == 0 || TotalConnectionCount() < options.maxPoolSize
    }
  }

  function NewPool(options: Options): Pool {
    Pool(options, Conns(options.maxPoolSize, 1, [], [], []), Requests([], 0, []), 0, false, false, false, false)
  }

  datatype Event =
    | CheckOut
    | Timeout(at: nat)
    | CheckIn(at: nat, broken: bool)
    | Clear
    | ProcessBegin
    | ProcessStep(unusable: bool)
    | Established(at: nat)
    | NotEstablished(at: nat)
    | EnsureMinPoolSize
    | CloseBegin
    | CloseDrain
    | CloseFinish
    | DestroyAvailable

  function DoCheckOut(p: Pool): Pool {
    p.(requests := if p.closed then p.requests.Refuse() else p.requests.Enqueue(p.options.waitQueueTimeout))
  }

  function DoTimeout(p: Pool, at: nat): Pool {
    if at < |p.requests.queue| && p.requests.queue[at].timer then p.(requests := p.requests.TimeOut(at)) else p
  }

  function DoCheckIn(p: Pool, at: nat, broken: bool): Pool {
    if at >= |p.conns.checkedOut| then p
    else p.(conns := p.conns.Return(at, !(p.closed || p.conns.checkedOut[at].generation != p.generation || broken)))
  }

  function DoProcessBegin(p: Pool): Pool {
    if p.closed || p.processing then p else p.(processing := true, inLoop := true)
  }

  /** One turn of the loop, or its exit with the decision to create a connection. */
  function DoProcessStep(p: Pool, unusable: bool): Pool {
    if !p.inLoop then p
    else if p.requests.queue != [] && p.requests.queue[0].cancelled then p.(requests := p.requests.Shift(PoolClosed))
    else if p.requests.queue != [] && p.conns.available != [] then
      var conn := p.conns.available[0];
      var usable := conn.generation == p.generation && !unusable;
      p.(conns := p.conns.TakeFirst(usable),
         requests := if usable then p.requests.Shift(Connected(conn)) else p.requests)
    else if p.requests.queue != [] && p.MayCreate() then
      p.(inLoop := false, conns := p.conns.Create(p.generation, true))
    else p.(inLoop := false, processing := false)
  }

  /** A connection attempt that succeeded; a closed pool destroys it and calls nobody. */
  function DoEstablished(p: Pool, at: nat): Pool {
    if at >= |p.conns.pending| then p
    else if p.closed then p.(conns := p.conns.Land(at, ToNobody))
    else if !p.conns.pending[at].forWaiter then p.(conns := p.conns.Land(at, ToAvailable))
    else ServeFront(p.(conns := p.conns.Land(at, if p.requests.FrontWaits() then ToCaller else ToAvailable)),
                    Connected(p.conns.pending[at].conn))
  }

  /** The callback of a creation for the wait queue takes the front member, whoever that is by now. */
  function ServeFront(p: Pool, outcome: Outcome): Pool {
    p.(processing := false, requests := if p.requests.queue == [] then p.requests else p.requests.Shift(outcome))
  }

  function DoNotEstablished(p: Pool, at: nat): Pool {
    if at >= |p.conns.pending| then p
    else if p.conns.pending[at].forWaiter then ServeFront(p.(conns := p.conns.Fail(at)), ConnectFailed)
    else p.(conns := p.conns.Fail(at))
  }

  function DoEnsureMinPoolSize(p: Pool): Pool {
    var missing := p.options.minPoolSize - p.TotalConnectionCount();
    if p.closed || p.options.minPoolSize == 0 || missing <= 0 then p
    else p.(conns := p.conns.CreateMany(p.generation, missing))
  }

  function DoClose(p: Pool, e: Event): Pool {
    match e
    case CloseBegin => if p.closed then p else p.(closing := true)
    case CloseDrain => if p.closing && p.requests.queue != [] then p.(requests := p.requests.Pop()) else p
    case CloseFinish => if p.closing && p.requests.queue == [] then p.(closing := false, closed := true) else p
    case DestroyAvailable => if p.closed then p.(conns := p.conns.(available := [])) else p
    case _ => p
  }

  function Step(p: Pool, e: Event): Pool {
    match e
    case CheckOut => DoCheckOut(p)
    case Timeout(at) => DoTimeout(p, at)
    case CheckIn(at, broken) => DoCheckIn(p, at, broken)
    case Clear => p.(generation := p.generation + 1)
    case ProcessBegin => DoProcessBegin(p)
    case ProcessStep(unusable) => DoProcessStep(p, unusable)
    case Established(at) => DoEstablished(p, at)
    case NotEstablished(at) => DoNotEstablished(p, at)
    case EnsureMinPoolSize => DoEnsureMinPoolSize(p)
    case _ => DoClose(p, e)
  }

  /** The state after any sequence of events. */
  function Run(options: Options, events: seq<Event>): Pool {
    if events == [] then NewPool(options) else Step(Run(options, events[..|events| - 1]), events[|events| - 1])
  }

  lemma RunOne(options: Options, history: seq<Event>, e: Event)
    ensures Run(options, history + [e]) == Step(Run(options, history), e)
  {
    assert (history + [e])[..|history|] == history;
  }

  // ---------------------------------------------------------------- connections: no connection is held twice

  function Ids(conns: seq<Conn>): multiset<nat> {
    if conns == [] then multiset{} else multiset{conns[0].id} + Ids(conns[1..])
  }

  function PendingConns(pending: seq<Pending>): seq<Conn> {
    seq(|pending|, i requires 0 <= i < |pending| => pending[i].conn)
  }

  /** Every connection the pool answers for, each with how often it is held. */
  function Live(c: Conns): multiset<nat> {
    Ids(c.available) + Ids(PendingConns(c.pending)) + Ids(c.checkedOut)
  }

  /** No connection is held twice, and fresh ids are unused. */
  ghost predicate Disjoint(c: Conns) {
    forall id: nat :: Live(c)[id] <= 1 && (id >= c.counter ==> Live(c)[id] == 0)
  }

  lemma {:induction false} IdsAppend(a: seq<Conn>, b: seq<Conn>)
    ensures Ids(a + b) == Ids(a) + Ids(b)
  {
    if a == [] {
      assert a + b == b;
    } else {
      assert (a + b)[1..] == a[1..] + b;
      IdsAppend(a[1..], b);
    }
  }

  lemma IdsSnoc(a: seq<Conn>, c: Conn)
    ensures Ids(a + [c]) == Ids(a) + multiset{c.id} && Ids([c] + a) == Ids(a) + multiset{c.id}
  {
    IdsAppend(a, [c]);
    assert Ids([c]) == multiset{c.id} + Ids([]);
    assert ([c] + a)[1..] == a;
  }

  lemma IdsMiddle(a: seq<Conn>, c: Conn, b: seq<Conn>)
    ensures Ids(a + [c] + b) == Ids(a + b) + multiset{c.id}
  {
    IdsAppend(a + [c], b);
    IdsSnoc(a, c);
    IdsAppend(a, b);
    MoveLast(Ids(a), multiset{c.id}, Ids(b));
  }

  lemma IdsRemove(conns: seq<Conn>, i: nat)
    requires i < |conns|
    ensures Ids(conns) == Ids(Remove(conns, i)) + multiset{conns[i].id}
  {
    IdsMiddle(conns[..i], conns[i], conns[i + 1..]);
    Around(conns, i);
  }

  lemma MoveLast(a: multiset<nat>, x: multiset<nat>, b: multiset<nat>)
    ensures a + x + b == a + b + x
  {
  }

  lemma PendingSnoc(pending: seq<Pending>, x: Pending)
    ensures PendingConns(pending + [x]) == PendingConns(pending) + [x.conn]
  {
  }

  lemma PendingRemove(pending: seq<Pending>, i: nat)
    requires i < |pending|
    ensures PendingConns(Remove(pending, i)) == Remove(PendingConns(pending), i)
  {
  }

  // How the held connections change, as sums of multisets.

  lemma ToFirst(a: multiset<nat>, b: multiset<nat>, c: multiset<nat>, x: multiset<nat>)
    ensures (a + x) + b + c == a + b + (c + x) == a + (b + x) + c && a + b + c <= (a + x) + b + c
  {
  }

  lemma ReturnLive(c: Conns, at: nat, keep: bool)
    requires at < |c.checkedOut|
    ensures Live(c.Return(at, keep)) <= Live(c)
  {
    var conn := c.checkedOut[at];
    IdsRemove(c.checkedOut, at);
    IdsSnoc(c.available, conn);
    ToFirst(Ids(c.available), Ids(PendingConns(c.pending)), Ids(Remove(c.checkedOut, at)), multiset{conn.id});
  }

  lemma TakeFirstLive(c: Conns, usable: bool)
    requires c.available != []
    ensures Live(c.TakeFirst(usable)) <= Live(c)
  {
    var conn := c.available[0];
    HeadTail(c.available);
    IdsSnoc(c.available[1..], conn);
    IdsSnoc(c.checkedOut, conn);
    ToFirst(Ids(c.available[1..]), Ids(PendingConns(c.pending)), Ids(c.checkedOut), multiset{conn.id});
  }

  lemma LandLive(c: Conns, at: nat, destination: Destination)
    requires at < |c.pending|
    ensures Live(c.Land(at, destination)) <= Live(c) && Live(c.Fail(at)) <= Live(c)
  {
    var conn, rest := c.pending[at].conn, PendingConns(Remove(c.pending, at));
    PendingRemove(c.pending, at);
    IdsRemove(PendingConns(c.pending), at);
    IdsSnoc(c.available, conn);
    IdsSnoc(c.checkedOut, conn);
    ToFirst(Ids(c.available), Ids(rest), Ids(c.checkedOut), multiset{conn.id});
  }

  lemma CreateDisjoint(c: Conns, generation: nat, forWaiter: bool)
    requires Disjoint(c)
    ensures Disjoint(c.Create(generation, forWaiter))
  {
    var x := Pending(Conn(c.counter, generation), forWaiter);
    PendingSnoc(c.pending, x);
    IdsSnoc(PendingConns(c.pending), x.conn);
    ToFirst(Ids(c.available), Ids(PendingConns(c.pending)), Ids(c.checkedOut), multiset{c.counter});
    OneMore(c, c.Create(generation, forWaiter));
  }

  lemma OneMore(c: Conns, d: Conns)
    requires Disjoint(c)
    requires Live(d) == (Ids(c.available) + multiset{c.counter}) + Ids(PendingConns(c.pending)) + Ids(c.checkedOut)
    requires d.counter == c.counter + 1
    ensures Disjoint(d)
  {
    forall id: nat
      ensures Live(d)[id] <= 1 && (id >= d.counter ==> Live(d)[id] == 0)
    {
      assert Live(d)[id] == Live(c)[id] + if id == c.counter then 1 else 0;
    }
  }

  lemma DisjointWithin(c: Conns, d: Conns)
    requires Disjoint(c) && Live(d) <= Live(c) && d.counter >= c.counter
    ensures Disjoint(d)
  {
  }

  // ---------------------------------------------------------------- connections: the account of permits

  function ForWaiter(pending: seq<Pending>): nat {
    if pending == [] then 0 else (if pending[0].forWaiter then 1 else 0) + ForWaiter(pending[1..])
  }

  lemma {:induction false} ForWaiterAppend(a: seq<Pending>, b: seq<Pending>)
    ensures ForWaiter(a + b) == ForWaiter(a) + ForWaiter(b)
  {
    if a == [] {
      assert a + b == b;
    } else {
      assert (a + b)[1..] == a[1..] + b;
      ForWaiterAppend(a[1..], b);
    }
  }

  lemma ForWaiterSnoc(a: seq<Pending>, x: Pending)
    ensures ForWaiter(a + [x]) == ForWaiter(a) + if x.forWaiter then 1 else 0
  {
    ForWaiterAppend(a, [x]);
    assert ForWaiter([x]) == (if x.forWaiter then 1 else 0) + ForWaiter([]);
  }

  lemma ForWaiterMiddle(a: seq<Pending>, x: Pending, b: seq<Pending>)
    ensures ForWaiter(a + [x] + b) == ForWaiter(a + b) + if x.forWaiter then 1 else 0
  {
    ForWaiterAppend(a + [x], b);
    ForWaiterSnoc(a, x);
    ForWaiterAppend(a, b);
  }

  lemma ForWaiterRemove(pending: seq<Pending>, i: nat)
    requires i < |pending|
    ensures ForWaiter(pending) == ForWaiter(Remove(pending, i)) + if pending[i].forWaiter then 1 else 0
  {
    var a, x, b := pending[..i], pending[i], pending[i + 1..];
    ForWaiterMiddle(a, x, b);
    assert a + [x] + b == pending;
  }

  /** Permits account for what is held; closing only lets go of connections. */
  ghost predicate Accounted(p: Pool) {
    var sum := p.conns.permits + p.conns.Held();
    && (if p.closed then sum <= p.options.maxPoolSize else sum == p.options.maxPoolSize)
    && (p.options.maxPoolSize > 0 ==> p.conns.permits >= 0)
  }

  /** One creation for the wait queue at a time: while it is under way the queue counts as being processed. */
  ghost predicate Exclusive(p: Pool) {
    var creating := ForWaiter(p.conns.pending);
    creating <= 1 && (p.inLoop ==> p.processing && creating == 0) && (creating == 1 ==> p.processing)
  }

  ghost predicate ConnInv(p: Pool) {
    p.options.minPoolSize <= p.options.maxPoolSize && Disjoint(p.conns) && Accounted(p) && Exclusive(p)
  }

  lemma CreateKeeps(p: Pool)
    requires ConnInv(p) && p.inLoop
    requires p.MayCreate()
    ensures ConnInv(p.(inLoop := false, conns := p.conns.Create(p.generation, true)))
  {
    CreateDisjoint(p.conns, p.generation, true);
    ForWaiterSnoc(p.conns.pending, Pending(Conn(p.conns.counter, p.generation), true));
  }

  lemma {:induction false} CreateManyKeeps(c: Conns, generation: nat, count: nat)
    requires Disjoint(c)
    ensures var d := c.CreateMany(generation, count);
            && Disjoint(d) && d.permits == c.permits - count && d.Held() == c.Held() + count
            && ForWaiter(d.pending) == ForWaiter(c.pending)
  {
    if count > 0 {
      CreateManyKeeps(c, generation, count - 1);
      var d := c.CreateMany(generation, count - 1);
      CreateDisjoint(d, generation, false);
      ForWaiterSnoc(d.pending, Pending(Conn(d.counter, generation), false));
    }
  }

  lemma LandKeeps(p: Pool, at: nat)
    requires ConnInv(p) && at < |p.conns.pending|
    ensures ConnInv(DoEstablished(p, at))
  {
    var d := if p.closed then ToNobody
             else if p.conns.pending[at].forWaiter && p.requests.FrontWaits() then ToCaller else ToAvailable;
    LandLive(p.conns, at, d);
    DisjointWithin(p.conns, p.conns.Land(at, d));
    ForWaiterRemove(p.conns.pending, at);
    assert DoEstablished(p, at).conns == p.conns.Land(at, d);
  }

  lemma FailKeeps(p: Pool, at: nat)
    requires ConnInv(p) && at < |p.conns.pending|
    ensures ConnInv(DoNotEstablished(p, at))
  {
    LandLive(p.conns, at, ToNobody);
    DisjointWithin(p.conns, p.conns.Fail(at));
    ForWaiterRemove(p.conns.pending, at);
  }

  lemma ProcessStepKeeps(p: Pool, unusable: bool)
    requires ConnInv(p) && p.inLoop
    ensures ConnInv(DoProcessStep(p, unusable))
  {
    var queue := p.requests.queue;
    if queue != [] && !queue[0].cancelled {
      if p.conns.available != [] {
        var usable := p.conns.available[0].generation == p.generation && !unusable;
        TakeFirstLive(p.conns, usable);
        DisjointWithin(p.conns, p.conns.TakeFirst(usable));
      } else if p.MayCreate() {
        CreateKeeps(p);
      }
    }
  }

  lemma CheckInKeeps(p: Pool, at: nat, broken: bool)
    requires ConnInv(p) && at < |p.conns.checkedOut|
    ensures ConnInv(DoCheckIn(p, at, broken))
  {
    var keep := !(p.closed || p.conns.checkedOut[at].generation != p.generation || broken);
    ReturnLive(p.conns, at, keep);
    DisjointWithin(p.conns, p.conns.Return(at, keep));
  }

  /** The minimum size is at most the maximum, so there are permits for every connection missing. */
  lemma EnsureMinKeeps(p: Pool)
    requires ConnInv(p)
    ensures ConnInv(DoEnsureMinPoolSize(p))
  {
    var missing := p.options.minPoolSize - p.TotalConnectionCount();
    if !p.closed && p.options.minPoolSize > 0 && missing > 0 {
      CreateManyKeeps(p.conns, p.generation, missing);
    }
  }

  lemma DestroyAvailableKeeps(p: Pool)
    requires ConnInv(p) && p.closed
    ensures ConnInv(p.(conns := p.conns.(available := [])))
  {
    var c := p.conns;
    LessFirst(Ids(c.available), Ids(PendingConns(c.pending)), Ids(c.checkedOut));
    DisjointWithin(c, c.(available := []));
  }

  lemma LessFirst(a: multiset<nat>, b: multiset<nat>, c: multiset<nat>)
    ensures multiset{} + b + c <= a + b + c
  {
  }

  lemma ConnStep(p: Pool, e: Event)
    requires ConnInv(p)
    ensures ConnInv(Step(p, e))
  {
    match e
    case CheckIn(at, broken) => if at < |p.conns.checkedOut| { CheckInKeeps(p, at, broken); }
    case ProcessStep(unusable) => if p.inLoop { ProcessStepKeeps(p, unusable); }
    case Established(at) => if at < |p.conns.pending| { LandKeeps(p, at); }
    case NotEstablished(at) => if at < |p.conns.pending| { FailKeeps(p, at); }
    case EnsureMinPoolSize => EnsureMinKeeps(p);
    case DestroyAvailable => if p.closed { DestroyAvailableKeeps(p); }
    case _ =>
  }

  lemma {:induction false} ConnRun(options: Options, events: seq<Event>)
    requires options.minPoolSize <= options.maxPoolSize
    ensures ConnInv(Run(options, events))
  {
    if events != [] {
      ConnRun(options, events[..|events| - 1]);
      ConnStep(Run(options, events[..|events| - 1]), events[|events| - 1]);
    }
  }

  // ---------------------------------------------------------------- requests: each is answered once

  /** How often the callback of a request has been called. */
  function Fires(answers: seq<Answer>, request: nat): nat {
    if answers == [] then 0
    else Fires(answers[..|answers| - 1], request) + if answers[|answers| - 1].request == request then 1 else 0
  }

  /** How many members of the queue would still answer a request. */
  function Waits(queue: seq<Waiter>, request: nat): nat {
    if queue == [] then 0
    else (if queue[0].request == request && !queue[0].cancelled then 1 else 0) + Waits(queue[1..], request)
  }

  lemma FiresSnoc(answers: seq<Answer>, a: Answer, request: nat)
    ensures Fires(answers + [a], request) == Fires(answers, request) + if a.request == request then 1 else 0
  {
    assert (answers + [a])[..|answers|] == answers;
  }

  lemma {:induction false} WaitsAppend(a: seq<Waiter>, b: seq<Waiter>, request: nat)
    ensures Waits(a + b, request) == Waits(a, request) + Waits(b, request)
  {
    if a == [] {
      assert a + b == b;
    } else {
      assert (a + b)[1..] == a[1..] + b;
      WaitsAppend(a[1..], b, request);
    }
  }

  lemma WaitsMiddle(a: seq<Waiter>, w: Waiter, b: seq<Waiter>, request: nat)
    ensures Waits(a + [w] + b, request)
         == Waits(a, request) + Waits(b, request) + if w.request == request && !w.cancelled then 1 else 0
  {
    WaitsAppend(a + [w], b, request);
    WaitsAppend(a, [w], request);
    assert Waits([w], request) == (if w.request == request && !w.cancelled then 1 else 0) + Waits([], request);
  }

  /** Every request made has either been answered, once, or has one member in the queue that will answer it. */
  ghost predicate OnceEach(q: Requests) {
    forall r: nat :: Fires(q.answers, r) + Waits(q.queue, r) == if r < q.count then 1 else 0
  }

  /** Only a member that still waits has a running timer. */
  ghost predicate TimersWait(queue: seq<Waiter>) {
    forall i :: 0 <= i < |queue| && queue[i].timer ==> !queue[i].cancelled
  }

  lemma EnqueueOnce(q: Requests, timer: bool)
    requires OnceEach(q)
    ensures OnceEach(q.Enqueue(timer)) && OnceEach(q.Refuse())
  {
    forall r: nat
      ensures Waits(q.Enqueue(timer).queue, r) == Waits(q.queue, r) + if r == q.count then 1 else 0
      ensures Fires(q.Refuse().answers, r) == Fires(q.answers, r) + if r == q.count then 1 else 0
    {
      var w := Waiter(q.count, false, timer);
      assert q.queue + [w] + [] == q.queue + [w];
      WaitsMiddle(q.queue, w, [], r);
      FiresSnoc(q.answers, Answer(q.count, PoolClosed), r);
    }
  }

  lemma TimeOutOnce(q: Requests, at: nat)
    requires OnceEach(q) && TimersWait(q.queue) && at < |q.queue| && q.queue[at].timer
    ensures OnceEach(q.TimeOut(at)) && TimersWait(q.TimeOut(at).queue)
  {
    var a, w, b := q.queue[..at], q.queue[at], q.queue[at + 1..];
    var v := Waiter(w.request, true, false);
    assert q.queue == a + [w] + b;
    assert q.queue[at := v] == a + [v] + b;
    forall r: nat
      ensures Waits(q.TimeOut(at).queue, r) + Fires(q.TimeOut(at).answers, r) == Waits(q.queue, r) + Fires(q.answers, r)
    {
      WaitsMiddle(a, w, b, r);
      WaitsMiddle(a, v, b, r);
      FiresSnoc(q.answers, Answer(w.request, TimedOut), r);
    }
  }

  lemma ShiftOnce(q: Requests, outcome: Outcome)
    requires OnceEach(q) && q.queue != []
    ensures OnceEach(q.Shift(outcome))
  {
    forall r: nat
      ensures Waits(q.Shift(outcome).queue, r) + Fires(q.Shift(outcome).answers, r)
           == Waits(q.queue, r) + Fires(q.answers, r)
    {
      FiresSnoc(q.answers, Answer(q.queue[0].request, outcome), r);
    }
  }

  lemma PopOnce(q: Requests)
    requires OnceEach(q) && q.queue != []
    ensures OnceEach(q.Pop())
  {
    var a, w := q.queue[..|q.queue| - 1], q.queue[|q.queue| - 1];
    assert q.queue == a + [w] + [];
    forall r: nat
      ensures Waits(q.Pop().queue, r) + Fires(q.Pop().answers, r) == Waits(q.queue, r) + Fires(q.answers, r)
    {
      WaitsMiddle(a, w, [], r);
      FiresSnoc(q.answers, Answer(w.request, PoolClosed), r);
    }
  }

  // ---------------------------------------------------------------- requests: served in arrival order

  /** The requests answered by serving the queue, in the order they were answered. */
  function Served(answers: seq<Answer>): seq<nat> {
    if answers == [] then []
    else
      var last := answers[|answers| - 1];
      Served(answers[..|answers| - 1]) + if last.Served() then [last.request] else []
  }

  function Queued(queue: seq<Waiter>): seq<nat> {
    seq(|queue|, i requires 0 <= i < |queue| => queue[i].request)
  }

  ghost predicate Increasing(s: seq<nat>) {
    forall i, j :: 0 <= i < j < |s| ==> s[i] < s[j]
  }

  ghost predicate OrderedBelow(s: seq<nat>, bound: nat) {
    Increasing(s) && forall i :: 0 <= i < |s| ==> s[i] < bound
  }

  /** Who was served, then who waits: in the order of arrival. */
  ghost predicate InLine(q: Requests) {
    OrderedBelow(Served(q.answers) + Queued(q.queue), q.count)
  }

  lemma ServedSnoc(answers: seq<Answer>, a: Answer)
    ensures Served(answers + [a]) == Served(answers) + if a.Served() then [a.request] else []
  {
    assert (answers + [a])[..|answers|] == answers;
  }

  /** An answer given outside the queue's service leaves the served requests as they were. */
  lemma UnservedSnoc(answers: seq<Answer>, a: Answer)
    requires !a.Served()
    ensures Served(answers + [a]) == Served(answers)
  {
    ServedSnoc(answers, a);
  }

  lemma Joins(s: seq<nat>, t: seq<nat>, n: nat)
    requires OrderedBelow(s + t, n)
    ensures OrderedBelow(s + (t + [n]), n + 1) && OrderedBelow(s + t, n + 1)
  {
    Associative(s, t, [n]);
  }

  /** Dropping one member leaves the others in line. */
  lemma DropOne(a: seq<nat>, x: nat, b: seq<nat>, bound: nat)
    requires OrderedBelow(a + [x] + b, bound)
    ensures OrderedBelow(a + b, bound)
  {
    var s, t := a + b, a + [x] + b;
    forall i, j | 0 <= i <= j < |s|
      ensures s[j] < bound && (i < j ==> s[i] < s[j])
    {
      var k, l := if i < |a| then i else i + 1, if j < |a| then j else j + 1;
      assert s[i] == t[k] && s[j] == t[l];
    }
  }

  lemma EnqueueInLine(q: Requests, timer: bool)
    requires InLine(q)
    ensures InLine(q.Enqueue(timer)) && InLine(q.Refuse())
  {
    assert Queued(q.queue + [Waiter(q.count, false, timer)]) == Queued(q.queue) + [q.count];
    Joins(Served(q.answers), Queued(q.queue), q.count);
    UnservedSnoc(q.answers, Answer(q.count, PoolClosed));
  }

  lemma TimeOutInLine(q: Requests, at: nat)
    requires InLine(q) && at < |q.queue|
    ensures InLine(q.TimeOut(at))
  {
    assert Queued(q.TimeOut(at).queue) == Queued(q.queue);
    UnservedSnoc(q.answers, Answer(q.queue[at].request, TimedOut));
  }

  lemma ShiftInLine(q: Requests, outcome: Outcome)
    requires InLine(q) && q.queue != []
    requires q.queue[0].cancelled || Answer(0, outcome).Served()
    ensures InLine(q.Shift(outcome))
  {
    var served, x, rest := Served(q.answers), q.queue[0].request, Queued(q.queue[1..]);
    assert Queued(q.queue) == [x] + rest;
    Associative(served, [x], rest);
    if q.queue[0].cancelled {
      DropOne(served, x, rest, q.count);
    } else {
      ServedSnoc(q.answers, Answer(x, outcome));
    }
  }

  lemma PopInLine(q: Requests)
    requires InLine(q) && q.queue != []
    ensures InLine(q.Pop())
  {
    var n := |q.queue| - 1;
    var served, rest, x := Served(q.answers), Queued(q.queue[..n]), q.queue[n].request;
    assert Queued(q.queue) == rest + [x];
    Leaves(served, rest, x, q.count);
    UnservedSnoc(q.answers, Answer(x, PoolClosed));
  }

  lemma Leaves(s: seq<nat>, t: seq<nat>, x: nat, bound: nat)
    requires OrderedBelow(s + (t + [x]), bound)
    ensures OrderedBelow(s + t, bound)
  {
    Associative(s, t, [x]);
    assert (s + t) + [x] + [] == (s + t) + [x];
    DropOne(s + t, x, [], bound);
    assert (s + t) + [] == s + t;
  }

  ghost predicate RequestInv(p: Pool) {
    OnceEach(p.requests) && InLine(p.requests) && TimersWait(p.requests.queue) && (p.closed ==> p.requests.queue == [])
  }

  lemma ShiftKeeps(p: Pool, outcome: Outcome)
    requires RequestInv(p) && p.requests.queue != []
    requires p.requests.queue[0].cancelled || Answer(0, outcome).Served()
    ensures RequestInv(p.(requests := p.requests.Shift(outcome)))
  {
    ShiftOnce(p.requests, outcome);
    ShiftInLine(p.requests, outcome);
  }

  lemma ServeFrontKeeps(p: Pool, outcome: Outcome)
    requires RequestInv(p) && Answer(0, outcome).Served()
    ensures RequestInv(ServeFront(p, outcome))
  {
    if p.requests.queue != [] {
      ShiftKeeps(p, outcome);
    }
  }

  lemma CheckOutKeeps(p: Pool)
    requires RequestInv(p)
    ensures RequestInv(DoCheckOut(p))
  {
    EnqueueOnce(p.requests, p.options.waitQueueTimeout);
    EnqueueInLine(p.requests, p.options.waitQueueTimeout);
  }

  lemma CloseDrainKeeps(p: Pool)
    requires RequestInv(p) && p.requests.queue != []
    ensures RequestInv(p.(requests := p.requests.Pop()))
  {
    PopOnce(p.requests);
    PopInLine(p.requests);
  }

  /** Only the requests and being closed matter. */
  lemma SameRequests(p: Pool, q: Pool)
    requires RequestInv(p) && q.requests == p.requests && q.closed == p.closed
    ensures RequestInv(q)
  {
  }

  lemma ProcessStepAnswers(p: Pool, unusable: bool)
    requires RequestInv(p)
    ensures RequestInv(DoProcessStep(p, unusable))
  {
    var q := DoProcessStep(p, unusable);
    if q.requests == p.requests {
      SameRequests(p, q);
    } else {
      var outcome := if p.requests.queue[0].cancelled then PoolClosed else Connected(p.conns.available[0]);
      ShiftKeeps(p, outcome);
      SameRequests(p.(requests := p.requests.Shift(outcome)), q);
    }
  }

  lemma TimeoutKeeps(p: Pool, at: nat)
    requires RequestInv(p)
    ensures RequestInv(DoTimeout(p, at))
  {
    if at < |p.requests.queue| && p.requests.queue[at].timer {
      TimeOutOnce(p.requests, at);
      TimeOutInLine(p.requests, at);
    }
  }

  lemma EstablishedAnswers(p: Pool, at: nat)
    requires RequestInv(p)
    ensures RequestInv(DoEstablished(p, at))
  {
    if at < |p.conns.pending| {
      ServeFrontKeeps(p, Connected(p.conns.pending[at].conn));
    }
  }

  lemma NotEstablishedAnswers(p: Pool, at: nat)
    requires RequestInv(p)
    ensures RequestInv(DoNotEstablished(p, at))
  {
    ServeFrontKeeps(p, ConnectFailed);
  }

  lemma CloseAnswers(p: Pool, e: Event)
    requires RequestInv(p)
    ensures RequestInv(DoClose(p, e))
  {
    if e.CloseDrain? && p.requests.queue != [] {
      CloseDrainKeeps(p);
    }
  }

  lemma RequestStep(p: Pool, e: Event)
    requires RequestInv(p)
    ensures RequestInv(Step(p, e))
  {
    match e
    case CheckOut => CheckOutKeeps(p);
    case Timeout(at) => TimeoutKeeps(p, at);
    case ProcessStep(unusable) => ProcessStepAnswers(p, unusable);
    case Established(at) => EstablishedAnswers(p, at);
    case NotEstablished(at) => NotEstablishedAnswers(p, at);
    case CheckIn(_, _) =>
    case Clear =>
    case ProcessBegin =>
    case EnsureMinPoolSize =>
    case _ => CloseAnswers(p, e);
  }

  lemma {:induction false} RequestRun(options: Options, events: seq<Event>)
    ensures RequestInv(Run(options, events))
  {
    if events != [] {
      RequestRun(options, events[..|events| - 1]);
      RequestStep(Run(options, events[..|events| - 1]), events[|events| - 1]);
    } else {
      assert Served([]) + Queued([]) == [];
    }
  }

  // ---------------------------------------------------------------- what holds in every reachable state

  /** In every reachable open state the permits and the connections held add up to the maximum. */
  lemma PoolConserves(options: Options, events: seq<Event>)
    requires options.minPoolSize <= options.maxPoolSize
    ensures var p := Run(options, events);
            && (!p.closed ==>
                  var c := p.conns;
                  options.maxPoolSize == c.permits + |c.pending| + |c.available| + |c.checkedOut|)
            && (options.maxPoolSize > 0 ==> p.conns.permits >= 0 && p.conns.Held() <= options.maxPoolSize)
            && ForWaiter(p.conns.pending) <= 1
            && forall id: nat :: Live(p.conns)[id] <= 1
  {
    ConnRun(options, events);
    RunOptions(options, events);
  }

  lemma {:induction false} RunOptions(options: Options, events: seq<Event>)
    ensures Run(options, events).options == options
  {
    if events != [] {
      RunOptions(options, events[..|events| - 1]);
      StepOptions(Run(options, events[..|events| - 1]), events[|events| - 1]);
    }
  }

  lemma StepOptions(p: Pool, e: Event)
    ensures Step(p, e).options == p.options
  {
  }

  /** No callback is called twice; once the pool is closed every callback has been called. */
  lemma EveryCheckOutAnswered(options: Options, events: seq<Event>, request: nat)
    ensures var p := Run(options, events);
            && Fires(p.requests.answers, request) <= 1
            && (Fires(p.requests.answers, request) == 1 ==> request < p.requests.count)
            && (p.closed && request < p.requests.count ==> Fires(p.requests.answers, request) == 1)
  {
    RequestRun(options, events);
  }

  /** Two requests served by the pool are served in the order they arrived. */
  lemma ServedInOrder(options: Options, events: seq<Event>, i: nat, j: nat)
    requires i < j < |Served(Run(options, events).requests.answers)|
    ensures var served := Served(Run(options, events).requests.answers);
            served[i] < served[j]
  {
    RequestRun(options, events);
    var q := Run(options, events).requests;
    var line := Served(q.answers) + Queued(q.queue);
    assert line[i] < line[j];
  }
}
