/**
 * Change streams read with `next` and `hasNext` (src/change_stream.ts), against a server whose changes form a log. A
 * place in the log is the number of events before it; the resume token of event i is the place after it, i + 1.
 */
module ChangeStreams {
  import opened Common

  /** For every event of the log, whether the pipeline of the stream lets it through. */
  type Log = seq<bool>

  /** The events let through between two places. */
  function Matches(log: Log, first: nat, end: nat): seq<nat>
    requires first <= end <= |log|
    decreases end
  {
    if first == end then [] else Matches(log, first, end - 1) + if log[end - 1] then [end - 1] else []
  }

  lemma {:induction false} MatchesSplit(log: Log, a: nat, b: nat, c: nat)
    requires a <= b <= c <= |log|
    ensures Matches(log, a, c) == Matches(log, a, b) + Matches(log, b, c)
    decreases c
  {
    if b < c {
      MatchesSplit(log, a, b, c - 1);
      Associative(Matches(log, a, b), Matches(log, b, c - 1), if log[c - 1] then [c - 1] else []);
    }
  }

  lemma TailOfSum<T>(a: seq<T>, b: seq<T>)
    requires a != []
    ensures (a + b)[1..] == a[1..] + b && (a + b)[0] == a[0]
  {
  }

  /** The first match ends the stretch before the others. */
  lemma {:induction false} MatchesHead(log: Log, a: nat, b: nat)
    requires a <= b <= |log| && Matches(log, a, b) != []
    ensures var all := Matches(log, a, b);
            a <= all[0] < b && Matches(log, a, all[0] + 1) == [all[0]] && Matches(log, all[0] + 1, b) == all[1..]
    decreases b
  {
    var all, init := Matches(log, a, b), Matches(log, a, b - 1);
    if init != [] {
      MatchesHead(log, a, b - 1);
      TailOfSum(init, if log[b - 1] then [b - 1] else []);
    } else {
      assert all == [b - 1];
      assert Matches(log, b, b) == [];
    }
  }

  function Min(a: nat, b: nat): nat {
    if a <= b then a else b
  }

  /**
   * An answer to an aggregate or a getMore; a batch covers the next events of the log and names the place after them.
   */
  datatype Reply = Batch(now: nat, length: nat) | ResumableError | OtherError

  datatype Options = Options(resumeAfter: Option<nat>, startAfter: Option<nat>, startAtOperationTime: Option<nat>)
  {
    /** The token a cursor starts with. */
    function Token(): Option<nat> {
      if startAfter.Some? then startAfter else resumeAfter
    }

    /** The place from which the server is asked to report. */
    function Start(): Option<nat> {
      if Token().Some? then Token() else startAtOperationTime
    }

    predicate Within(log: Log) {
      && (resumeAfter.Some? ==> resumeAfter.value <= |log|)
      && (startAfter.Some? ==> startAfter.value <= |log|)
      && (startAtOperationTime.Some? ==> startAtOperationTime.value <= |log|)
    }
  }

  /** How a read of the cursor ends; it waits when the server has no answer yet. */
  datatype Outcome = Change(index: nat) | NoChange | Failed(resumable: bool) | Waiting

  datatype Answer = Delivered(index: nat) | More(more: bool) | StreamError | Pending

  datatype Call = CallNext | CallHasNext

  predicate Batches(replies: seq<Reply>) {
    forall i :: 0 <= i < |replies| ==> replies[i].Batch?
  }

  // ---------------------------------------------------------------- what the server's answers come to

  /**
   * How far the answers have brought a stream: it opens a cursor, from a token or a time or else from the end of the
   * log; it reads from a place; or it has ended, with everything up to a place reported. It is `shaken` from a failure
   * on until something is found, and a failure in between ends it.
   */
  datatype Progress =
    | Opening(token: Option<nat>, time: Option<nat>, shaken: bool)
    | Reading(place: nat, shaken: bool)
    | Lost(reached: Option<nat>)
  {
    function Place(): Option<nat> {
      match this
      case Opening(token, time, _) => if token.Some? then token else time
      case Reading(place, _) => Some(place)
      case Lost(reached) => reached
    }

    predicate Within(log: Log) {
      match this
      case Opening(token, time, _) =>
        (token.Some? ==> token.value <= |log|) && (time.Some? ==> time.value <= |log|)
      case Reading(place, _) => place <= |log|
      case Lost(reached) => reached.Some? ==> reached.value <= |log|
    }

    /** The place can only move on from here. */
    predicate Anchored() {
      Place().Some? && (Opening? ==> token.Some?)
    }
  }

  /** One answer: a failure asks for a new cursor at the token, and drops a start that is known by its time alone. */
  function Hear(log: Log, p: Progress, reply: Reply): (q: Progress)
    requires p.Within(log)
    ensures q.Within(log)
  {
    if p.Lost? then p
    else
      match reply
      case Batch(now, length) =>
        var first := if p.Place().Some? then p.Place().value else Min(now, |log|);
        var place := Min(first + length, |log|);
        Reading(place, p.shaken && Matches(log, first, place) == [])
      case ResumableError =>
        if p.shaken then Lost(p.Place())
        else Opening(if p.Opening? then p.token else Some(p.place), None, true)
      case OtherError => Lost(p.Place())
  }

  function Course(log: Log, p: Progress, replies: seq<Reply>): (q: Progress)
    requires p.Within(log)
    ensures q.Within(log)
    decreases |replies|
  {
    if replies == [] then p else Course(log, Hear(log, p, replies[0]), replies[1..])
  }

  /** How far the answers bring a new stream that is asked to begin as the options say. */
  function Asked(log: Log, options: Options, replies: seq<Reply>): Progress
    requires options.Within(log)
  {
    Course(log, Opening(options.Token(), options.startAtOperationTime, false), replies)
  }

  lemma {:induction false} LostStays(log: Log, p: Progress, replies: seq<Reply>)
    requires p.Within(log) && p.Lost?
    ensures Course(log, p, replies) == p
    decreases |replies|
  {
    if replies != [] {
      LostStays(log, p, replies[1..]);
    }
  }

  lemma {:induction false} CourseMovesOn(log: Log, p: Progress, replies: seq<Reply>)
    requires p.Within(log) && p.Anchored()
    ensures var q := Course(log, p, replies); q.Place().Some? && p.Place().value <= q.Place().value <= |log|
    decreases |replies|
  {
    if replies != [] {
      CourseMovesOn(log, Hear(log, p, replies[0]), replies[1..]);
    }
  }

  /** The two agree on whether the stream has ended and on how far it gets. */
  predicate Alike(p: Progress, q: Progress) {
    p.Lost? == q.Lost? && p.Place() == q.Place()
  }

  /** Everything let through from the beginning of a stream up to where its answers bring it. */
  function Everything(log: Log, origin: Option<nat>, place: Option<nat>): seq<nat> {
    if origin.Some? && place.Some? && origin.value <= place.value <= |log|
    then Matches(log, origin.value, place.value) else []
  }

  lemma EverythingGrows(log: Log, origin: Option<nat>, place: Option<nat>, later: Option<nat>)
    requires place.Some? && later.Some? && place.value <= later.value <= |log|
    ensures Everything(log, origin, place) <= Everything(log, origin, later)
  {
    if origin.Some? && origin.value <= place.value {
      MatchesSplit(log, origin.value, place.value, later.value);
    }
  }

  // ---------------------------------------------------------------- where a stream begins

  /** The place at which the aggregate opens the cursor. */
  function OpenedAt(log: Log, options: Options, now: nat): nat {
    if options.Start().Some? then options.Start().value else Min(now, |log|)
  }

  /** Where a cursor opened without a start begins: at the end of the log as it is then. */
  function OpensAnew(log: Log, replies: seq<Reply>): Option<nat> {
    if replies != [] && replies[0].Batch? then Some(Min(replies[0].now, |log|)) else None
  }

  /** Where a stream without a token begins, by the first answer it gets; `resumes` when the call asking is a `next`. */
  function OriginAfter(log: Log, start: Option<nat>, replies: seq<Reply>, resumes: bool): Option<nat>
    requires replies != []
  {
    match replies[0]
    case Batch(_, _) => if start.Some? then start else OpensAnew(log, replies)
    case OtherError => start
    case ResumableError => if resumes then OpensAnew(log, replies[1..]) else start
  }

  /** Where a stream begins. */
  function Began(log: Log, options: Options, replies: seq<Reply>, calls: seq<Call>): Option<nat> {
    if options.Token().Some? || replies == [] || calls == [] then options.Start()
    else OriginAfter(log, options.Start(), replies, calls[0] == CallNext)
  }

  /** The stream's start is known by its time alone, and the first `next` fails before a server is known. */
  predicate StartDropped(options: Options, replies: seq<Reply>, calls: seq<Call>) {
    && options.Token().None? && options.startAtOperationTime.Some?
    && calls != [] && calls[0] == CallNext && replies != [] && replies[0] == ResumableError
  }

  lemma BeginsAsAsked(log: Log, options: Options, replies: seq<Reply>, calls: seq<Call>)
    requires options.Start().Some?
    ensures Began(log, options, replies, calls) == options.Start() <==>
              !(StartDropped(options, replies, calls) && OpensAnew(log, replies[1..]) != options.Start())
  {
  }

  /** Everything let through between the beginning of the stream and a place, and nothing more, was delivered. */
  ghost predicate Reaches(log: Log, origin: Option<nat>, delivered: seq<nat>, place: Option<nat>) {
    if place.None? then origin.None? && delivered == []
    else origin.Some? && origin.value <= place.value <= |log| && delivered == Matches(log, origin.value, place.value)
  }

  class ChangeStreamCursor {
    const log: Log
    const options: Options
    var documents: seq<nat>
    var hasId: bool
    var closed: bool
    var killed: bool
    var resumeToken: Option<nat>
    var startAtOperationTime: Option<nat>
    var hasReceived: bool

    /** The server of the cursor, whose version is asked, is known once the aggregate has succeeded. */
    var serverKnown: bool
    var postBatchResumeToken: Option<nat>

    /** Where the cursor on the server stands. */
    var serverPlace: nat

    /** Where the stream began. */
    var origin: Option<nat>

    /** What the stream has delivered. */
    ghost var delivered: seq<nat>

    /** The place the stream would resume from. */
    function Place(): Option<nat>
      reads this
    {
      if resumeToken.Some? then resumeToken else startAtOperationTime
    }

    /** What was delivered reaches exactly to the place of resumption; what is buffered goes on from there. */
    ghost predicate Valid()
      reads this
    {
      && options.Within(log)
      && (closed ==> !hasId) && (options.Token().Some? ==> resumeToken.Some?)
      && (killed ==> hasId && documents == [])
      && serverKnown == hasId
      && (hasId ==> Place().Some? && postBatchResumeToken == Some(serverPlace))
      && (hasId && documents == [] ==> resumeToken == Some(serverPlace)) && (resumeToken.None? ==> delivered == [])
      && (!hasId ==> documents == [] && Place() == options.Start() && resumeToken == options.Token())
      && Reaches(log, origin, delivered, Place())
      && (hasId ==> Place().value <= serverPlace <= |log| && documents == Matches(log, Place().value, serverPlace))
    }

    /** The cursor has failed and can only fail: it was closed before it opened, or killed. */
    predicate Broken()
      reads this
    {
      closed || killed
    }

    /** How far the answers have brought the cursor; `shaken` for a cursor that was opened after a failure. */
    ghost function Stage(shaken: bool): Progress
      reads this
    {
      if hasId then Reading(serverPlace, shaken && documents == [])
      else Opening(options.Token(), options.startAtOperationTime, shaken)
    }

    /** What the answers still to come will bring. */
    ghost function Ahead(replies: seq<Reply>, shaken: bool): Progress
      requires Valid()
      reads this
    {
      Course(log, Stage(shaken), replies)
    }

    /** The same behind a read with the given outcome; after a failure it is up to a new cursor. */
    ghost function Outlook(r: Outcome, rest: seq<Reply>, shaken: bool): Progress
      requires Valid()
      reads this
    {
      if !r.Failed? then Ahead(rest, shaken)
      else if r.resumable && !shaken then Course(log, Opening(resumeToken, None, true), rest)
      else Lost(Place())
    }

    constructor (log: Log, options: Options, origin: Option<nat>, ghost delivered: seq<nat>)
      requires options.Within(log)
      requires Reaches(log, origin, delivered, options.Start()) && (options.Token().None? ==> delivered == [])
      ensures Valid() && this.log == log && this.options == options && !hasId && !closed && !killed && !hasReceived
      ensures this.origin == origin && this.delivered == delivered
    {
      this.log, this.options := log, options;
      documents, hasId, closed, killed, hasReceived, serverKnown := [], false, false, false, false, false;
      serverPlace := 0;
      resumeToken := if options.startAfter.Some? then options.startAfter else options.resumeAfter;
      startAtOperationTime := options.startAtOperationTime;
      postBatchResumeToken := None;
      this.origin, this.delivered := origin, delivered;
    }

    /** `_processBatch` */
    method ProcessBatch(token: nat, empty: bool)
      modifies `postBatchResumeToken, `resumeToken
      ensures postBatchResumeToken == Some(token)
      ensures resumeToken == if empty then Some(token) else old(resumeToken)
    {
      postBatchResumeToken := Some(token);
      if empty {
        resumeToken := Some(token);
      }
    }

    /** `cacheResumeToken`, for a change that has just left the buffer. */
    method CacheResumeToken(token: nat)
      modifies `resumeToken, `hasReceived
      ensures hasReceived
      ensures resumeToken == if documents == [] && postBatchResumeToken.Some? then postBatchResumeToken else Some(token)
    {
      if documents == [] && postBatchResumeToken.Some? {
        resumeToken := postBatchResumeToken;
      } else {
        resumeToken := Some(token);
      }
      hasReceived := true;
    }

    /** The aggregate that opens the cursor, at the place asked for or else at the current end of the log. */
    method Initialize(now: nat, length: nat)
      requires Valid() && !hasId && !closed
      modifies `documents, `hasId, `serverKnown, `serverPlace, `startAtOperationTime, `postBatchResumeToken,
               `resumeToken, `origin
      ensures Valid() && hasId && (old(resumeToken).Some? ==> resumeToken.Some?)
      ensures origin == if old(origin).Some? then old(origin) else Some(Min(now, |log|))
      ensures serverPlace == Min(OpenedAt(log, options, now) + length, |log|)
      ensures documents == Matches(log, OpenedAt(log, options, now), serverPlace)
    {
      var current := Min(now, |log|);
      var first := OpenedAt(log, options, now);
      serverPlace := Min(first + length, |log|);
      documents := Matches(log, first, serverPlace);
      if startAtOperationTime.None? {
        startAtOperationTime := Some(current);
      }
      origin := if origin.None? then Some(first) else origin;
      ProcessBatch(serverPlace, documents == []);
      hasId, serverKnown := true, true;
      MatchesSplit(log, origin.value, first, serverPlace);
    }

    /** A getMore that succeeds. */
    method GetMore(length: nat)
      requires Valid() && hasId && documents == [] && !killed
      modifies `documents, `serverPlace, `postBatchResumeToken, `resumeToken
      ensures Valid() && (old(resumeToken).Some? ==> resumeToken.Some?)
      ensures serverPlace == Min(old(serverPlace) + length, |log|)
      ensures documents == Matches(log, old(serverPlace), serverPlace)
    {
      var first := serverPlace;
      serverPlace := Min(first + length, |log|);
      documents := Matches(log, first, serverPlace);
      MatchesSplit(log, Place().value, first, serverPlace);
      MatchesSplit(log, origin.value, Place().value, serverPlace);
      ProcessBatch(serverPlace, documents == []);
    }

    /** The first answer opened the cursor. */
    ghost predicate OpenedBy(before: Option<nat>, replies: seq<Reply>)
      reads this
    {
      replies != [] && replies[0].Batch? && hasId && origin == if before.Some? then before else OpensAnew(log, replies)
    }

    /**
     * What became of a cursor that was perhaps not open: it is open, or it failed to open, or it waits or was closed.
     */
    ghost predicate Started(wasOpen: bool, wasClosed: bool, before: Option<nat>, replies: seq<Reply>, r: Outcome,
                            rest: seq<Reply>)
      reads this
    {
      if wasOpen then hasId && origin == before
      else if wasClosed then closed && origin == before && r == NoChange && rest == replies
      else if replies == [] then !hasId && !closed && origin == before && r == Waiting
      else if replies[0].Batch? then OpenedBy(before, replies)
      else closed && origin == before && r == Failed(replies[0].ResumableError?) && rest == replies[1..]
    }

    /** What a failure comes to when nothing is buffered. */
    lemma HearsFailure(replies: seq<Reply>, shaken: bool)
      requires Valid() && documents == [] && replies != []
      ensures !replies[0].Batch? ==>
                Ahead(replies, shaken) == Outlook(Failed(replies[0].ResumableError?), replies[1..], shaken)
    {
      if !replies[0].Batch? && (!replies[0].ResumableError? || shaken) {
        LostStays(log, Lost(Place()), replies[1..]);
      }
    }

    /**
     * One getMore on an open cursor with an empty buffer; no outcome yet if it succeeds. A cursor that failed is killed
     * and the session it owns ended, so a further getMore fails for good.
     */
    method FetchOne(replies: seq<Reply>, ghost shaken: bool) returns (r: Outcome, rest: seq<Reply>)
      requires Valid() && hasId && documents == []
      modifies `documents, `serverPlace, `postBatchResumeToken, `resumeToken, `killed
      ensures Valid() && resumeToken.Some?
      ensures if killed then r.Failed? else r == NoChange || r == Waiting
      ensures old(killed) ==> r == Failed(false)
      ensures r == Waiting ==> replies == []
      ensures r == NoChange ==> replies != [] && rest == replies[1..]
      ensures r != NoChange ==> documents == []
      ensures !old(killed) && r.Failed? ==> replies != [] && !replies[0].Batch? && rest == replies[1..]
      ensures r == Waiting || old(killed) ==> rest == replies
      ensures !old(killed) ==> Outlook(r, rest, shaken) == old(Ahead(replies, shaken))
    {
      rest := replies;
      if killed {
        return Failed(false), rest;
      }
      if rest == [] {
        return Waiting, rest;
      }
      HearsFailure(rest, shaken);
      var reply := rest[0];
      rest := rest[1..];
      if !reply.Batch? {
        killed := true;
        return Failed(reply.ResumableError?), rest;
      }
      GetMore(reply.length);
      r := NoChange;
    }

    /** On an open cursor, getMores until there is a change. */
    method FetchMore(replies: seq<Reply>, ghost shaken: bool) returns (r: Outcome, rest: seq<Reply>)
      requires Valid() && hasId
      modifies `documents, `serverPlace, `postBatchResumeToken, `resumeToken, `killed
      ensures Valid() && (old(resumeToken).Some? ==> resumeToken.Some?) && |rest| <= |replies| && r != NoChange
      ensures if r.Change? then documents != [] && documents[0] == r.index else documents == []
      ensures r == Waiting ==> rest == []
      ensures old(Broken()) ==> r == Failed(false)
      ensures r.Failed? <==> Broken()
      ensures r.Failed? && !old(Broken()) ==> !Batches(replies)
      ensures old(documents) == [] && replies == [] ==> !r.Change?
      ensures !old(Broken()) ==> Outlook(r, rest, shaken) == old(Ahead(replies, shaken))
    {
      rest := replies;
      ghost var heard := 0;
      while documents == []
        invariant Valid() && killed == old(killed) && (old(resumeToken).Some? ==> resumeToken.Some?)
        invariant heard + |rest| == |replies| && rest == replies[heard..]
        invariant heard == 0 ==> documents == old(documents)
        invariant !killed ==> Ahead(rest, shaken) == old(Ahead(replies, shaken))
        decreases |rest|
      {
        assert rest != [] ==> rest[0] == replies[heard];
        r, rest := FetchOne(rest, shaken);
        if r != NoChange {
          return;
        }
        heard := heard + 1;
      }
      return Change(documents[0]), rest;
    }

    /** One change from the cursor, which is opened first if it has to be. */
    method Advance(replies: seq<Reply>, ghost shaken: bool) returns (r: Outcome, rest: seq<Reply>)
      requires Valid()
      modifies `documents, `hasId, `serverKnown, `serverPlace, `startAtOperationTime, `postBatchResumeToken,
               `resumeToken, `origin, `closed, `killed
      ensures Valid() && |rest| <= |replies| && (old(!hasId && !closed) && r != Waiting ==> |rest| < |replies|)
      ensures if r.Change? then hasId && documents != [] && documents[0] == r.index else documents == []
      ensures r == Waiting ==> rest == []
      ensures r == NoChange ==> old(closed)
      ensures old(Broken()) ==> r == NoChange || r == Failed(false)
      ensures Broken() <==> r.Failed? || r == NoChange
      ensures r.Failed? && !old(Broken()) ==> !Batches(replies)
      ensures old(documents) == [] && replies == [] ==> !r.Change?
      ensures Started(old(hasId), old(closed), old(origin), replies, r, rest)
      ensures old(resumeToken).Some? ==> resumeToken.Some?
      ensures !old(Broken()) ==> Outlook(r, rest, shaken) == old(Ahead(replies, shaken))
    {
      rest := replies;
      if closed {
        return NoChange, rest;
      }
      if !hasId {
        if rest == [] {
          return Waiting, rest;
        }
        var reply := rest[0];
        HearsFailure(rest, shaken);
        rest := rest[1..];
        if !reply.Batch? {
          closed := true;
          return Failed(reply.ResumableError?), rest;
        }
        Initialize(reply.now, reply.length);
      }
      r, rest := FetchMore(rest, shaken);
    }

    /** The change leaves the buffer and the place of resumption follows it. */
    method Deliver() returns (index: nat)
      requires Valid() && hasId && documents != []
      modifies `documents, `resumeToken, `hasReceived, `delivered
      ensures Valid() && hasReceived && index == old(documents)[0] && delivered == old(delivered) + [index]
    {
      index := documents[0];
      ghost var place := Place().value;
      MatchesHead(log, place, serverPlace);
      documents := documents[1..];
      CacheResumeToken(index + 1);
      delivered := delivered + [index];
      MatchesSplit(log, origin.value, place, Place().value);
    }

    /** A change found ahead is put back in front of the buffer. */
    method HasNext(replies: seq<Reply>, ghost shaken: bool) returns (r: Outcome, rest: seq<Reply>)
      requires Valid()
      modifies this
      ensures Valid() && delivered == old(delivered) && (old(origin).Some? ==> origin == old(origin))
      ensures |rest| <= |replies| && (old(!hasId && !closed) && r != Waiting ==> |rest| < |replies|)
      ensures r.Change? <==> documents != []
      ensures r == Waiting ==> rest == []
      ensures r == NoChange <==> old(closed)
      ensures old(Broken()) ==> r == NoChange || r == Failed(false)
      ensures old(documents) == [] && replies == [] ==> !r.Change?
      ensures Broken() <==> r.Failed? || r == NoChange
      ensures r.Failed? && !old(Broken()) ==> !Batches(replies)
      ensures Started(old(hasId), old(closed), old(origin), replies, r, rest)
      ensures old(resumeToken).Some? ==> resumeToken.Some?
      ensures !old(Broken()) ==> Outlook(r, rest, shaken) == old(Ahead(replies, shaken))
    {
      if closed {
        return NoChange, replies;
      }
      if documents != [] {
        return Change(documents[0]), replies;
      }
      r, rest := Advance(replies, shaken);
      if r.Change? {
        var doc := documents[0];
        documents := documents[1..];
        documents := [doc] + documents;
      }
    }

    /**
     * `resumeOptions`: the token if there is one, under the user's `startAfter` until a change has been received; else
     * the start time, which is dropped while the server is not known, since its version then counts as 0.
     */
    method ResumeOptions() returns (o: Options)
      requires Valid()
      ensures o.Within(log)
      ensures o.Token() == resumeToken
      ensures o.startAtOperationTime == if resumeToken.None? && serverKnown then startAtOperationTime else None
      ensures o.startAfter.Some? <==> options.startAfter.Some? && !hasReceived
    {
      o := options;
      if resumeToken.Some? || startAtOperationTime.Some? {
        o := Options(None, None, None);
        if resumeToken.Some? {
          if options.startAfter.Some? && !hasReceived {
            o := o.(startAfter := resumeToken);
          } else {
            o := o.(resumeAfter := resumeToken);
          }
        } else if serverKnown {
          o := o.(startAtOperationTime := startAtOperationTime);
        }
      }
    }
  }

  class ChangeStream {
    const log: Log
    var cursor: ChangeStreamCursor
    var closed: bool

    /** What the server will answer. */
    var replies: seq<Reply>

    ghost predicate Valid()
      reads this, cursor
    {
      cursor.Valid() && cursor.log == log
    }

    /** Nothing has gone wrong for good. */
    ghost predicate Alive()
      reads this, cursor
    {
      !closed && !cursor.Broken()
    }

    /** What the answers still to come will bring. */
    ghost function Ahead(): Progress
      requires Valid()
      reads this, cursor
    {
      cursor.Ahead(replies, false)
    }

    /** There is nothing to deliver, and nothing will come. */
    ghost predicate Drained()
      reads this, cursor
    {
      Alive() && replies == [] && cursor.documents == []
    }

    /**
     * What an answer of `next` means for a stream that was to get as far as `before`: a delivery leaves it as it was;
     * the stream waits only when all answers are used up, and ends only where they end it.
     */
    ghost predicate Keeps(before: Progress, r: Answer)
      requires Valid()
      reads this, cursor
    {
      match r
      case Delivered(_) => Alive() && Ahead() == before
      case Pending => Drained() && !before.Lost? && Alike(Ahead(), before)
      case StreamError => closed && before == Lost(cursor.Place())
      case More(_) => false
    }

    /** The place where the stream begins can no longer change. */
    ghost predicate Settled()
      reads this, cursor
    {
      closed || cursor.closed || cursor.hasId || cursor.resumeToken.Some? || replies == []
    }

    constructor (log: Log, options: Options, replies: seq<Reply>)
      requires options.Within(log)
      ensures this.replies == replies && (Settled() <==> options.Token().Some? || replies == [])
      ensures Valid() && fresh(cursor) && cursor.delivered == [] && cursor.origin == options.Start() && this.log == log
      ensures Alive() && Ahead() == Asked(log, options, replies)
    {
      this.log, closed := log, false;
      this.replies := replies;
      cursor := new ChangeStreamCursor(log, options, options.Start(), []);
    }

    /** A new cursor takes up where the old one, which has failed, would resume. */
    method Resume() returns (r: Outcome)
      requires Valid() && !closed && cursor.documents == []
      modifies this`cursor, this`closed, this`replies
      ensures Valid() && Settled() && fresh(cursor) && |replies| <= old(|replies|)
      ensures cursor.delivered == old(cursor.delivered)
      ensures cursor.origin ==
                if old(cursor.resumeToken).Some? then old(cursor.origin) else OpensAnew(log, old(replies))
      ensures r.Change? ==> |replies| < old(|replies|)
      ensures r != NoChange
      ensures var before := Course(log, Opening(old(cursor.resumeToken), None, true), old(replies));
              match r
              case Change(_) => Alive() && Ahead() == before
              case Waiting => Drained() && !before.Lost? && Alike(Ahead(), before)
              case _ => closed && before == Lost(cursor.Place())
    {
      var options := cursor.ResumeOptions();
      var origin := if options.Start().Some? then cursor.origin else None;
      var newCursor := new ChangeStreamCursor(log, options, origin, cursor.delivered);
      assert newCursor.Stage(true) == Opening(cursor.resumeToken, None, true);
      r, replies := newCursor.HasNext(replies, true);
      if r.Failed? {
        closed := true;
      }
      cursor := newCursor;
    }

    /** One read of the cursor; a change is delivered. */
    method Read() returns (got: Outcome)
      requires Valid() && !closed
      modifies this`replies, cursor
      ensures Valid() && |replies| <= old(|replies|)
      ensures cursor.delivered == old(cursor.delivered) + if got.Change? then [got.index] else []
      ensures !got.Change? ==> cursor.documents == []
      ensures cursor.Started(old(cursor.hasId), old(cursor.closed), old(cursor.origin), old(replies), got, replies)
      ensures old(cursor.resumeToken).Some? ==> cursor.resumeToken.Some?
      ensures got == Waiting ==> replies == []
      ensures old(cursor.Broken()) ==> got == NoChange || got == Failed(false)
      ensures old(Drained()) ==> got == Waiting
      ensures old(Alive()) ==> got != NoChange && cursor.Outlook(got, replies, false) == old(Ahead())
      ensures old(Alive()) && !got.Failed? ==> Alive()
    {
      got, replies := cursor.Advance(replies, false);
      if got.Change? {
        var _ := cursor.Deliver();
      }
    }

    /** `next` */
    method Next() returns (r: Answer)
      requires Valid()
      modifies this, cursor
      ensures Valid() && (cursor == old(cursor) || fresh(cursor))
      ensures cursor.delivered == old(cursor.delivered) + if r.Delivered? then [r.index] else []
      ensures Settled()
      ensures cursor.origin ==
                if old(Settled()) then old(cursor.origin) else OriginAfter(log, old(cursor.origin), old(replies), true)
      ensures r.Delivered? || r == StreamError || r == Pending
      ensures old(!Alive()) ==> r == StreamError && closed
      ensures old(Alive()) ==> Keeps(old(Ahead()), r)
      ensures old(Drained()) ==> r == Pending
      ensures old(closed) ==> unchanged(this) && unchanged(cursor)
      decreases |replies|, 1
    {
      if closed {
        return StreamError;
      }
      var got := Read();
      match got
      case Change(index) => r := Delivered(index);
      case Waiting => r := Pending;
      case NoChange =>
        closed := true;
        r := StreamError;
      case Failed(resumable) => r := ProcessError(resumable);
    }

    /** `processError`: after a resumable error the call is made again on the new cursor. */
    method ProcessError(resumable: bool) returns (r: Answer)
      requires Valid() && !closed && cursor.documents == []
      modifies this, cursor
      ensures Valid() && (cursor == old(cursor) || fresh(cursor))
      ensures cursor.delivered == old(cursor.delivered) + if r.Delivered? then [r.index] else []
      ensures Settled()
      ensures cursor.origin ==
                if old(cursor.resumeToken).Some? || !resumable then old(cursor.origin) else OpensAnew(log, old(replies))
      ensures r.Delivered? || r == StreamError || r == Pending
      ensures !resumable ==> r == StreamError && closed
      ensures Keeps(if resumable then Course(log, Opening(old(cursor.resumeToken), None, true), old(replies))
                    else Lost(old(cursor.Place())),
                    r)
      decreases |replies|, 0
    {
      if !resumable {
        closed := true;
        return StreamError;
      }
      var resumed := Resume();
      if resumed.Change? {
        r := Next();
      } else if resumed == Waiting {
        r := Pending;
      } else {
        closed := true;
        r := StreamError;
      }
    }

    /** `hasNext`: an error goes to the caller and is not resumed from; the next `next` closes the stream. */
    method HasNext() returns (r: Answer)
      requires Valid()
      modifies this`replies, cursor
      ensures Valid() && cursor.delivered == old(cursor.delivered)
      ensures old(!Alive()) ==> !Alive() && (r == StreamError || r == More(false))
      ensures old(Alive()) ==> r != More(false) && (Alive() <==> r != StreamError)
      ensures old(closed) ==> r == StreamError
      ensures r == More(true) ==> cursor.documents != []
      ensures r == Pending ==> Drained()
      ensures old(Drained()) ==> r == Pending
      ensures old(Alive()) && r != StreamError ==> Ahead() == old(Ahead())
      ensures old(Alive()) && r == StreamError ==> !Batches(old(replies))
      ensures r.More? || r == StreamError || r == Pending
      ensures Settled()
      ensures cursor.origin ==
                if old(Settled()) then old(cursor.origin) else OriginAfter(log, old(cursor.origin), old(replies), false)
    {
      if closed {
        return StreamError;
      }
      var got;
      got, replies := cursor.HasNext(replies, false);
      match got
      case Change(_) => return More(true);
      case NoChange => return More(false);
      case Waiting => return Pending;
      case Failed(_) => return StreamError;
    }
  }

  // ---------------------------------------------------------------- any calls

  function Nexts(calls: seq<Call>): nat {
    if calls == [] then 0
    else Nexts(calls[..|calls| - 1]) + if calls[|calls| - 1] == CallNext then 1 else 0
  }

  /** One of the first calls was a `hasNext` that answered with an error. */
  predicate HasNextFailed(calls: seq<Call>, answers: seq<Answer>, k: nat)
    requires k <= |calls| && k <= |answers|
  {
    exists i :: 0 <= i < k && calls[i] == CallHasNext && answers[i] == StreamError
  }

  /** What the `next` with number `n` answers: a change as long as there is one. */
  function Due(all: seq<nat>, n: nat, lost: bool): Answer {
    if n < |all| then Delivered(all[n]) else if lost then StreamError else Pending
  }

  /** `n` times `next` was called, and no `hasNext` has failed. */
  ghost predicate OnCourse(stream: ChangeStream, course: Progress, n: nat)
    requires stream.Valid()
    reads stream, stream.cursor
  {
    var count := |stream.cursor.delivered|;
    if stream.Alive() then Alike(stream.Ahead(), course) && (count == n || (count < n && stream.Drained()))
    else stream.closed && course == Lost(stream.cursor.Place()) && count < n
  }

  /** What was delivered is a beginning of everything there is; all of it, once the stream waits or has ended. */
  lemma DeliveredSoFar(stream: ChangeStream, course: Progress, n: nat)
    requires stream.Valid() && OnCourse(stream, course, n)
    ensures stream.cursor.delivered <= Everything(stream.log, stream.cursor.origin, course.Place())
    ensures stream.Drained() || !stream.Alive() ==>
              stream.cursor.delivered == Everything(stream.log, stream.cursor.origin, course.Place())
  {
    var c := stream.cursor;
    assert c.delivered == Everything(stream.log, c.origin, c.Place());
    if stream.Alive() && !stream.Drained() && c.resumeToken.Some? {
      CourseMovesOn(c.log, c.Stage(false), stream.replies);
      EverythingGrows(c.log, c.origin, c.Place(), course.Place());
    }
  }

  /** The stream is on course, or a `hasNext` has failed and left it unusable. */
  ghost predicate Stands(stream: ChangeStream, course: Progress, n: nat, failed: bool)
    requires stream.Valid()
    reads stream, stream.cursor
  {
    if failed then !stream.Alive() else OnCourse(stream, course, n)
  }

  method TakeNext(stream: ChangeStream, ghost course: Progress, ghost n: nat, ghost failed: bool) returns (r: Answer)
    requires stream.Valid() && Stands(stream, course, n, failed)
    modifies stream, stream.cursor
    ensures stream.Valid() && (stream.cursor == old(stream.cursor) || fresh(stream.cursor))
    ensures Stands(stream, course, n + 1, failed)
    ensures var all := Everything(stream.log, stream.cursor.origin, course.Place());
            if failed then r == StreamError else r == Due(all, n, course.Lost?) && stream.cursor.delivered <= all
    ensures stream.cursor.delivered == old(stream.cursor.delivered) + if r.Delivered? then [r.index] else []
    ensures stream.Settled()
    ensures stream.cursor.origin ==
              if old(stream.Settled()) then old(stream.cursor.origin)
              else OriginAfter(stream.log, old(stream.cursor.origin), old(stream.replies), true)
  {
    r := stream.Next();
    if !failed {
      DeliveredSoFar(stream, course, n + 1);
    }
  }

  method TakeHasNext(stream: ChangeStream, ghost course: Progress, ghost n: nat, ghost failed: bool)
    returns (r: Answer)
    requires stream.Valid() && Stands(stream, course, n, failed)
    modifies stream`replies, stream.cursor
    ensures stream.Valid() && stream.cursor.delivered == old(stream.cursor.delivered)
    ensures Stands(stream, course, n, failed || r == StreamError)
    ensures failed ==> r == StreamError || r == More(false)
    ensures var all := Everything(stream.log, stream.cursor.origin, course.Place());
            !failed && r != StreamError ==>
              r == (if n < |all| then More(true) else Pending) && stream.cursor.delivered <= all
    ensures stream.Settled() && !r.Delivered?
    ensures stream.cursor.origin ==
              if old(stream.Settled()) then old(stream.cursor.origin)
              else OriginAfter(stream.log, old(stream.cursor.origin), old(stream.replies), false)
  {
    r := stream.HasNext();
    if !failed && r != StreamError {
      DeliveredSoFar(stream, course, n);
      if r.More? {
        OneAhead(stream, course);
      }
    }
  }

  /** A change in the buffer is one that is still to be delivered. */
  lemma OneAhead(stream: ChangeStream, course: Progress)
    requires stream.Valid() && stream.Alive() && stream.cursor.documents != [] && Alike(stream.Ahead(), course)
    ensures |stream.cursor.delivered| < |Everything(stream.log, stream.cursor.origin, course.Place())|
  {
    var c := stream.cursor;
    MatchesSplit(c.log, c.origin.value, c.Place().value, c.serverPlace);
    CourseMovesOn(c.log, c.Stage(false), stream.replies);
    EverythingGrows(c.log, c.origin, Some(c.serverPlace), course.Place());
    assert Everything(c.log, c.origin, Some(c.serverPlace)) == c.delivered + c.documents;
  }

  /** What call `k` answers, when `all` is everything there is to deliver. */
  ghost predicate Right(calls: seq<Call>, answers: seq<Answer>, k: nat, all: seq<nat>, lost: bool)
    requires k < |calls| && k < |answers|
  {
    var n := Nexts(calls[..k]);
    if calls[k] == CallNext then
      answers[k] == if HasNextFailed(calls, answers, k) then StreamError else Due(all, n, lost)
    else if HasNextFailed(calls, answers, k) then answers[k] == StreamError || answers[k] == More(false)
    else answers[k] == StreamError || answers[k] == (if n < |all| then More(true) else Pending)
  }

  ghost predicate AllRight(calls: seq<Call>, answers: seq<Answer>, all: seq<nat>, lost: bool)
    requires |answers| <= |calls|
  {
    forall k :: 0 <= k < |answers| ==> Right(calls, answers, k, all, lost)
  }

  lemma RightStays(calls: seq<Call>, answers: seq<Answer>, r: Answer, all: seq<nat>, lost: bool)
    requires |answers| < |calls| && AllRight(calls, answers, all, lost)
    requires Right(calls, answers + [r], |answers|, all, lost)
    ensures AllRight(calls, answers + [r], all, lost)
  {
    FailedSnoc(calls, answers, r);
    forall k | 0 <= k < |answers|
      ensures Right(calls, answers + [r], k, all, lost)
    {
      assert Right(calls, answers, k, all, lost);
    }
  }

  /** Where the calls so far have led: off course exactly after a `hasNext` that has failed. */
  ghost predicate Led(stream: ChangeStream, calls: seq<Call>, answers: seq<Answer>, course: Progress)
    requires stream.Valid() && |answers| <= |calls|
    reads stream, stream.cursor
  {
    && Stands(stream, course, Nexts(calls[..|answers|]), HasNextFailed(calls, answers, |answers|))
    && stream.cursor.delivered <= Everything(stream.log, stream.cursor.origin, course.Place())
  }

  method Take(stream: ChangeStream, calls: seq<Call>, ghost answers: seq<Answer>, call: Call, ghost course: Progress)
    returns (r: Answer)
    requires stream.Valid() && |answers| < |calls| && call == calls[|answers|] && Led(stream, calls, answers, course)
    requires !stream.Settled() ==> stream.cursor.delivered == []
    modifies stream, stream.cursor
    ensures stream.Valid() && (stream.cursor == old(stream.cursor) || fresh(stream.cursor)) && stream.Settled()
    ensures stream.cursor.delivered == old(stream.cursor.delivered) + if r.Delivered? then [r.index] else []
    ensures stream.cursor.origin ==
              if old(stream.Settled()) then old(stream.cursor.origin)
              else OriginAfter(stream.log, old(stream.cursor.origin), old(stream.replies), call == CallNext)
    ensures Led(stream, calls, answers + [r], course)
    ensures var all := Everything(stream.log, stream.cursor.origin, course.Place());
            Right(calls, answers + [r], |answers|, all, course.Lost?)
  {
    ghost var k := |answers|;
    ghost var failed, n := HasNextFailed(calls, answers, k), Nexts(calls[..k]);
    if call == CallNext {
      r := TakeNext(stream, course, n, failed);
    } else {
      r := TakeHasNext(stream, course, n, failed);
    }
    OneCallMore(calls, answers, r);
  }

  lemma OneCallMore(calls: seq<Call>, answers: seq<Answer>, r: Answer)
    requires |answers| < |calls|
    ensures var k, longer := |answers|, answers + [r];
            && longer[k] == r
            && Nexts(calls[..k + 1]) == Nexts(calls[..k]) + (if calls[k] == CallNext then 1 else 0)
            && (HasNextFailed(calls, longer, k) <==> HasNextFailed(calls, answers, k))
            && (HasNextFailed(calls, longer, k + 1) <==>
                  HasNextFailed(calls, answers, k) || (calls[k] == CallHasNext && r == StreamError))
  {
    FailedSnoc(calls, answers, r);
    assert calls[..|answers| + 1][..|answers|] == calls[..|answers|];
  }

  lemma FailedSnoc(calls: seq<Call>, answers: seq<Answer>, r: Answer)
    requires |answers| < |calls|
    ensures forall k :: 0 <= k <= |answers| ==>
              (HasNextFailed(calls, answers + [r], k) <==> HasNextFailed(calls, answers, k))
    ensures HasNextFailed(calls, answers + [r], |answers| + 1) <==>
              HasNextFailed(calls, answers, |answers|) || (calls[|answers|] == CallHasNext && r == StreamError)
  {
    var longer := answers + [r];
    assert longer[|answers|] == r;
    forall k | 0 <= k <= |answers|
      ensures HasNextFailed(calls, longer, k) <==> HasNextFailed(calls, answers, k)
    {
      assert forall i :: 0 <= i < k ==> longer[i] == answers[i];
      if HasNextFailed(calls, answers, k) {
        var i :| 0 <= i < k && calls[i] == CallHasNext && answers[i] == StreamError;
        assert longer[i] == StreamError;
      }
    }
  }

  /**
   * Any log, any answers of the server and any mix of calls. Let `all` be what the pipeline lets through from the place
   * where the stream began up to where the server's answers bring it. Then each `next` returns the next one of `all`,
   * in order and without gap or repeat, across all failures that are resumed from; once all are returned it waits or,
   * if the answers end the stream, fails. Only after a `hasNext` that has failed does it fail before that. The stream
   * began where it was asked to, unless its start was a time alone, the first `next` failed before a server was known,
   * and the cursor reopened elsewhere.
   */
  method Drive(log: Log, options: Options, replies: seq<Reply>, calls: seq<Call>)
    returns (answers: seq<Answer>, changes: seq<nat>, began: Option<nat>)
    requires options.Within(log)
    ensures began == Began(log, options, replies, calls)
    ensures options.Start().Some? ==>
              (began == options.Start() <==>
               !(StartDropped(options, replies, calls) && OpensAnew(log, replies[1..]) != options.Start()))
    ensures |answers| == |calls|
    ensures var end := Asked(log, options, replies);
            var all := Everything(log, began, end.Place());
            changes <= all && AllRight(calls, answers, all, end.Lost?)
  {
    var stream := new ChangeStream(log, options, replies);
    ghost var course := Asked(log, options, replies);
    answers, changes := [], [];
    for i := 0 to |calls|
      invariant stream.Valid() && fresh(stream) && fresh(stream.cursor) && stream.log == log
      invariant |answers| == i && changes == stream.cursor.delivered
      invariant i == 0 ==> stream.cursor.origin == options.Start() && stream.replies == replies && changes == []
      invariant i == 0 ==> (stream.Settled() <==> options.Token().Some? || replies == [])
      invariant i > 0 ==> stream.Settled() && stream.cursor.origin == Began(log, options, replies, calls)
      invariant Led(stream, calls, answers, course)
      invariant AllRight(calls, answers, Everything(log, stream.cursor.origin, course.Place()), course.Lost?)
    {
      var r := Take(stream, calls, answers, calls[i], course);
      RightStays(calls, answers, r, Everything(log, stream.cursor.origin, course.Place()), course.Lost?);
      answers := answers + [r];
      changes := changes + if r.Delivered? then [r.index] else [];
    }
    began := stream.cursor.origin;
    if options.Start().Some? {
      BeginsAsAsked(log, options, replies, calls);
    }
  }

  // ---------------------------------------------------------------- failures

  /** The answers that are no failures. */
  function OnlyBatches(replies: seq<Reply>): (r: seq<Reply>)
    ensures Batches(r)
  {
    if replies == [] then [] else (if replies[0].Batch? then [replies[0]] else []) + OnlyBatches(replies[1..])
  }

  /** How far into the log batches reach from a place on. */
  function ReportedTo(log: Log, place: nat, replies: seq<Reply>): nat
    requires Batches(replies)
    decreases |replies|
  {
    if replies == [] then place else ReportedTo(log, Min(place + replies[0].length, |log|), replies[1..])
  }

  /** What ends a stream: an error that is not resumable, or one that comes when nothing was found since the last. */
  lemma FailureEnds(log: Log, p: Progress, reply: Reply)
    requires p.Within(log) && !p.Lost?
    ensures var q := Hear(log, p, reply);
            && (q.Lost? <==> reply == OtherError || (reply == ResumableError && p.shaken))
            && (q.Lost? ==> q.reached == p.Place())
            && (q.Reading? && p.Place().Some? ==>
                  && p.Place().value <= q.place
                  && (q.shaken <==> p.shaken && Matches(log, p.Place().value, q.place) == []))
            && (q.Opening? ==> q.shaken && q.time == None && q.token == if p.Opening? then p.token else Some(p.place))
  {
  }

  /** Failures that a stream survives cannot be seen: it gets exactly as far as its batches reach. */
  lemma {:induction false} FailuresUnseen(log: Log, p: Progress, replies: seq<Reply>)
    requires p.Within(log) && p.Anchored() && !Course(log, p, replies).Lost?
    ensures Course(log, p, replies).Place() == Some(ReportedTo(log, p.Place().value, OnlyBatches(replies)))
    decreases |replies|
  {
    if p.Lost? {
      LostStays(log, p, replies);
    }
    if replies != [] {
      FailuresUnseen(log, Hear(log, p, replies[0]), replies[1..]);
      if replies[0].Batch? {
        assert OnlyBatches(replies)[1..] == OnlyBatches(replies[1..]);
      } else {
        assert OnlyBatches(replies) == OnlyBatches(replies[1..]);
      }
    }
  }

  /** The stream survives batches, and a resumable failure between batches. */
  lemma {:induction false} Survives(log: Log, p: Progress, replies: seq<Reply>, failure: nat)
    requires p.Within(log) && !p.Lost? && failure <= |replies|
    requires failure < |replies| ==> replies[failure] == ResumableError && !p.shaken
    requires forall i :: 0 <= i < |replies| && i != failure ==> replies[i].Batch?
    ensures !Course(log, p, replies).Lost?
    decreases |replies|
  {
    if replies != [] {
      var rest := replies[1..];
      Survives(log, Hear(log, p, replies[0]), rest, if failure == 0 then |rest| else failure - 1);
    }
  }

  /** The course of three answers. */
  lemma CourseOfThree(log: Log, p: Progress, a: Reply, b: Reply, c: Reply)
    requires p.Within(log)
    ensures Course(log, p, [a, b, c]) == Hear(log, Hear(log, Hear(log, p, a), b), c)
  {
    assert [a, b, c][1..] == [b, c] && [b, c][1..] == [c] && [c][1..] == [];
    assert Course(log, p, [a, b, c]) == Course(log, Hear(log, p, a), [b, c]);
    assert Course(log, Hear(log, p, a), [b, c]) == Course(log, Hear(log, Hear(log, p, a), b), [c]);
    var q := Hear(log, Hear(log, p, a), b);
    assert Course(log, q, [c]) == Course(log, Hear(log, q, c), []);
  }

  lemma ResumedCourse()
    ensures var log, replies := [true, true, true], [Batch(3, 1), ResumableError, Batch(3, 3)];
            && Asked(log, Options(None, Some(0), None), replies) == Reading(3, false)
            && Matches(log, 0, 3) == [0, 1, 2]
  {
    var log, replies := [true, true, true], [Batch(3, 1), ResumableError, Batch(3, 3)];
    CourseOfThree(log, Opening(Some(0), None, false), replies[0], replies[1], replies[2]);
    assert Hear(log, Opening(Some(0), None, false), replies[0]) == Reading(1, false);
    assert Matches(log, 0, 1) == [0] && Matches(log, 0, 2) == [0, 1];
    assert Matches(log, 1, 2) == [1] && Matches(log, 1, 3) == [1, 2];
  }

  /** A stream that fails between two events is resumed, and all are delivered. */
  method Resumed() returns (answers: seq<Answer>, changes: seq<nat>)
    ensures answers == [Delivered(0), Delivered(1)]
  {
    var log, options := [true, true, true], Options(None, Some(0), None);
    var replies := [Batch(3, 1), ResumableError, Batch(3, 3)];
    var calls, began := [CallNext, CallNext], None;
    answers, changes, began := Drive(log, options, replies, calls);
    ResumedCourse();
    ghost var end := Asked(log, options, replies);
    ghost var all := Everything(log, began, end.Place());
    assert all == [0, 1, 2];
    assert calls[..0] == [] && calls[..1] == [CallNext] && [CallNext][..0] == [];
    assert Right(calls, answers, 0, all, end.Lost?) && Right(calls, answers, 1, all, end.Lost?);
  }

  /** A second failure before anything is found ends the stream. */
  method LostAgain() returns (answers: seq<Answer>, changes: seq<nat>)
    ensures answers == [StreamError] && changes == [] && Matches([false, true, true], 0, 3) == [1, 2]
  {
    var log, options := [false, true, true], Options(None, Some(0), None);
    var replies := [ResumableError, Batch(3, 1), ResumableError];
    var calls, began := [CallNext], None;
    answers, changes, began := Drive(log, options, replies, calls);
    CourseOfThree(log, Opening(Some(0), None, false), replies[0], replies[1], replies[2]);
    assert Matches(log, 0, 1) == [] && Matches(log, 0, 2) == [1] && Matches(log, 0, 3) == [1, 2];
    assert Asked(log, options, replies) == Lost(Some(1));
    ghost var end := Asked(log, options, replies);
    ghost var all := Everything(log, began, end.Place());
    assert all == [] && Right(calls, answers, 0, all, end.Lost?);
  }

  /**
   * A stream from place 0 whose first `next` fails: it reopens at the end of the log, and the three events are lost.
   */
  method LostStart() returns (answers: seq<Answer>, changes: seq<nat>, began: Option<nat>)
    ensures began == Some(3) && answers == [Pending] && changes == [] && Matches([true, true, true], 0, 3) == [0, 1, 2]
  {
    var log, options := [true, true, true], Options(None, None, Some(0));
    var replies, calls := [ResumableError, Batch(3, 3)], [CallNext];
    answers, changes, began := Drive(log, options, replies, calls);
    assert Began(log, options, replies, calls) == OpensAnew(log, replies[1..]);
    assert replies[1..] == [Batch(3, 3)] && replies[1..][1..] == [];
    assert Asked(log, options, replies) == Hear(log, Hear(log, Opening(None, Some(0), false), replies[0]), replies[1]);
    assert Asked(log, options, replies) == Reading(3, true);
    assert Matches(log, 0, 1) == [0] && Matches(log, 0, 2) == [0, 1] && Matches(log, 3, 3) == [];
    ghost var end := Asked(log, options, replies);
    ghost var all := Everything(log, began, end.Place());
    assert all == [] && calls[..0] == [] && Right(calls, answers, 0, all, end.Lost?);
  }

  /** What was delivered is a prefix of everything there is to deliver. */
  lemma DeliveredIsPrefix(log: Log, began: nat, reached: nat)
    requires began <= reached <= |log|
    ensures Matches(log, began, reached) <= Matches(log, began, |log|)
  {
    MatchesSplit(log, began, reached, |log|);
  }
}
