/** Cutting the socket's byte stream into wire messages, with optional compression (src/cmap/message_stream.ts). */
module MessageStreams {
  import opened Common
  import opened LittleEndian
  import opened BufferPools
  import opened OpMsg

  const MESSAGE_HEADER_SIZE := 16
  const COMPRESSION_DETAILS_SIZE := 9
  const OP_COMPRESSED: int32 := 2012

  datatype Header = Header(length: int32, requestId: int32, responseTo: int32, opCode: int32, fromCompressed: bool)

  /** An emitted message: `binMsg` tells the OP_MSG class from the OP_REPLY class. */
  datatype Message = Message(binMsg: bool, raw: Bytes, header: Header, body: Bytes)

  datatype StreamError =
    | InvalidMessageSize(size: int32)
    | MessageTooLarge(size: int32)
    | ReadOutOfRange
    | UnsupportedCompressor
    | DecompressionFailed
    | BodyLengthMismatch

  /** The compression libraries: `None` is a reported failure. */
  datatype Codec = Codec(compress: (byte, Bytes) -> Option<Bytes>, decompress: (byte, Bytes) -> Option<Bytes>)

  ghost predicate Inverts(codec: Codec) {
    forall id: byte, data: Bytes :: codec.compress(id, data).Some? ==>
      codec.decompress(id, codec.compress(id, data).value) == Some(data)
  }

  /** `decompress`: compressor 0 hands the data through. */
  function Inflate(codec: Codec, id: byte, data: Bytes): Result<Bytes, StreamError> {
    if id > 2 then Err(UnsupportedCompressor)
    else if id == 0 then Ok(data)
    else match codec.decompress(id, data)
         case None => Err(DecompressionFailed)
         case Some(body) => Ok(body)
  }

  /** `new ResponseType(...)`: both classes read fixed fields of the body, a reply also sizes its document array. */
  function Construct(raw: Bytes, header: Header, body: Bytes): Result<Message, StreamError> {
    var binMsg := header.opCode == OP_MSG;
    if binMsg then
      if |body| < 4 then Err(ReadOutOfRange) else Ok(Message(true, raw, header, body))
    else
      if |body| < 20 || Int32At(body, 16) < 0 then Err(ReadOutOfRange) else Ok(Message(false, raw, header, body))
  }

  /** What one complete frame turns into; reading the header of a shorter one throws. */
  function Open(codec: Codec, message: Bytes): Result<Message, StreamError> {
    if |message| < MESSAGE_HEADER_SIZE then Err(ReadOutOfRange) else
      var requestId, responseTo, opCode := Int32At(message, 4), Int32At(message, 8), Int32At(message, 12);
      if opCode != OP_COMPRESSED then
        Construct(message, Header(Int32At(message, 0), requestId, responseTo, opCode, false),
                  message[MESSAGE_HEADER_SIZE..])
      else if |message| < MESSAGE_HEADER_SIZE + 8 then Err(ReadOutOfRange)
      else
        var length := Int32At(message, MESSAGE_HEADER_SIZE + 4);
        var header := Header(length, requestId, responseTo, Int32At(message, MESSAGE_HEADER_SIZE), true);
        var id := if |message| > 24 then message[24] else 0;
        var compressed := if |message| > 25 then message[25..] else [];
        match Inflate(codec, id, compressed)
        case Err(e) => Err(e)
        case Ok(body) => if |body| != length then Err(BodyLengthMismatch) else Construct(message, header, body)
  }

  /** How complete frames are opened; `Opener(codec)` is the one the driver uses. */
  type FrameOpener = Bytes -> Result<Message, StreamError>

  function Opener(codec: Codec): FrameOpener {
    (message: Bytes) => Open(codec, message)
  }

  /** What the next frame asks for: more bytes, a stop, or the consumption of `size` bytes for one message. */
  datatype Head = Wait | Stop(error: StreamError) | Take(size: nat, message: Message)

  function NextFrame(open: FrameOpener, max: nat, flat: Bytes): (r: Head)
    ensures r.Take? ==> 0 < r.size <= |flat|
  {
    if |flat| < 4 then Wait else
      var size := Int32At(flat, 0);
      if size < 0 then Stop(InvalidMessageSize(size))
      else if size > max then Stop(MessageTooLarge(size))
      else if size > |flat| then Wait
      else if size < MESSAGE_HEADER_SIZE then Stop(ReadOutOfRange)
      else match open(flat[..size])
           case Err(e) => Stop(e)
           case Ok(m) => Take(size, m)
  }

  /** The messages a flat byte string holds, and the unfinished rest or the error that stops the stream. */
  datatype Framed = Framed(messages: seq<Message>, status: Result<Bytes, StreamError>)

  function Frame(open: FrameOpener, max: nat, flat: Bytes): Framed
    decreases |flat|
  {
    match NextFrame(open, max, flat)
    case Wait => Framed([], Ok(flat))
    case Stop(e) => Framed([], Err(e))
    case Take(size, m) =>
      var rest := Frame(open, max, flat[size..]);
      Framed([m] + rest.messages, rest.status)
  }

  class MessageStream {
    const open: FrameOpener
    const maxBsonMessageSize: nat
    const buffer: BufferPool
    var emitted: seq<Message>

    ghost predicate Valid()
      reads this, buffer
    {
      buffer.Valid()
    }

    constructor (open: FrameOpener, max: nat)
      ensures Valid() && fresh(buffer) && emitted == [] && buffer.Contents() == []
      ensures this.open == open && maxBsonMessageSize == max
    {
      this.open, maxBsonMessageSize, emitted := open, max, [];
      buffer := new BufferPool();
    }

    /** The messages of `f` were emitted after `before`, and its rest is buffered or its error reported. */
    ghost predicate Answered(f: Framed, before: seq<Message>, r: Result<(), StreamError>)
      reads this, buffer
    {
      && emitted == before + f.messages
      && (match f.status
          case Ok(rest) => r == Ok(()) && buffer.Contents() == rest
          case Err(e) => r == Err(e))
    }

    /** `_write`: buffer the chunk, then emit every message that is now complete. */
    method Write(chunk: Bytes) returns (r: Result<(), StreamError>)
      requires Valid()
      modifies this, buffer
      ensures Valid()
      ensures Answered(Frame(open, maxBsonMessageSize, old(buffer.Contents()) + chunk), old(emitted), r)
    {
      buffer.Append(chunk);
      r := ProcessIncomingData();
    }

    method ProcessIncomingData() returns (r: Result<(), StreamError>)
      requires Valid()
      modifies this, buffer
      ensures Valid()
      ensures Answered(Frame(open, maxBsonMessageSize, old(buffer.Contents())), old(emitted), r)
      decreases |buffer.Contents()|
    {
      ghost var flat := buffer.Contents();
      ghost var head := NextFrame(open, maxBsonMessageSize, flat);
      if buffer.length < 4 {
        return Ok(());
      }
      var peeked := buffer.Peek(4);
      var sizeOfMessage := Int32At(peeked.value, 0);
      if sizeOfMessage < 0 {
        return Err(InvalidMessageSize(sizeOfMessage));
      }
      if sizeOfMessage > maxBsonMessageSize {
        return Err(MessageTooLarge(sizeOfMessage));
      }
      if sizeOfMessage > buffer.length {
        return Ok(());
      }
      var message := buffer.Read(sizeOfMessage);
      assert message.value == flat[..sizeOfMessage];
      if sizeOfMessage < MESSAGE_HEADER_SIZE {
        return Err(ReadOutOfRange);
      }
      var response := open(message.value);
      if response.Err? {
        return Err(response.error);
      }
      assert head == Take(sizeOfMessage, response.value);
      Associative(emitted, [response.value], Frame(open, maxBsonMessageSize, flat[sizeOfMessage..]).messages);
      emitted := emitted + [response.value];
      r := Ok(());
      if buffer.length >= 4 {
        r := ProcessIncomingData();
      }
    }
  }

  // ---------------------------------------------------------------- what is refused

  /** The declared size decides: a negative or too large one stops the stream, and an incomplete frame waits. */
  lemma SizeDecides(open: FrameOpener, max: nat, flat: Bytes)
    requires |flat| >= 4
    ensures var size, head := Int32At(flat, 0), NextFrame(open, max, flat);
            && (size < 0 ==> head == Stop(InvalidMessageSize(size)))
            && (size > max ==> head == Stop(MessageTooLarge(size)))
            && (head == Wait <==> |flat| < size <= max)
            && (0 <= size < 16 && size <= max && size <= |flat| ==> head == Stop(ReadOutOfRange))
            && (16 <= size <= max && size <= |flat| ==>
                  match open(flat[..size]) case Ok(m) => head == Take(size, m) case Err(e) => head == Stop(e))
  {
  }

  /** The body has the fixed fields of its class, and a reply does not return a negative number of documents. */
  predicate Readable(opCode: int32, body: Bytes) {
    if opCode == 2013 then |body| >= 4 else |body| >= 20 && Int32At(body, 16) >= 0
  }

  /** A plain frame opens, to all that lies behind its header, exactly if that is readable. */
  lemma PlainExactly(codec: Codec, message: Bytes)
    requires |message| >= 16 && Int32At(message, 12) != 2012
    ensures var r, opCode := Open(codec, message), Int32At(message, 12);
            var header := Header(Int32At(message, 0), Int32At(message, 4), Int32At(message, 8), opCode, false);
            r == if Readable(opCode, message[16..]) then Ok(Message(opCode == 2013, message, header, message[16..]))
                 else Err(ReadOutOfRange)
  {
  }

  /** What the compressor with an id makes of the data: none beyond 2 is known, and 0 leaves it as it is. */
  function Inflated(codec: Codec, id: byte, data: Bytes): Option<Bytes> {
    if id == 0 then Some(data) else if id <= 2 then codec.decompress(id, data) else None
  }

  /** A compressed frame opens exactly if its body inflates to the size and the kind that are declared of it. */
  lemma CompressedExactly(codec: Codec, message: Bytes)
    requires |message| >= 25 && Int32At(message, 12) == 2012
    ensures var r, opCode, length := Open(codec, message), Int32At(message, 16), Int32At(message, 20);
            var body := Inflated(codec, message[24], message[25..]);
            var header := Header(length, Int32At(message, 4), Int32At(message, 8), opCode, true);
            && (r.Ok? <==> body.Some? && |body.value| == length && Readable(opCode, body.value))
            && (r.Ok? ==> r.value == Message(opCode == 2013, message, header, body.value))
            && (message[24] > 2 ==> r == Err(UnsupportedCompressor))
            && (message[24] <= 2 && body.None? ==> r == Err(DecompressionFailed))
            && (body.Some? && |body.value| != length ==> r == Err(BodyLengthMismatch))
  {
    assert |message| == 25 ==> message[25..] == [];
  }

  // ---------------------------------------------------------------- the split into chunks

  /** Once the next frame is decided, bytes arriving behind it change nothing. */
  lemma NextFrameStable(open: FrameOpener, max: nat, a: Bytes, b: Bytes)
    requires !NextFrame(open, max, a).Wait?
    ensures NextFrame(open, max, a + b) == NextFrame(open, max, a)
  {
    assert Int32At(a + b, 0) == Int32At(a, 0);
    var size := Int32At(a, 0);
    if 0 <= size <= |a| {
      assert (a + b)[..size] == a[..size];
    }
  }

  /** Peeling the first frame off, with or without more bytes behind. */
  lemma FrameStep(open: FrameOpener, max: nat, a: Bytes, b: Bytes)
    requires NextFrame(open, max, a).Take?
    ensures var Take(size, m) := NextFrame(open, max, a);
            var rest := Frame(open, max, a[size..] + b);
            Frame(open, max, a + b) == Framed([m] + rest.messages, rest.status)
  {
    NextFrameStable(open, max, a, b);
    assert (a + b)[NextFrame(open, max, a).size..] == a[NextFrame(open, max, a).size..] + b;
  }

  /** Framing a stream and then more of it is framing the whole; an error stays the same error. */
  lemma {:induction false} FrameAppend(open: FrameOpener, max: nat, a: Bytes, b: Bytes)
    ensures match Frame(open, max, a).status
            case Err(e) => Frame(open, max, a + b) == Frame(open, max, a)
            case Ok(rest) =>
              var more := Frame(open, max, rest + b);
              Frame(open, max, a + b) == Framed(Frame(open, max, a).messages + more.messages, more.status)
    decreases |a|
  {
    match NextFrame(open, max, a) {
      case Wait =>
        var whole := Frame(open, max, a + b);
        assert [] + whole.messages == whole.messages;
      case Stop(e) =>
        NextFrameStable(open, max, a, b);
      case Take(size, m) =>
        FrameStep(open, max, a, b);
        FrameAppend(open, max, a[size..], b);
        var tail := Frame(open, max, a[size..]);
        if tail.status.Ok? {
          var more := Frame(open, max, tail.status.value + b);
          Associative([m], tail.messages, more.messages);
        }
    }
  }

  /** Socket chunks written one after another until the first error: the split into chunks does not matter. */
  method Receive(open: FrameOpener, max: nat, chunks: seq<Bytes>)
    returns (messages: seq<Message>, r: Result<Bytes, StreamError>)
    ensures messages == Frame(open, max, Flatten(chunks)).messages
    ensures r == Frame(open, max, Flatten(chunks)).status
  {
    var stream := new MessageStream(open, max);
    for i := 0 to |chunks|
      invariant stream.Valid() && fresh(stream) && fresh(stream.buffer)
      invariant stream.open == open && stream.maxBsonMessageSize == max
      invariant Frame(open, max, Flatten(chunks[..i])) == Framed(stream.emitted, Ok(stream.buffer.Contents()))
    {
      assert chunks[..i + 1] == chunks[..i] + [chunks[i]];
      FlattenSnoc(chunks[..i], chunks[i]);
      FrameAppend(open, max, Flatten(chunks[..i]), chunks[i]);
      var written := stream.Write(chunks[i]);
      if written.Err? {
        assert chunks == chunks[..i + 1] + chunks[i + 1..];
        FlattenAppend(chunks[..i + 1], chunks[i + 1..]);
        FrameAppend(open, max, Flatten(chunks[..i + 1]), Flatten(chunks[i + 1..]));
        return stream.emitted, Err(written.error);
      }
    }
    assert chunks[..|chunks|] == chunks;
    messages, r := stream.emitted, Ok(Flatten(stream.buffer.buffers));
  }

  /** `bytes` is exactly one frame that opens to a message. */
  predicate Whole(open: FrameOpener, max: nat, bytes: Bytes) {
    var head := NextFrame(open, max, bytes);
    head.Take? && head.size == |bytes|
  }

  /** A proper prefix of a frame waits for the rest. */
  lemma PartialFrameWaits(open: FrameOpener, max: nat, frame: Bytes, part: Bytes)
    requires Whole(open, max, frame) && part < frame
    ensures NextFrame(open, max, part) == Wait
  {
    if |part| >= 4 {
      assert Int32At(part, 0) == Int32At(frame, 0);
    }
  }

  /** One whole frame is emitted, and framing goes on behind it. */
  lemma FrameHead(open: FrameOpener, max: nat, frame: Bytes, message: Message, more: Bytes)
    requires Whole(open, max, frame) && open(frame) == Ok(message)
    ensures var rest := Frame(open, max, more);
            Frame(open, max, frame + more) == Framed([message] + rest.messages, rest.status)
  {
    FrameStep(open, max, frame, more);
    assert frame[|frame|..] + more == more;
    assert frame[..|frame|] == frame;
  }

  /** A run of whole frames is emitted in order, and framing goes on behind it. */
  lemma {:induction false} FrameAll(open: FrameOpener, max: nat, frames: seq<Bytes>, messages: seq<Message>,
                                    tail: Bytes)
    requires forall i :: 0 <= i < |frames| ==> Whole(open, max, frames[i])
    requires |messages| == |frames| && forall i :: 0 <= i < |frames| ==> open(frames[i]) == Ok(messages[i])
    ensures var rest := Frame(open, max, tail);
            Frame(open, max, Flatten(frames) + tail) == Framed(messages + rest.messages, rest.status)
    decreases |frames|
  {
    var rest := Frame(open, max, tail);
    if frames == [] {
      assert Flatten(frames) + tail == tail;
      assert messages + rest.messages == rest.messages;
    } else {
      FrameAll(open, max, frames[1..], messages[1..], tail);
      Associative(frames[0], Flatten(frames[1..]), tail);
      FrameHead(open, max, frames[0], messages[0], Flatten(frames[1..]) + tail);
      Associative([messages[0]], messages[1..], rest.messages);
      HeadTail(messages);
    }
  }

  /** Where a prefix of a concatenation ends: the parts it covers, and how far into the next one it reaches. */
  lemma {:induction false} CutAt(frames: seq<Bytes>, flat: Bytes) returns (k: nat, part: Bytes)
    requires flat <= Flatten(frames)
    ensures k <= |frames| && flat == Flatten(frames[..k]) + part
    ensures if k < |frames| then part < frames[k] else part == []
    decreases |frames|
  {
    if frames == [] {
      k, part := 0, [];
    } else if |flat| < |frames[0]| {
      k, part := 0, flat;
    } else {
      var rest := flat[|frames[0]|..];
      assert flat == frames[0] + rest;
      assert rest <= Flatten(frames[1..]);
      k, part := CutAt(frames[1..], rest);
      assert frames[..k + 1][1..] == frames[1..][..k];
      Associative(frames[0], Flatten(frames[1..][..k]), part);
      k := k + 1;
    }
  }

  /**
   * Framing any prefix of a concatenation of frames: the emitted messages are those of the frames that have
   * arrived completely, the longest such prefix, and the rest is kept unread.
   */
  lemma FramePrefix(open: FrameOpener, max: nat, frames: seq<Bytes>, messages: seq<Message>, flat: Bytes)
    returns (k: nat)
    requires forall i :: 0 <= i < |frames| ==> Whole(open, max, frames[i])
    requires |messages| == |frames| && forall i :: 0 <= i < |frames| ==> open(frames[i]) == Ok(messages[i])
    requires flat <= Flatten(frames)
    ensures k <= |frames| && Flatten(frames[..k]) <= flat
    ensures k < |frames| ==> |flat| < |Flatten(frames[..k + 1])|
    ensures Frame(open, max, flat) == Framed(messages[..k], Ok(flat[|Flatten(frames[..k])|..]))
  {
    var part;
    k, part := CutAt(frames, flat);
    FrameAll(open, max, frames[..k], messages[..k], part);
    if k < |frames| {
      PartialFrameWaits(open, max, frames[k], part);
      assert frames[..k + 1] == frames[..k] + [frames[k]];
      FlattenSnoc(frames[..k], frames[k]);
    }
    assert messages[..k] + [] == messages[..k];
  }
}
