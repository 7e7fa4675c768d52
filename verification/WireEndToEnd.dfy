/**
 * From `writeCommand` on one side to the decoded messages on the other (src/cmap/message_stream.ts,
 * src/cmap/commands.ts).
 */
module WireEndToEnd {
  import opened Common
  import opened LittleEndian
  import opened OpMsg
  import opened MessageStreams

  /** How one command is sent: `compressor` is 0 for none, 1 for snappy, 2 for zlib. */
  datatype Outgoing = Outgoing(msg: Msg, compressor: byte, canCompress: bool)
  {
    predicate Plain() {
      compressor == 0 || !canCompress
    }

    function WrapperLength(compressed: Bytes): nat {
      MESSAGE_HEADER_SIZE + COMPRESSION_DETAILS_SIZE + |compressed|
    }

    /** The OP_COMPRESSED layout: header, original opcode, uncompressed size, compressor id, compressed body. */
    function Wrapped(compressed: Bytes): Bytes {
      HeaderBytes(WrapperLength(compressed), msg.requestId, 0, OP_COMPRESSED)
      + (Int32Bytes(OP_MSG) + Int32Bytes(|msg.Body()|) + [compressor] + compressed)
    }

    /** The command can be sent: its size is an int32 and compression, where asked for, succeeds. */
    predicate Sendable(codec: Codec) {
      && msg.TotalLength() <= MAX_INT32
      && (!Plain() ==>
            && codec.compress(compressor, msg.Body()).Some?
            && WrapperLength(codec.compress(compressor, msg.Body()).value) <= MAX_INT32)
    }

    function Sent(codec: Codec): Bytes
      requires Sendable(codec)
    {
      if Plain() then msg.Layout() else Wrapped(codec.compress(compressor, msg.Body()).value)
    }

    /** `writeCommand`: nothing is pushed when encoding or compression fails. */
    method WriteCommand(codec: Codec) returns (pushed: Option<Bytes>)
      ensures pushed == if Sendable(codec) then Some(Sent(codec)) else None
    {
      var data := msg.ToBin();
      if data.Err? {
        return None;
      }
      var original := Flatten(data.value);
      if Plain() {
        return Some(original);
      }
      HeaderDecodes(msg.TotalLength(), msg.requestId, 0, OP_MSG, msg.Body());
      var messageToBeCompressed := original[MESSAGE_HEADER_SIZE..];
      assert messageToBeCompressed == msg.Body();
      var originalCommandOpCode := Int32At(original, 12);
      var compressed := codec.compress(compressor, messageToBeCompressed);
      if compressed.None? || WrapperLength(compressed.value) > MAX_INT32 {
        return None;
      }
      var wrapped := Wrap(originalCommandOpCode, |messageToBeCompressed|, compressed.value);
      pushed := Some(wrapped);
    }

    method Wrap(originalOpcode: int32, uncompressedSize: int32, compressed: Bytes) returns (wrapped: Bytes)
      requires WrapperLength(compressed) <= MAX_INT32
      ensures wrapped == HeaderBytes(WrapperLength(compressed), msg.requestId, 0, OP_COMPRESSED)
                       + (Int32Bytes(originalOpcode) + Int32Bytes(uncompressedSize) + [compressor] + compressed)
    {
      var msgHeader := new byte[16];
      WriteHeader(msgHeader, WrapperLength(compressed), msg.requestId, 0, OP_COMPRESSED);
      assert msgHeader[..] == msgHeader[..16];
      var details := new byte[9];
      WriteInt32LE(details, originalOpcode, 0);
      WriteInt32LE(details, uncompressedSize, 4);
      assert details[..8] == Int32Bytes(originalOpcode) + Int32Bytes(uncompressedSize);
      details[8] := compressor;
      assert details[..] == details[..8] + [compressor];
      wrapped := msgHeader[..] + (details[..] + compressed);
    }
  }

  /** `message` is the OP_MSG class and decodes, in raw mode, to the request id, flags and command of `m`. */
  predicate DecodesTo(message: Message, m: Msg) {
    && message.binMsg && message.header.opCode == 2013
    && message.header.requestId == m.requestId
    && message.header.responseTo == 0
    && |message.body| >= 4
    && Sections(message.body, 4) == Ok([m.command])
    && BitSet(Int32At(message.body, 0), 1) == m.checksumPresent
    && BitSet(Int32At(message.body, 0), 2) == m.moreToCome
    && BitSet(Int32At(message.body, 0), 0x1_0000) == m.exhaustAllowed
  }

  /** The message is the frame that was sent and decodes to its command. */
  predicate Arrived(message: Message, frame: Bytes, m: Msg) {
    message.raw == frame && DecodesTo(message, m)
  }

  /** A plain frame opens to the message that was sent. */
  lemma PlainOpens(codec: Codec, o: Outgoing)
    requires o.Sendable(codec) && o.Plain()
    ensures var r := Open(codec, o.Sent(codec)); r.Ok? && DecodesTo(r.value, o.msg)
    ensures Int32At(o.Sent(codec), 0) == |o.Sent(codec)|
  {
    var m := o.msg;
    BodyDecodes(m);
    HeaderDecodes(m.TotalLength(), m.requestId, 0, OP_MSG, m.Body());
    assert m.Layout()[MESSAGE_HEADER_SIZE..] == m.Body();
  }

  /** A compressed frame opens to the same message, whatever the compressor, if decompressing inverts compressing. */
  lemma CompressedOpens(codec: Codec, o: Outgoing)
    requires o.Sendable(codec) && !o.Plain() && o.compressor <= 2 && Inverts(codec)
    ensures var r := Open(codec, o.Sent(codec)); r.Ok? && DecodesTo(r.value, o.msg)
    ensures Int32At(o.Sent(codec), 0) == |o.Sent(codec)|
  {
    var m := o.msg;
    var z := codec.compress(o.compressor, m.Body()).value;
    var details := Int32Bytes(OP_MSG) + Int32Bytes(|m.Body()|) + [o.compressor] + z;
    var header := HeaderBytes(o.WrapperLength(z), m.requestId, 0, OP_COMPRESSED);
    var bytes := header + details;
    BodyDecodes(m);
    HeaderDecodes(o.WrapperLength(z), m.requestId, 0, OP_COMPRESSED, details);
    DetailsDecode(header, |m.Body()|, o.compressor, z);
    assert codec.decompress(o.compressor, z) == Some(m.Body());
  }

  lemma DetailsDecode(header: Bytes, size: int32, id: byte, z: Bytes)
    requires |header| == MESSAGE_HEADER_SIZE
    ensures var bytes := header + (Int32Bytes(OP_MSG) + Int32Bytes(size) + [id] + z);
            && Int32At(bytes, 16) == OP_MSG && Int32At(bytes, 20) == size && bytes[24] == id
            && (if |bytes| > 25 then bytes[25..] else []) == z
  {
    var bytes := header + (Int32Bytes(OP_MSG) + Int32Bytes(size) + [id] + z);
    Int32Embedded(header, OP_MSG, Int32Bytes(size) + [id] + z);
    assert bytes == header + Int32Bytes(OP_MSG) + (Int32Bytes(size) + [id] + z);
    Int32Embedded(header + Int32Bytes(OP_MSG), size, [id] + z);
    assert bytes == header + Int32Bytes(OP_MSG) + Int32Bytes(size) + ([id] + z);
    assert bytes[25..] == z;
  }

  /**
   * What is pushed: with a compressor agreed on and a command that may be compressed, an OP_COMPRESSED frame that says
   * how to inflate it; else the OP_MSG itself. Both declare their own length and the command's request id.
   */
  lemma SentForm(codec: Codec, o: Outgoing)
    requires o.Sendable(codec)
    ensures var b := o.Sent(codec);
            && |b| >= 25 && Int32At(b, 0) == |b| && Int32At(b, 4) == o.msg.requestId && Int32At(b, 8) == 0
            && (if o.compressor != 0 && o.canCompress
                then && Int32At(b, 12) == 2012 && Int32At(b, 16) == 2013 && Int32At(b, 20) == |o.msg.Body()|
                     && b[24] == o.compressor && Some(b[25..]) == codec.compress(o.compressor, o.msg.Body())
                else Int32At(b, 12) == 2013 && b[16..] == o.msg.Body())
  {
    var m := o.msg;
    if o.Plain() {
      HeaderDecodes(m.TotalLength(), m.requestId, 0, OP_MSG, m.Body());
    } else {
      var z := codec.compress(o.compressor, m.Body()).value;
      var header := HeaderBytes(o.WrapperLength(z), m.requestId, 0, OP_COMPRESSED);
      var details := Int32Bytes(OP_MSG) + Int32Bytes(|m.Body()|) + [o.compressor] + z;
      HeaderDecodes(o.WrapperLength(z), m.requestId, 0, OP_COMPRESSED, details);
      DetailsDecode(header, |m.Body()|, o.compressor, z);
      assert |header + details| == 25 ==> (header + details)[25..] == [];
    }
  }

  /** `bytes` is what `writeCommand` pushes for `o`, and the receiver's size limit admits it. */
  ghost predicate Transmits(codec: Codec, max: nat, o: Outgoing, bytes: Bytes) {
    o.Sendable(codec) && o.compressor <= 2 && bytes == o.Sent(codec) && |bytes| <= max
  }

  /** `bytes` is one whole frame that opens to the command `m`. */
  ghost predicate Carries(open: FrameOpener, max: nat, bytes: Bytes, m: Msg) {
    Whole(open, max, bytes) && open(bytes).Ok? && Arrived(open(bytes).value, bytes, m)
  }

  /** Each pushed command is one whole frame that opens to the command. */
  lemma FrameDecodes(codec: Codec, max: nat, o: Outgoing, bytes: Bytes)
    requires Inverts(codec) && Transmits(codec, max, o, bytes)
    ensures Carries(Opener(codec), max, bytes, o.msg)
  {
    if o.Plain() {
      PlainOpens(codec, o);
    } else {
      CompressedOpens(codec, o);
    }
    assert bytes[..|bytes|] == bytes;
  }

  /** The received prefix is the longest complete one, decoded. */
  lemma ReceivedPrefix(open: FrameOpener, max: nat, sent: seq<Outgoing>, frames: seq<Bytes>, flat: Bytes)
    requires |frames| == |sent| && flat <= Flatten(frames)
    requires forall i :: 0 <= i < |sent| ==> Carries(open, max, frames[i], sent[i].msg)
    ensures var f := Frame(open, max, flat);
            && |f.messages| <= |sent|
            && (forall i :: 0 <= i < |f.messages| ==> Arrived(f.messages[i], frames[i], sent[i].msg))
            && f.status.Ok? && Flatten(frames[..|f.messages|]) + f.status.value == flat
            && (|f.messages| < |sent| ==> |flat| < |Flatten(frames[..|f.messages| + 1])|)
  {
    var messages := OpenAll(open, max, sent, frames);
    var k := FramePrefix(open, max, frames, messages, flat);
    Rejoins(Flatten(frames[..k]), flat);
  }

  /** The messages that the frames open to. */
  lemma OpenAll(open: FrameOpener, max: nat, sent: seq<Outgoing>, frames: seq<Bytes>) returns (messages: seq<Message>)
    requires |frames| == |sent|
    requires forall i :: 0 <= i < |sent| ==> Carries(open, max, frames[i], sent[i].msg)
    ensures |messages| == |frames| && forall i :: 0 <= i < |frames| ==> open(frames[i]) == Ok(messages[i])
    ensures forall i :: 0 <= i < |frames| ==> Whole(open, max, frames[i])
    ensures forall i :: 0 <= i < |frames| ==> Arrived(messages[i], frames[i], sent[i].msg)
  {
    messages := seq(|frames|, i requires 0 <= i < |frames| => open(frames[i]).value);
    forall i | 0 <= i < |frames|
      ensures Whole(open, max, frames[i]) && open(frames[i]) == Ok(messages[i])
      ensures Arrived(messages[i], frames[i], sent[i].msg)
    {
      assert Carries(open, max, frames[i], sent[i].msg);
    }
  }

  lemma Rejoins(part: Bytes, flat: Bytes)
    requires part <= flat
    ensures part + flat[|part|..] == flat
  {
  }

  /**
   * End to end: whatever the split into socket chunks and however much has arrived, the receiver has emitted
   * the longest complete prefix of the commands, decoded, and buffers exactly the rest.
   */
  method Transfer(codec: Codec, max: nat, ghost sent: seq<Outgoing>, ghost frames: seq<Bytes>, chunks: seq<Bytes>)
    returns (messages: seq<Message>, buffered: Result<Bytes, StreamError>)
    requires Inverts(codec) && |frames| == |sent|
    requires forall i :: 0 <= i < |sent| ==> Transmits(codec, max, sent[i], frames[i])
    requires Flatten(chunks) <= Flatten(frames)
    ensures |messages| <= |sent| && forall i :: 0 <= i < |messages| ==> Arrived(messages[i], frames[i], sent[i].msg)
    ensures buffered.Ok? && Flatten(frames[..|messages|]) + buffered.value == Flatten(chunks)
    ensures |messages| < |sent| ==> |Flatten(chunks)| < |Flatten(frames[..|messages| + 1])|
  {
    messages, buffered := Receive(Opener(codec), max, chunks);
    forall i | 0 <= i < |sent|
      ensures Carries(Opener(codec), max, frames[i], sent[i].msg)
    {
      FrameDecodes(codec, max, sent[i], frames[i]);
    }
    ReceivedPrefix(Opener(codec), max, sent, frames, Flatten(chunks));
  }
}
