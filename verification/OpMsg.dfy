/** The OP_MSG encoder and decoder (src/cmap/commands.ts). */
module OpMsg {
  import opened Common
  import opened LittleEndian

  const OP_MSG: int32 := 2013
  const OPTS_CHECKSUM_PRESENT := 1
  const OPTS_MORE_TO_COME := 2
  const OPTS_EXHAUST_ALLOWED := 0x1_0000

  datatype CodecError = ValueOutOfRange | UnsupportedPayloadType

  /** A serialized BSON document: its first four bytes give its length. */
  predicate IsDocument(d: Bytes) {
    |d| >= 5 && Int32At(d, 0) == |d|
  }

  type BsonDocument = d: Bytes | IsDocument(d) witness [5, 0, 0, 0, 0]

  datatype Msg = Msg(requestId: int32, checksumPresent: bool, moreToCome: bool, exhaustAllowed: bool,
                     command: BsonDocument)
  {
    function Flags(): int32 {
      (if checksumPresent then OPTS_CHECKSUM_PRESENT else 0)
      + (if moreToCome then OPTS_MORE_TO_COME else 0)
      + (if exhaustAllowed then OPTS_EXHAUST_ALLOWED else 0)
    }

    function TotalLength(): nat {
      21 + |command|
    }

    /** The layout of the OP_MSG specification: header, flag bits, one section of payload type 0. */
    function Layout(): Bytes
      requires TotalLength() <= MAX_INT32
    {
      HeaderBytes(TotalLength(), requestId, 0, OP_MSG) + Body()
    }

    function Body(): Bytes {
      Int32Bytes(Flags()) + Section(command)
    }

    /** `Msg.toBin`: the header is allocated first and filled once the total length is known. */
    method ToBin() returns (r: Result<seq<Bytes>, CodecError>)
      ensures TotalLength() > MAX_INT32 ==> r == Err(ValueOutOfRange)
      ensures TotalLength() <= MAX_INT32 ==> r.Ok? && Flatten(r.value) == Layout()
    {
      var flags := CollectFlags();
      var header := new byte[20];
      var totalLength := header.Length;
      totalLength := totalLength + 1 + |command|;
      if totalLength > MAX_INT32 {
        return Err(ValueOutOfRange);
      }
      WriteHeader(header, totalLength, requestId, 0, OP_MSG);
      WriteInt32LE(header, flags, 16);
      var head := header[..20];
      assert header[..] == head;
      // header, then makeDocumentSegment: the payload type and the serialized command
      r := Ok([head, [0], command]);
      FlattenThree(head, [0], command);
    }

    method CollectFlags() returns (flags: int32)
      ensures flags == Flags()
    {
      flags := 0;
      if checksumPresent {
        flags := flags + OPTS_CHECKSUM_PRESENT;
      }
      if moreToCome {
        flags := flags + OPTS_MORE_TO_COME;
      }
      if exhaustAllowed {
        flags := flags + OPTS_EXHAUST_ALLOWED;
      }
    }
  }

  function HeaderBytes(length: int, requestId: int32, responseTo: int32, opCode: int32): (r: Bytes)
    ensures |r| == 16
  {
    Int32Bytes(length) + Int32Bytes(requestId) + Int32Bytes(responseTo) + Int32Bytes(opCode)
  }

  method WriteHeader(header: array<byte>, length: int, requestId: int32, responseTo: int32, opCode: int32)
    requires header.Length >= 16
    modifies header
    ensures header[..16] == HeaderBytes(length, requestId, responseTo, opCode)
    ensures header[16..] == old(header[16..])
  {
    ghost var tail := header[16..];
    assert tail == header[4..][12..];
    StoreInt32(header, length, 0);
    assert tail == header[8..][8..];
    WriteInt32LE(header, requestId, 4);
    assert tail == header[12..][4..];
    WriteInt32LE(header, responseTo, 8);
    WriteInt32LE(header, opCode, 12);
  }

  lemma FlattenThree(a: Bytes, b: Bytes, c: Bytes)
    ensures Flatten([a, b, c]) == a + b + c
  {
    assert Flatten([a, b, c]) == a + Flatten([b, c]);
    assert Flatten([b, c]) == b + Flatten([c]);
    FlattenOne(c);
  }

  /** One section of payload type 0. */
  function Section(document: Bytes): Bytes {
    [0] + document
  }

  function SectionsOf(documents: seq<Bytes>): Bytes {
    if documents == [] then [] else Section(documents[0]) + SectionsOf(documents[1..])
  }

  /** `Buffer.slice` on non-negative bounds clamps both to the length of the buffer. */
  function Slice(b: Bytes, start: nat, end: nat): Bytes {
    var hi := if end > |b| then |b| else end;
    if start >= hi then [] else b[start..hi]
  }

  /** One turn of the section loop: the document found, if any, and where the next section starts. */
  function ReadSection(data: Bytes, index: nat): (r: Result<(seq<Bytes>, nat), CodecError>)
    requires index < |data|
    ensures r.Ok? ==> r.value.1 > index
  {
    if data[index] == 0 then
      if index + 5 > |data| then Err(ValueOutOfRange) else
        var next := index + 1 + Uint32At(data, index + 1);
        Ok(([Slice(data, index + 1, next)], next))
    else if data[index] == 1 then Err(UnsupportedPayloadType)
    else Ok(([], index + 1))
  }

  /** What the section loop yields from `index` on; `Err` where the loop throws. */
  function Sections(data: Bytes, index: nat): Result<seq<Bytes>, CodecError>
    decreases |data| - index
  {
    if index >= |data| then Ok([])
    else match ReadSection(data, index)
         case Err(e) => Err(e)
         case Ok((found, next)) => Prepend(found, Sections(data, next))
  }

  function Prepend(found: seq<Bytes>, rest: Result<seq<Bytes>, CodecError>): Result<seq<Bytes>, CodecError> {
    match rest
    case Err(e) => Err(e)
    case Ok(more) => Ok(found + more)
  }

  lemma PrependAssociates(found: seq<Bytes>, data: Bytes, index: nat)
    requires index < |data|
    ensures match ReadSection(data, index)
            case Err(e) => Prepend(found, Sections(data, index)) == Err(e)
            case Ok((more, next)) =>
              Prepend(found, Sections(data, index)) == Prepend(found + more, Sections(data, next))
  {
    match ReadSection(data, index) {
      case Err(_) =>
      case Ok((more, next)) =>
        match Sections(data, next) {
          case Err(_) =>
          case Ok(rest) => Associative(found, more, rest);
        }
    }
  }

  class BinMsg {
    const data: Bytes
    const responseFlags: int32
    var index: nat
    var documents: seq<Bytes>
    var parsed: bool

    constructor (data: Bytes)
      requires |data| >= 4
      ensures this.data == data && documents == [] && !parsed && responseFlags == Int32At(data, 0)
    {
      this.data := data;
      responseFlags := Int32At(data, 0);
      index, documents, parsed := 0, [], false;
    }

    /** `BinMsg.parse` in raw mode. */
    method Parse() returns (r: Result<(), CodecError>)
      modifies this
      ensures old(parsed) ==> r == Ok(()) && documents == old(documents) && parsed
      ensures !old(parsed) ==>
                match Sections(data, 4)
                case Ok(found) => r == Ok(()) && parsed && documents == old(documents) + found
                case Err(e) => r == Err(e) && !parsed
    {
      if parsed {
        return Ok(());
      }
      index := 4;
      ghost var found: seq<Bytes> := [];
      assert Sections(data, 4).Ok? ==> [] + Sections(data, 4).value == Sections(data, 4).value;
      while index < |data|
        invariant !parsed && documents == old(documents) + found
        invariant Sections(data, 4) == Prepend(found, Sections(data, index))
        decreases |data| - index
      {
        PrependAssociates(found, data, index);
        ghost var step := ReadSection(data, index);
        var payloadType := data[index];
        if payloadType == 0 {
          if index + 5 > |data| {
            assert step == Err(ValueOutOfRange);
            return Err(ValueOutOfRange);
          }
          var bsonSize := Uint32At(data, index + 1);
          var bin := Slice(data, index + 1, index + 1 + bsonSize);
          assert step == Ok(([bin], index + 1 + bsonSize));
          documents := documents + [bin];
          index := index + 1 + bsonSize;
        } else if payloadType == 1 {
          assert step == Err(UnsupportedPayloadType);
          return Err(UnsupportedPayloadType);
        } else {
          index := index + 1;
          assert step == Ok(([], index));
        }
        Associative(old(documents), found, step.value.0);
        found := found + step.value.0;
      }
      parsed := true;
      r := Ok(());
    }
  }

  /** Parsing a printed list of sections gives the documents back, wherever the list starts. */
  lemma {:induction false} SectionsInvert(data: Bytes, index: nat, documents: seq<Bytes>)
    requires forall i :: 0 <= i < |documents| ==> IsDocument(documents[i])
    requires index <= |data| && data[index..] == SectionsOf(documents)
    ensures Sections(data, index) == Ok(documents)
    decreases |documents|
  {
    if documents != [] {
      var d, tail := documents[0], SectionsOf(documents[1..]);
      var next := index + 1 + |d|;
      SectionRead(data, index, d, tail);
      SectionsInvert(data, next, documents[1..]);
      SectionsStep(data, index, d, next, documents[1..]);
      HeadTail(documents);
    }
  }

  /**
   * What comes behind a printed list of sections: a section of payload type 1 is an error, a document whose length is
   * cut off is one, and a byte of another type is passed over.
   */
  lemma {:induction false} SectionsGoOn(data: Bytes, index: nat, documents: seq<Bytes>, end: nat)
    requires forall i :: 0 <= i < |documents| ==> IsDocument(documents[i])
    requires index <= end < |data| && data[index..end] == SectionsOf(documents)
    ensures data[end] == 1 ==> Sections(data, index) == Err(UnsupportedPayloadType)
    ensures data[end] == 0 && end + 5 > |data| ==> Sections(data, index) == Err(ValueOutOfRange)
    ensures data[end] > 1 ==> Sections(data, index) == Prepend(documents, Sections(data, end + 1))
    decreases |documents|
  {
    if documents == [] {
      AfterSections(data, end);
    } else {
      var d, next := documents[0], index + 1 + |documents[0]|;
      FirstSection(data, index, end, d, SectionsOf(documents[1..]));
      SectionsGoOn(data, next, documents[1..], end);
      SectionsUnfold(data, index, d, next);
      OneMore(d, documents[1..], Sections(data, end + 1));
      HeadTail(documents);
    }
  }

  lemma AfterSections(data: Bytes, end: nat)
    requires end < |data|
    ensures data[end] == 1 ==> Sections(data, end) == Err(UnsupportedPayloadType)
    ensures data[end] == 0 && end + 5 > |data| ==> Sections(data, end) == Err(ValueOutOfRange)
    ensures data[end] > 1 ==> Sections(data, end) == Prepend([], Sections(data, end + 1))
  {
    NoDocument(Sections(data, end + 1));
  }

  lemma SectionsUnfold(data: Bytes, index: nat, d: Bytes, next: nat)
    requires index < |data| && ReadSection(data, index) == Ok(([d], next))
    ensures Sections(data, index) == Prepend([d], Sections(data, next))
  {
  }

  lemma NoDocument(rest: Result<seq<Bytes>, CodecError>)
    ensures Prepend([], rest) == rest
  {
    assert rest.Ok? ==> [] + rest.value == rest.value;
  }

  lemma OneMore(d: Bytes, documents: seq<Bytes>, rest: Result<seq<Bytes>, CodecError>)
    ensures Prepend([d], Prepend(documents, rest)) == Prepend([d] + documents, rest)
  {
    if rest.Ok? {
      Associative([d], documents, rest.value);
    }
  }

  lemma FirstSection(data: Bytes, index: nat, end: nat, d: Bytes, more: Bytes)
    requires IsDocument(d) && index <= end < |data| && data[index..end] == Section(d) + more
    ensures index + 1 + |d| <= end && data[index + 1 + |d|..end] == more
    ensures ReadSection(data, index) == Ok(([d], index + 1 + |d|))
  {
    assert data[index..] == data[index..end] + data[end..];
    Associative(Section(d), more, data[end..]);
    SectionRead(data, index, d, more + data[end..]);
    assert data[index..end][1 + |d|..] == more;
  }

  lemma SectionsStep(data: Bytes, index: nat, d: Bytes, next: nat, rest: seq<Bytes>)
    requires index < |data| && ReadSection(data, index) == Ok(([d], next)) && Sections(data, next) == Ok(rest)
    ensures Sections(data, index) == Ok([d] + rest)
  {
  }

  lemma SectionRead(data: Bytes, index: nat, d: Bytes, tail: Bytes)
    requires IsDocument(d)
    requires index <= |data| && data[index..] == Section(d) + tail
    ensures index + 1 + |d| <= |data| && data[index + 1 + |d|..] == tail
    ensures ReadSection(data, index) == Ok(([d], index + 1 + |d|))
  {
    var view := data[index..];
    assert forall j :: 0 <= j < |view| ==> view[j] == data[index + j];
    assert view[1..1 + |d|] == d;
    assert forall j :: 0 <= j < |d| ==> view[1 + j] == d[j];
    assert view[1 + |d|..] == tail;
    assert Uint32At(data, index + 1) == Uint32At(d, 0);
    assert Slice(data, index + 1, index + 1 + |d|) == d;
  }

  /** The body of an encoded message decodes to its command and its three flags. */
  lemma BodyDecodes(m: Msg)
    ensures |m.Body()| >= 9
    ensures Sections(m.Body(), 4) == Ok([m.command])
    ensures BitSet(Int32At(m.Body(), 0), 1) == m.checksumPresent
    ensures BitSet(Int32At(m.Body(), 0), 2) == m.moreToCome
    ensures BitSet(Int32At(m.Body(), 0), 0x1_0000) == m.exhaustAllowed
    ensures 0 <= Int32At(m.Body(), 0) <= 0x1_0003
  {
    FlagsDecode(m);
    Int32Embedded([], m.Flags(), Section(m.command));
    assert [] + Int32Bytes(m.Flags()) + Section(m.command) == m.Body();
    var one: seq<Bytes> := [m.command];
    assert SectionsOf(one) == Section(m.command) + SectionsOf(one[1..]);
    assert SectionsOf(one) == Section(m.command);
    SectionsInvert(m.Body(), 4, one);
  }

  lemma FlagsDecode(m: Msg)
    ensures BitSet(m.Flags(), OPTS_CHECKSUM_PRESENT) == m.checksumPresent
    ensures BitSet(m.Flags(), OPTS_MORE_TO_COME) == m.moreToCome
    ensures BitSet(m.Flags(), OPTS_EXHAUST_ALLOWED) == m.exhaustAllowed
  {
  }

  /** The four header fields are read back from any message that starts with them. */
  lemma HeaderDecodes(length: int32, requestId: int32, responseTo: int32, opCode: int32, body: Bytes)
    ensures var bytes := HeaderBytes(length, requestId, responseTo, opCode) + body;
            && Int32At(bytes, 0) == length && Int32At(bytes, 4) == requestId
            && Int32At(bytes, 8) == responseTo && Int32At(bytes, 12) == opCode
  {
    var bytes := HeaderBytes(length, requestId, responseTo, opCode) + body;
    Int32RoundTrip(length);
    Int32RoundTrip(requestId);
    Int32RoundTrip(responseTo);
    Int32RoundTrip(opCode);
  }
}
