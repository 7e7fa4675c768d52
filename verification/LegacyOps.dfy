/** The legacy opcodes: OP_QUERY, OP_GET_MORE and OP_KILL_CURSORS out, OP_REPLY in (src/cmap/commands.ts). */
module LegacyOps {
  import opened Common
  import opened LittleEndian
  import opened OpMsg
  import opened BufferPools

  const OP_QUERY: int32 := 2004
  const OP_GETMORE: int32 := 2005
  const OP_KILL_CURSORS: int32 := 2007

  predicate NulFree(name: Bytes) {
    forall i :: 0 <= i < |name| ==> name[i] != 0
  }

  // ---------------------------------------------------------------- writing at a moving index

  /** `buffer.write(name, index, 'utf8')` and the terminating zero behind it. */
  method WriteCString(buffer: array<byte>, name: Bytes, at: nat)
    requires at + |name| + 1 <= buffer.Length
    modifies buffer
    ensures buffer[..at + |name| + 1] == old(buffer[..at]) + (name + [0])
  {
    Copy(name, buffer, at, |name|);
    buffer[at + |name|] := 0;
    assert buffer[at..at + |name|] == name;
    assert buffer[..at + |name| + 1] == buffer[..at] + buffer[at..at + |name|] + [0];
  }

  // ---------------------------------------------------------------- reading back

  /** Position of the first zero byte from `at` on, or the length when there is none. */
  function NulAt(b: Bytes, at: nat): (r: nat)
    requires at <= |b|
    ensures at <= r <= |b|
    decreases |b| - at
  {
    if at == |b| || b[at] == 0 then at else NulAt(b, at + 1)
  }

  lemma {:induction false} NulAtFinds(b: Bytes, at: nat, z: nat)
    requires at <= z < |b| && b[z] == 0
    ensures NulAt(b, at) <= z
    ensures NulAt(b, at) == z <==> forall j :: at <= j < z ==> b[j] != 0
    decreases |b| - at
  {
    if at < z && b[at] != 0 {
      NulAtFinds(b, at + 1, z);
    }
  }

  // ---------------------------------------------------------------- OP_GET_MORE

  datatype GetMore = GetMore(requestId: int32, ns: Bytes, numberToReturn: int32, cursorId: int64)
  {
    function Length(): nat {
      33 + |ns|
    }

    function Layout(): Bytes {
      HeaderBytes(Length(), requestId, 0, OP_GETMORE) + Int32Bytes(0) + (ns + [0])
      + Int32Bytes(numberToReturn) + Int32Bytes(LowBits(cursorId)) + Int32Bytes(HighBits(cursorId))
    }

    method ToBin() returns (bytes: Bytes)
      ensures bytes == Layout() && |bytes| == Length()
      ensures Int32At(bytes, 0) == |bytes| <==> Length() <= MAX_INT32
    {
      var length := 4 + |ns| + 1 + 4 + 8 + 16;
      var buffer := new byte[length];
      WriteHeader(buffer, length, requestId, 0, OP_GETMORE);
      WriteInt32LE(buffer, 0, 16);
      WriteCString(buffer, ns, 20);
      var index := 20 + |ns| + 1;
      WriteInt32LE(buffer, numberToReturn, index);
      index := index + 4;
      WriteInt32LE(buffer, LowBits(cursorId), index);
      index := index + 4;
      WriteInt32LE(buffer, HighBits(cursorId), index);
      bytes := buffer[..index + 4];
      DeclaredLength();
    }

    lemma DeclaredLength()
      ensures |Layout()| == Length() && (Int32At(Layout(), 0) == |Layout()| <==> Length() <= MAX_INT32)
    {
      assert Layout()[0..4] == Int32Bytes(Length());
      WrappedSlice(Layout(), 0, Length());
      WrapBytes(Length());
    }
  }

  function DecodeGetMore(b: Bytes): Option<GetMore> {
    if |b| < 20 || Int32At(b, 12) != OP_GETMORE then None else
      var z := NulAt(b, 20);
      if z + 13 > |b| then None
      else Some(GetMore(Int32At(b, 4), b[20..z], Int32At(b, z + 1), LongOf(Int32At(b, z + 5), Int32At(b, z + 9))))
  }

  /** The fields come back exactly when the namespace, which this constructor does not check, holds no zero byte. */
  lemma GetMoreInverts(g: GetMore)
    ensures DecodeGetMore(g.Layout()) == Some(g) <==> NulFree(g.ns)
    ensures var b := g.Layout();
            |b| >= 20 && Int32At(b, 8) == 0 && Int32At(b, 12) == 2005 && Int32At(b, 16) == 0
  {
    var b, z := g.Layout(), 20 + |g.ns|;
    GetMoreParts(g);
    NulAtFinds(b, 20, z);
    assert forall j :: 20 <= j < z ==> b[j] == b[20..z][j - 20];
    LongRoundTrip(g.cursorId);
  }

  /** A namespace that is one zero byte is read back as empty. */
  lemma GetMoreLoses(requestId: int32, numberToReturn: int32, cursorId: int64)
    ensures var g := GetMore(requestId, [0], numberToReturn, cursorId);
            DecodeGetMore(g.Layout()).Some? && DecodeGetMore(g.Layout()).value.ns == []
  {
    var g := GetMore(requestId, [0], numberToReturn, cursorId);
    GetMoreParts(g);
    var b := g.Layout();
    assert b[20] == b[20..21][0];
  }

  lemma GetMoreParts(g: GetMore)
    ensures var b, z := g.Layout(), 20 + |g.ns|;
            && |b| == z + 13 && b[z] == 0 && b[20..z] == g.ns && Int32At(b, 8) == 0 && Int32At(b, 16) == 0
            && Int32At(b, 4) == g.requestId && Int32At(b, 12) == OP_GETMORE && Int32At(b, z + 1) == g.numberToReturn
            && Int32At(b, z + 5) == LowBits(g.cursorId) && Int32At(b, z + 9) == HighBits(g.cursorId)
  {
    var b, z := g.Layout(), 20 + |g.ns|;
    var low, high := Int32Bytes(LowBits(g.cursorId)), Int32Bytes(HighBits(g.cursorId));
    QueryParts(HeaderBytes(g.Length(), g.requestId, 0, OP_GETMORE), Int32Bytes(0), g.ns,
               Int32Bytes(g.numberToReturn), low, high);
    HeaderParts(g.Length(), g.requestId, OP_GETMORE, b);
    Int32Slice(b, 16, 0);
    Int32Slice(b, z + 1, g.numberToReturn);
    Int32Slice(b, z + 5, LowBits(g.cursorId));
    assert b[z + 9..z + 13] == b[z + 9..];
    Int32Slice(b, z + 9, HighBits(g.cursorId));
  }

  // ---------------------------------------------------------------- OP_KILL_CURSORS

  datatype KillCursor = KillCursor(requestId: int32, cursorIds: seq<int64>)
  {
    function Length(): nat {
      24 + 8 * |cursorIds|
    }

    function Layout(): Bytes {
      HeaderBytes(Length(), requestId, 0, OP_KILL_CURSORS) + Int32Bytes(0) + Int32Bytes(|cursorIds|)
      + IdBytes(cursorIds)
    }

    method ToBin() returns (bytes: Bytes)
      ensures bytes == Layout() && |bytes| == Length()
      ensures Int32At(bytes, 0) == |bytes| <==> Length() <= MAX_INT32
    {
      var length := 4 + 4 + 16 + |cursorIds| * 8;
      var buffer := new byte[length];
      WriteHeader(buffer, length, requestId, 0, OP_KILL_CURSORS);
      WriteInt32LE(buffer, 0, 16);
      StoreInt32(buffer, |cursorIds|, 20);
      WriteIds(buffer, cursorIds, 24);
      IdBytesLength(cursorIds);
      bytes := buffer[..24 + 8 * |cursorIds|];
      DeclaredLength();
    }

    lemma DeclaredLength()
      ensures |Layout()| == Length() && (Int32At(Layout(), 0) == |Layout()| <==> Length() <= MAX_INT32)
    {
      IdBytesLength(cursorIds);
      assert Layout()[0..4] == Int32Bytes(Length());
      WrappedSlice(Layout(), 0, Length());
      WrapBytes(Length());
    }
  }

  /** Writes all the cursor ids, low half first. */
  method WriteIds(buffer: array<byte>, ids: seq<int64>, at: nat)
    requires at + 8 * |ids| <= buffer.Length
    modifies buffer
    ensures buffer[..at + 8 * |ids|] == old(buffer[..at]) + IdBytes(ids)
  {
    ghost var front := buffer[..at];
    var index := at;
    for i := 0 to |ids|
      invariant index == at + 8 * i
      invariant buffer[..index] == front + IdBytes(ids[..i])
    {
      WriteInt32LE(buffer, LowBits(ids[i]), index);
      WriteInt32LE(buffer, HighBits(ids[i]), index + 4);
      assert buffer[..index + 8] == front + IdBytes(ids[..i]) + OneId(ids[i]);
      index := index + 8;
      assert ids[..i + 1] == ids[..i] + [ids[i]];
      IdBytesSnoc(ids[..i], ids[i]);
      Associative(front, IdBytes(ids[..i]), OneId(ids[i]));
    }
    assert ids[..|ids|] == ids;
  }

  function OneId(id: int64): Bytes {
    Int32Bytes(LowBits(id)) + Int32Bytes(HighBits(id))
  }

  function IdBytes(ids: seq<int64>): Bytes {
    if ids == [] then [] else OneId(ids[0]) + IdBytes(ids[1..])
  }

  lemma {:induction false} IdBytesSnoc(ids: seq<int64>, id: int64)
    ensures IdBytes(ids + [id]) == IdBytes(ids) + OneId(id)
  {
    if ids == [] {
      assert IdBytes([id]) == OneId(id) + IdBytes([]);
    } else {
      assert (ids + [id])[1..] == ids[1..] + [id];
      IdBytesSnoc(ids[1..], id);
    }
  }

  lemma {:induction false} IdBytesLength(ids: seq<int64>)
    ensures |IdBytes(ids)| == 8 * |ids|
  {
    if ids != [] {
      IdBytesLength(ids[1..]);
    }
  }

  function DecodeIds(b: Bytes, count: nat): seq<int64>
    requires |b| == 8 * count
  {
    if count == 0 then [] else [LongOf(Int32At(b, 0), Int32At(b, 4))] + DecodeIds(b[8..], count - 1)
  }

  function DecodeKillCursor(b: Bytes): Option<KillCursor> {
    if |b| < 24 || Int32At(b, 12) != OP_KILL_CURSORS then None else
      var count := Int32At(b, 20);
      if count < 0 || |b| != 24 + 8 * count then None
      else Some(KillCursor(Int32At(b, 4), DecodeIds(b[24..], count)))
  }

  lemma {:induction false} IdsInvert(ids: seq<int64>)
    ensures |IdBytes(ids)| == 8 * |ids| && DecodeIds(IdBytes(ids), |ids|) == ids
  {
    IdBytesLength(ids);
    if ids != [] {
      var b := IdBytes(ids);
      IdsInvert(ids[1..]);
      assert b[0..4] == Int32Bytes(LowBits(ids[0]));
      Int32Slice(b, 0, LowBits(ids[0]));
      assert b[4..8] == Int32Bytes(HighBits(ids[0]));
      Int32Slice(b, 4, HighBits(ids[0]));
      assert b[8..] == IdBytes(ids[1..]);
      LongRoundTrip(ids[0]);
      HeadTail(ids);
    }
  }

  /** A list of 64-bit cursor ids is read back in order, exactly when its length fits the count field. */
  lemma KillCursorInverts(k: KillCursor)
    ensures DecodeKillCursor(k.Layout()) == Some(k) <==> |k.cursorIds| <= MAX_INT32
    ensures var b := k.Layout();
            |b| >= 24 && Int32At(b, 8) == 0 && Int32At(b, 12) == 2007 && Int32At(b, 16) == 0
  {
    IdsInvert(k.cursorIds);
    var b, ids := k.Layout(), IdBytes(k.cursorIds);
    var count := Int32Bytes(|k.cursorIds|);
    WrapBytes(k.Length());
    HeaderDecodes(Wrap32(k.Length()), k.requestId, 0, OP_KILL_CURSORS, Int32Bytes(0) + count + ids);
    KillCursorLayout(HeaderBytes(k.Length(), k.requestId, 0, OP_KILL_CURSORS), Int32Bytes(0), count, ids);
    WrappedSlice(b, 20, |k.cursorIds|);
    WrapBytes(|k.cursorIds|);
    Int32Slice(b, 16, 0);
  }

  /** One id more than the count field holds: the count wraps to a negative number, and nothing is read back. */
  lemma KillCursorLoses(k: KillCursor)
    requires |k.cursorIds| == MAX_INT32 + 1
    ensures DecodeKillCursor(k.Layout()) == None
  {
    IdBytesLength(k.cursorIds);
    var b, count, ids := k.Layout(), Int32Bytes(|k.cursorIds|), IdBytes(k.cursorIds);
    KillCursorLayout(HeaderBytes(k.Length(), k.requestId, 0, OP_KILL_CURSORS), Int32Bytes(0), count, ids);
    WrappedSlice(b, 20, |k.cursorIds|);
  }

  lemma KillCursorLayout(header: Bytes, zero: Bytes, count: Bytes, ids: Bytes)
    requires |header| == 16 && |zero| == 4 && |count| == 4
    ensures var b := header + zero + count + ids;
            b == header + (zero + count + ids) && b[16..20] == zero && b[20..24] == count && b[24..] == ids
  {
  }

  // ---------------------------------------------------------------- OP_QUERY

  datatype QueryFlags = QueryFlags(tailable: bool, secondaryOk: bool, oplogReplay: bool, noCursorTimeout: bool,
                                   awaitData: bool, exhaust: bool, partial: bool)
  {
    function Bits(): int32 {
      (if tailable then 2 else 0) + (if secondaryOk then 4 else 0) + (if oplogReplay then 8 else 0)
      + (if noCursorTimeout then 16 else 0) + (if awaitData then 32 else 0) + (if exhaust then 64 else 0)
      + (if partial then 128 else 0)
    }
  }

  function DecodeFlags(bits: int32): QueryFlags {
    QueryFlags(BitSet(bits, 2), BitSet(bits, 4), BitSet(bits, 8), BitSet(bits, 16), BitSet(bits, 32),
               BitSet(bits, 64), BitSet(bits, 128))
  }

  datatype QueryError = NamespaceContainsNul

  /** A query; an empty or absent returnFieldSelector is not sent. */
  datatype Query = Query(requestId: int32, flags: QueryFlags, ns: Bytes, numberToSkip: int32, batchSize: int32,
                         query: BsonDocument, returnFieldSelector: Option<BsonDocument>)
  {
    function Documents(): Bytes {
      query + if returnFieldSelector.Some? then returnFieldSelector.value else []
    }

    function Length(): nat {
      29 + |ns| + |Documents()|
    }

    function Front(): Bytes {
      HeaderBytes(Length(), requestId, 0, OP_QUERY) + Int32Bytes(flags.Bits()) + (ns + [0])
      + Int32Bytes(numberToSkip) + Int32Bytes(batchSize)
    }

    function Layout(): Bytes {
      Front() + Documents()
    }

    /** The constructor's check of the namespace, then `toBin`. */
    method ToBin() returns (r: Result<seq<Bytes>, QueryError>)
      ensures r.Err? <==> !NulFree(ns)
      ensures r.Ok? ==>
                && Flatten(r.value) == Layout() && |Layout()| == Length()
                && (Int32At(Layout(), 0) == |Layout()| <==> Length() <= MAX_INT32)
    {
      var z := FindNul(ns);
      if z < |ns| {
        return Err(NamespaceContainsNul);
      }
      var header := new byte[16 + 4 + |ns| + 1 + 4 + 4];
      var projection := if returnFieldSelector.Some? then [returnFieldSelector.value] else [];
      var projectionLength := if returnFieldSelector.Some? then |returnFieldSelector.value| else 0;
      var totalLength := header.Length + |query| + projectionLength;
      WriteHeader(header, totalLength, requestId, 0, OP_QUERY);
      WriteInt32LE(header, flags.Bits(), 16);
      WriteCString(header, ns, 20);
      var index := 20 + |ns| + 1;
      WriteInt32LE(header, numberToSkip, index);
      WriteInt32LE(header, batchSize, index + 4);
      var front := header[..index + 8];
      assert front == Front();
      r := Ok(Pieces(front));
      FlattenPieces(front);
      DeclaredLength();
    }

    lemma DeclaredLength()
      ensures |Layout()| == Length() && (Int32At(Layout(), 0) == |Layout()| <==> Length() <= MAX_INT32)
    {
      assert Layout()[0..4] == Int32Bytes(Length());
      WrappedSlice(Layout(), 0, Length());
      WrapBytes(Length());
    }

    function Pieces(front: Bytes): seq<Bytes> {
      if returnFieldSelector.Some? then [front, query, returnFieldSelector.value] else [front, query, []]
    }

    lemma FlattenPieces(front: Bytes)
      ensures Flatten(Pieces(front)) == front + Documents()
    {
      FlattenThree(front, query, if returnFieldSelector.Some? then returnFieldSelector.value else []);
    }
  }

  /** `ns.indexOf('\x00')`, with the length for "not found". */
  method FindNul(name: Bytes) returns (z: nat)
    ensures z <= |name| && (z == |name| <==> NulFree(name))
  {
    z := 0;
    while z < |name| && name[z] != 0
      invariant z <= |name| && forall i :: 0 <= i < z ==> name[i] != 0
    {
      z := z + 1;
    }
  }

  function DecodeQuery(b: Bytes): Option<Query> {
    if |b| < 20 || Int32At(b, 12) != OP_QUERY then None else
      var z := NulAt(b, 20);
      if z + 13 > |b| then None else
        var size, rest := Int32At(b, z + 9), b[z + 9..];
        if size < 0 || size > |rest| || !IsDocument(rest[..size]) then None else
          var query, selector := rest[..size], rest[size..];
          if selector != [] && !IsDocument(selector) then None else
            Some(Query(Int32At(b, 4), DecodeFlags(Int32At(b, 16)), b[20..z], Int32At(b, z + 1), Int32At(b, z + 5),
                       query,
                       if selector == [] then None else Some(selector)))
  }

  /** Every query the encoder accepts is read back: ids, flags, namespace, skip, batch size and both documents. */
  lemma QueryInverts(q: Query)
    requires NulFree(q.ns)
    ensures DecodeQuery(q.Layout()) == Some(q)
    ensures |q.Layout()| >= 20 && Int32At(q.Layout(), 8) == 0 && Int32At(q.Layout(), 12) == 2004
  {
    var b, z := q.Layout(), 20 + |q.ns|;
    QueryFields(q);
    NulAtFinds(b, 20, z);
    assert forall j :: 20 <= j < z ==> b[j] == b[20..z][j - 20];
    FlagBits(q.flags);
    QueryDocuments(q);
  }

  lemma QueryFields(q: Query)
    ensures var b, z := q.Layout(), 20 + |q.ns|;
            && |b| >= z + 9 && b[z] == 0 && b[20..z] == q.ns && b[z + 9..] == q.Documents() && Int32At(b, 8) == 0
            && Int32At(b, 4) == q.requestId && Int32At(b, 12) == OP_QUERY && Int32At(b, 16) == q.flags.Bits()
            && Int32At(b, z + 1) == q.numberToSkip && Int32At(b, z + 5) == q.batchSize
  {
    var b, z := q.Layout(), 20 + |q.ns|;
    QueryParts(HeaderBytes(q.Length(), q.requestId, 0, OP_QUERY), Int32Bytes(q.flags.Bits()), q.ns,
               Int32Bytes(q.numberToSkip), Int32Bytes(q.batchSize), q.Documents());
    HeaderParts(q.Length(), q.requestId, OP_QUERY, b);
    Int32Slice(b, 16, q.flags.Bits());
    Int32Slice(b, z + 1, q.numberToSkip);
    Int32Slice(b, z + 5, q.batchSize);
  }

  /** Where the parts of a query lie. */
  lemma QueryParts(header: Bytes, flags: Bytes, ns: Bytes, skip: Bytes, size: Bytes, documents: Bytes)
    requires |header| == 16 && |flags| == 4 && |skip| == 4 && |size| == 4
    ensures var b, z := header + flags + (ns + [0]) + skip + size + documents, 20 + |ns|;
            && |b| == z + 9 + |documents| && b[..16] == header && b[16..20] == flags && b[20..z] == ns && b[z] == 0
            && b[z + 1..z + 5] == skip && b[z + 5..z + 9] == size && b[z + 9..] == documents
  {
  }

  /** The fields of a header behind its length. */
  lemma HeaderParts(length: int, requestId: int32, opCode: int32, b: Bytes)
    requires |b| >= 16 && b[..16] == HeaderBytes(length, requestId, 0, opCode)
    ensures Int32At(b, 4) == requestId && Int32At(b, 8) == 0 && Int32At(b, 12) == opCode
  {
    var h := HeaderBytes(length, requestId, 0, opCode);
    assert b[4..8] == h[4..8] == Int32Bytes(requestId);
    assert b[8..12] == h[8..12] == Int32Bytes(0);
    assert b[12..16] == h[12..16] == Int32Bytes(opCode);
    Int32Slice(b, 4, requestId);
    Int32Slice(b, 8, 0);
    Int32Slice(b, 12, opCode);
  }

  lemma QueryDocuments(q: Query)
    ensures var docs := q.Documents();
            && |docs| >= 5 && Int32At(docs, 0) == |q.query| && docs[..|q.query|] == q.query
            && docs[|q.query|..] == if q.returnFieldSelector.Some? then q.returnFieldSelector.value else []
  {
    assert Uint32At(q.Documents(), 0) == Uint32At(q.query, 0);
  }

  lemma FlagBits(f: QueryFlags)
    ensures DecodeFlags(f.Bits()) == f
  {
    LowFlags(f);
    HighFlags(f);
  }

  lemma LowFlags(f: QueryFlags)
    ensures BitSet(f.Bits(), 2) == f.tailable && BitSet(f.Bits(), 4) == f.secondaryOk
    ensures BitSet(f.Bits(), 8) == f.oplogReplay
  {
    var bits := f.Bits();
    var r4 := (if f.noCursorTimeout then 1 else 0) + (if f.awaitData then 2 else 0) + (if f.exhaust then 4 else 0)
              + (if f.partial then 8 else 0);
    var r3 := (if f.oplogReplay then 1 else 0) + 2 * r4;
    var r2 := (if f.secondaryOk then 1 else 0) + 2 * r3;
    var r1 := (if f.tailable then 1 else 0) + 2 * r2;
    assert bits / 2 == r1 && bits / 4 == r2 && bits / 8 == r3;
  }

  lemma HighFlags(f: QueryFlags)
    ensures BitSet(f.Bits(), 16) == f.noCursorTimeout && BitSet(f.Bits(), 32) == f.awaitData
    ensures BitSet(f.Bits(), 64) == f.exhaust && BitSet(f.Bits(), 128) == f.partial
  {
    var bits := f.Bits();
    var r7 := if f.partial then 1 else 0;
    var r6 := (if f.exhaust then 1 else 0) + 2 * r7;
    var r5 := (if f.awaitData then 1 else 0) + 2 * r6;
    var r4 := (if f.noCursorTimeout then 1 else 0) + 2 * r5;
    assert bits / 16 == r4 && bits / 32 == r5 && bits / 64 == r6 && bits / 128 == r7;
  }

  // ---------------------------------------------------------------- OP_REPLY

  /** `data[i]` used in a bitwise expression: a missing byte counts as zero. */
  function ByteAt(b: Bytes, i: int): byte {
    if 0 <= i < |b| then b[i] else 0
  }

  function LooseInt32(b: Bytes, at: int): int32 {
    Signed32(Uint32At([ByteAt(b, at), ByteAt(b, at + 1), ByteAt(b, at + 2), ByteAt(b, at + 3)], 0))
  }

  /** `Buffer.slice` on any bounds: negative ones count from the end, all are clamped. */
  function LooseSlice(b: Bytes, start: int, end: int): Bytes {
    var lo := LooseBound(b, start);
    var hi := LooseBound(b, end);
    if lo < hi then b[lo..hi] else []
  }

  function LooseBound(b: Bytes, i: int): (r: nat)
    ensures r <= |b|
  {
    if i < 0 then (if |b| + i < 0 then 0 else |b| + i) else if i > |b| then |b| else i
  }

  /** The documents the reply loop cuts out, in raw mode, whatever the bytes are. */
  function RawDocuments(data: Bytes, index: int, count: nat): seq<Bytes>
    decreases count
  {
    if count == 0 then [] else
      var bsonSize := LooseInt32(data, index);
      [LooseSlice(data, index, index + bsonSize)] + RawDocuments(data, index + bsonSize, count - 1)
  }

  lemma RawUnfold(data: Bytes, index: int, count: nat)
    requires count > 0
    ensures var next := index + LooseInt32(data, index);
            RawDocuments(data, index, count) == [LooseSlice(data, index, next)] + RawDocuments(data, next, count - 1)
  {
  }

  class Response {
    const data: Bytes
    const responseFlags: int32
    const cursorId: int64
    const startingFrom: int32
    const numberReturned: nat
    var documents: seq<Bytes>
    var parsed: bool

    constructor (body: Bytes)
      requires |body| >= 20 && Int32At(body, 16) >= 0
      ensures data == body && !parsed && responseFlags == Int32At(body, 0)
      ensures cursorId == LongOf(Int32At(body, 4), Int32At(body, 8))
      ensures startingFrom == Int32At(body, 12) && numberReturned == Int32At(body, 16)
    {
      data := body;
      responseFlags := Int32At(body, 0);
      cursorId := LongOf(Int32At(body, 4), Int32At(body, 8));
      startingFrom := Int32At(body, 12);
      numberReturned := Int32At(body, 16);
      documents, parsed := [], false;
    }

    /** `Response.parse` in raw mode. */
    method Parse()
      modifies this
      ensures parsed
      ensures documents == if old(parsed) then old(documents) else RawDocuments(data, 20, numberReturned)
    {
      if parsed {
        return;
      }
      var index: int := 20;
      documents := [];
      for i := 0 to numberReturned
        invariant !parsed
        invariant documents + RawDocuments(data, index, numberReturned - i) == RawDocuments(data, 20, numberReturned)
      {
        var bsonSize := LooseInt32(data, index);
        var document := LooseSlice(data, index, index + bsonSize);
        RawUnfold(data, index, numberReturned - i);
        Associative(documents, [document], RawDocuments(data, index + bsonSize, numberReturned - i - 1));
        documents := documents + [document];
        index := index + bsonSize;
      }
      parsed := true;
    }
  }

  /** A reply body of any list of length-prefixed documents gives exactly that list. */
  lemma {:induction false} RawDocumentsInvert(data: Bytes, index: nat, docs: seq<Bytes>)
    requires forall i :: 0 <= i < |docs| ==> IsDocument(docs[i])
    requires index <= |data| && data[index..] == Flatten(docs)
    ensures RawDocuments(data, index, |docs|) == docs
    decreases |docs|
  {
    if docs != [] {
      var d, rest := docs[0], docs[1..];
      var next, tail := index + |d|, Flatten(rest);
      DocumentRead(data, index, d, tail, next);
      RawDocumentsInvert(data, next, rest);
      RawStep(data, index, |rest|, d, rest, next);
      HeadTail(docs);
    }
  }

  lemma RawStep(data: Bytes, index: int, count: nat, d: Bytes, rest: seq<Bytes>, next: int)
    requires LooseInt32(data, index) == |d| && next == index + |d| && LooseSlice(data, index, next) == d
    requires RawDocuments(data, next, count) == rest
    ensures RawDocuments(data, index, count + 1) == [d] + rest
  {
  }

  lemma DocumentRead(data: Bytes, index: nat, d: Bytes, tail: Bytes, next: nat)
    requires IsDocument(d) && index <= |data| && data[index..] == d + tail && next == index + |d|
    ensures next <= |data| && data[next..] == tail
    ensures LooseInt32(data, index) == |d| && LooseSlice(data, index, next) == d
  {
    var view := data[index..];
    assert forall j :: 0 <= j < |view| ==> view[j] == data[index + j];
    assert forall j :: 0 <= j < |d| ==> view[j] == d[j];
    assert data[index..next] == d;
    assert data[next..] == view[|d|..];
    assert LooseInt32(data, index) == Int32At(d, 0);
  }

  /** The whole reply: fixed fields and documents. */
  method ParseReply(flags: int32, cursorId: int64, startingFrom: int32, docs: seq<Bytes>)
    returns (documents: seq<Bytes>, id: int64)
    requires |docs| <= MAX_INT32 && forall i :: 0 <= i < |docs| ==> IsDocument(docs[i])
    ensures documents == docs && id == cursorId
  {
    var count: int32 := |docs|;
    var body := Int32Bytes(flags) + OneId(cursorId) + Int32Bytes(startingFrom) + Int32Bytes(count) + Flatten(docs);
    assert body[4..8] == Int32Bytes(LowBits(cursorId));
    Int32Slice(body, 4, LowBits(cursorId));
    assert body[8..12] == Int32Bytes(HighBits(cursorId));
    Int32Slice(body, 8, HighBits(cursorId));
    assert body[16..20] == Int32Bytes(count);
    Int32Slice(body, 16, count);
    LongRoundTrip(cursorId);
    var response := new Response(body);
    response.Parse();
    assert body[20..] == Flatten(docs);
    RawDocumentsInvert(body, 20, docs);
    documents, id := response.documents, response.cursorId;
  }
}
