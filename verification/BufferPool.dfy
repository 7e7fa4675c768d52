/** The pool of socket buffers that is read as one byte string (src/utils.ts). */
module BufferPools {
  import opened Common

  datatype PoolError = SizeMustBeNonNegative

  // The flat reference: a byte string from which a prefix is taken, or nothing when it is too short.

  function TakeFlat(flat: Bytes, size: nat): Bytes {
    if size > |flat| then [] else flat[..size]
  }

  function DropFlat(flat: Bytes, size: nat): Bytes {
    if size > |flat| then flat else flat[size..]
  }

  /** All or nothing: what is taken and what is left make up the whole, and nothing is taken of too few bytes. */
  lemma TakeAndDrop(flat: Bytes, size: nat)
    ensures TakeFlat(flat, size) + DropFlat(flat, size) == flat
    ensures |TakeFlat(flat, size)| == if size <= |flat| then size else 0
  {
  }

  class BufferPool {
    var buffers: seq<Bytes>
    var length: nat

    ghost predicate Valid()
      reads this
    {
      length == |Flatten(buffers)|
    }

    ghost function Contents(): Bytes
      reads this
    {
      Flatten(buffers)
    }

    constructor ()
      ensures Valid() && Contents() == []
    {
      buffers, length := [], 0;
    }

    method Append(buffer: Bytes)
      requires Valid()
      modifies this
      ensures Valid() && Contents() == old(Contents()) + buffer
    {
      FlattenSnoc(buffers, buffer);
      buffers := buffers + [buffer];
      length := length + |buffer|;
    }

    /** Returns the requested number of bytes without consuming them. */
    method Peek(size: int) returns (r: Result<Bytes, PoolError>)
      requires Valid()
      modifies this
      ensures Valid() && buffers == old(buffers)
      ensures r == if size < 0 then Err(SizeMustBeNonNegative) else Ok(TakeFlat(Contents(), size))
    {
      r := Read(size, false);
    }

    /** Reads the requested number of bytes, optionally consuming them. */
    method Read(size: int, consume: bool := true) returns (r: Result<Bytes, PoolError>)
      requires Valid()
      modifies this
      ensures Valid()
      ensures r == if size < 0 then Err(SizeMustBeNonNegative) else Ok(TakeFlat(old(Contents()), size))
      ensures Contents() == if consume && size >= 0 then DropFlat(old(Contents()), size) else old(Contents())
      ensures !consume ==> buffers == old(buffers)
    {
      if size < 0 {
        return Err(SizeMustBeNonNegative);
      }
      if size > length {
        return Ok([]);
      }
      if size == length {
        // read the whole pool
        r := Ok(Flatten(buffers));
        assert Flatten(buffers) == Flatten(buffers)[..size];
        if consume {
          buffers, length := [], 0;
        }
      } else if size <= |buffers[0]| {
        // the request lies within the first buffer
        r := Ok(buffers[0][..size]);
        assert buffers[0][..size] == Flatten(buffers)[..size];
        if consume {
          var rest := buffers[0][size..];
          assert buffers[0 := rest] == [rest] + buffers[1..];
          assert Flatten(buffers[0 := rest]) == rest + Flatten(buffers[1..]);
          buffers := buffers[0 := rest];
          length := length - size;
        }
      } else {
        r := ReadAcross(size, consume);
      }
    }

    /** The request spans several buffers: copy piece by piece, then drop what was used up. */
    method ReadAcross(size: nat, consume: bool) returns (r: Result<Bytes, PoolError>)
      requires Valid() && size < length
      modifies this
      ensures Valid()
      ensures r == Ok(old(Contents())[..size])
      ensures Contents() == if consume then old(Contents())[size..] else old(Contents())
      ensures !consume ==> buffers == old(buffers)
    {
      ghost var flat := Contents();
      var result := new byte[size];
      var idx, offset, bytesToCopy := 0, 0, size;
      assert buffers[..0] == [];
      while idx < |buffers| && bytesToCopy > |buffers[idx]|
        invariant 0 <= idx <= |buffers| && offset + bytesToCopy == size && 0 <= offset <= size
        invariant buffers == old(buffers) && length == old(length)
        invariant result[..offset] == Flatten(buffers[..idx])
      {
        var part := buffers[idx];
        assert buffers[..idx + 1] == buffers[..idx] + [part];
        FlattenSnoc(buffers[..idx], part);
        assert part[..|part|] == part;
        Copy(part, result, offset, |part|);
        offset, bytesToCopy := offset + |part|, bytesToCopy - |part|;
        idx := idx + 1;
      }
      SplitAt(buffers, idx);
      if idx == |buffers| {
        assert false;
      }
      var part := buffers[idx];
      assert flat == Flatten(buffers[..idx]) + (part + Flatten(buffers[idx + 1..]));
      Copy(part, result, offset, bytesToCopy);
      assert result[..] == result[..size] == flat[..size];
      r := Ok(result[..]);
      if consume {
        var left := [part[bytesToCopy..]] + buffers[idx + 1..];
        assert left[1..] == buffers[idx + 1..];
        assert Flatten(left) == flat[size..];
        buffers := left;
        length := length - size;
      }
    }
  }

  /** `Buffer.copy` of the first `count` bytes of `source` to `target` at `offset`. */
  method Copy(source: Bytes, target: array<byte>, offset: nat, count: nat)
    requires count <= |source| && offset + count <= target.Length
    modifies target
    ensures target[..offset] == old(target[..offset])
    ensures target[offset..offset + count] == source[..count]
    ensures target[..offset + count] == old(target[..offset]) + source[..count]
    ensures target[offset + count..] == old(target[offset + count..])
  {
    forall j | 0 <= j < count {
      target[offset + j] := source[j];
    }
    assert target[..offset + count] == target[..offset] + target[offset..offset + count];
  }

  lemma SplitAt(parts: seq<Bytes>, k: nat)
    requires k <= |parts|
    ensures Flatten(parts) == Flatten(parts[..k]) + Flatten(parts[k..])
    ensures k < |parts| ==> Flatten(parts[k..]) == parts[k] + Flatten(parts[k + 1..])
  {
    assert parts == parts[..k] + parts[k..];
    FlattenAppend(parts[..k], parts[k..]);
  }

  // Any sequence of calls: the pool answers as the flat byte string does.

  datatype Call = CallAppend(buffer: Bytes) | CallPeek(size: int) | CallRead(size: int)

  function FlatAfter(flat: Bytes, call: Call): Bytes {
    match call
    case CallAppend(buffer) => flat + buffer
    case CallPeek(_) => flat
    case CallRead(size) => if size < 0 then flat else DropFlat(flat, size)
  }

  function FlatAnswer(flat: Bytes, call: Call): Result<Bytes, PoolError> {
    match call
    case CallAppend(_) => Ok([])
    case CallPeek(size) => if size < 0 then Err(SizeMustBeNonNegative) else Ok(TakeFlat(flat, size))
    case CallRead(size) => if size < 0 then Err(SizeMustBeNonNegative) else Ok(TakeFlat(flat, size))
  }

  function FlatRun(flat: Bytes, calls: seq<Call>): seq<Result<Bytes, PoolError>>
    decreases |calls|
  {
    if calls == [] then [] else [FlatAnswer(flat, calls[0])] + FlatRun(FlatAfter(flat, calls[0]), calls[1..])
  }

  method Apply(pool: BufferPool, call: Call) returns (answer: Result<Bytes, PoolError>)
    requires pool.Valid()
    modifies pool
    ensures pool.Valid() && pool.Contents() == FlatAfter(old(pool.Contents()), call)
    ensures answer == FlatAnswer(old(pool.Contents()), call)
  {
    match call {
      case CallAppend(buffer) =>
        pool.Append(buffer);
        answer := Ok([]);
      case CallPeek(size) =>
        answer := pool.Peek(size);
      case CallRead(size) =>
        answer := pool.Read(size);
    }
  }

  /** A fresh pool under any sequence of calls gives the answers of a flat byte string. */
  method Replay(calls: seq<Call>) returns (answers: seq<Result<Bytes, PoolError>>)
    ensures answers == FlatRun([], calls)
  {
    var pool := new BufferPool();
    answers := [];
    for i := 0 to |calls|
      invariant pool.Valid() && fresh(pool)
      invariant answers + FlatRun(pool.Contents(), calls[i..]) == FlatRun([], calls)
    {
      ghost var todo := calls[i..];
      assert todo[0] == calls[i] && todo[1..] == calls[i + 1..];
      var answer := Apply(pool, calls[i]);
      Associative(answers, [answer], FlatRun(pool.Contents(), todo[1..]));
      answers := answers + [answer];
    }
  }
}
