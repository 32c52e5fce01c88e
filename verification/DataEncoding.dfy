/** `DataEncoder`: the growing buffer behind `ProcessEncode`. */
module DataEncoding {
  import opened Platform
  import opened Codec

  const CHUNK_SIZE := 1024 * 15
  const BUFF_EXTENSION_FACTOR := 2
  const INIT_BUFFER_SIZE := 256

  /** Up to here `blockSize * 2 + incSize`, plus the block's header, stays below the end of `size_t`. */
  const ENCODE_LIMIT: nat := (SIZE_T_MODULUS - 16) / 3

  /** A `DataInfo` with the memory its pointer leads to. */
  datatype DataInfo = DataInfo(data: array?<byte>, length: int)

  lemma Assoc(a: seq<byte>, b: seq<byte>, c: seq<byte>)
    ensures (a + b) + c == a + (b + c)
  {
  }

  lemma NextElem(elems: seq<seq<byte>>, i: nat)
    requires i < |elems|
    ensures Flat(elems[..i + 1]) == Flat(elems[..i]) + elems[i]
    ensures |Flat(elems[..i])| + |elems[i]| <= |Flat(elems)|
  {
    FlatSnoc(elems[..i], elems[i]);
    assert elems[..i] + [elems[i]] == elems[..i + 1];
    FlatAppend(elems[..i + 1], elems[i + 1..]);
    assert elems[..i + 1] + elems[i + 1..] == elems;
  }

  class DataEncoder {
    var buffer: array?<byte>
    var pos: nat
    var allocSuccess: bool

    ghost predicate Valid()
      reads this
    {
      allocSuccess ==> buffer != null && pos <= buffer.Length
    }

    /** The bytes written so far. */
    ghost function Written(): (r: seq<byte>)
      requires Valid() && allocSuccess
      reads this, buffer
      ensures |r| == pos
    {
      buffer[..pos]
    }

    constructor ()
      ensures Valid() && !allocSuccess && pos == 0
    {
      buffer, pos, allocSuccess := null, 0, false;
    }

    method Init()
      requires pos == 0
      modifies this
      ensures Valid() && allocSuccess && fresh(buffer) && Written() == []
    {
      buffer := new byte[INIT_BUFFER_SIZE];
      allocSuccess := true;
    }

    /** Moves the written bytes to a block of `newSize`, chunk by chunk and then the tail; no copy can fail. */
    method ReallocBuffer(newSize: nat) returns (ok: bool)
      requires Valid() && buffer != null && pos <= newSize && newSize + SIZE_T_BYTES < SIZE_T_MODULUS
      modifies this`buffer, this`allocSuccess
      ensures ok == allocSuccess == old(allocSuccess)
      ensures ok ==> fresh(buffer) && buffer.Length == newSize && Written() == old(Written())
      ensures !ok ==> buffer == old(buffer)
    {
      if !allocSuccess {
        return false;
      }
      var p := new byte[newSize];
      var at, leftSize := 0, pos;
      while leftSize >= CHUNK_SIZE
        invariant allocSuccess && buffer == old(buffer) && p.Length == newSize && fresh(p)
        invariant 0 <= at <= at + leftSize == pos <= newSize && pos <= buffer.Length
        invariant p[..at] == buffer[..at] && buffer[..] == old(buffer[..])
        decreases leftSize
      {
        var copied := MemcpyS(p, at, CHUNK_SIZE, buffer, at, CHUNK_SIZE, 0);
        assert copied;
        at, leftSize := at + CHUNK_SIZE, leftSize - CHUNK_SIZE;
      }
      if leftSize > 0 {
        var copied := MemcpyS(p, at, leftSize, buffer, at, leftSize, 0);
        assert copied;
      }
      buffer := p;
      return true;
    }

    /** Room for `incSize` more bytes, in a larger block if need be. */
    method Ensure(incSize: nat) returns (ok: bool)
      requires Valid() && allocSuccess && pos + incSize <= ENCODE_LIMIT
      modifies this`buffer, this`allocSuccess
      ensures ok && Valid() && allocSuccess && Written() == old(Written())
      ensures buffer == old(buffer) || fresh(buffer)
      ensures pos + incSize <= buffer.Length
    {
      if buffer.Length >= WrapSize(pos + incSize) {
        return true;
      }
      ok := ReallocBuffer(WrapSize(WrapSize(buffer.Length * BUFF_EXTENSION_FACTOR) + incSize));
    }

    /** The copy that ends every encoding, with the room ensured before. */
    method Append(bytes: seq<byte>)
      requires Valid() && allocSuccess && pos + |bytes| <= buffer.Length
      modifies this`pos, buffer
      ensures Valid() && Written() == old(Written()) + bytes
    {
      forall i | 0 <= i < |bytes| {
        buffer[pos + i] := bytes[i];
      }
      pos := pos + |bytes|;
    }

    /** The generic case: an object of `|bytes|` bytes. */
    method EncodeFixed(bytes: seq<byte>) returns (ret: RetCode)
      requires Valid() && (allocSuccess ==> pos + |bytes| <= ENCODE_LIMIT)
      modifies this, buffer
      ensures Valid() && allocSuccess == old(allocSuccess) && (buffer == old(buffer) || fresh(buffer))
      ensures ret == if allocSuccess && bytes != [] then Success else Failure
      ensures allocSuccess ==> Written() == old(Written()) + bytes
    {
      if !allocSuccess {
        return Failure;
      }
      if |bytes| == 0 {
        return Failure;
      }
      var ok := Ensure(|bytes|);
      if !ok {
        return Failure;
      }
      Append(bytes);
      return Success;
    }

    method EncodeString(chars: seq<byte>) returns (ret: RetCode)
      requires Valid() && (allocSuccess ==> pos + |Encoding(Str(chars))| <= ENCODE_LIMIT)
      modifies this, buffer
      ensures Valid() && allocSuccess == old(allocSuccess) && (buffer == old(buffer) || fresh(buffer))
      ensures ret == if allocSuccess then Success else Failure
      ensures allocSuccess ==> Written() == old(Written()) + Encoding(Str(chars)) == old(Written()) + (SizeBytes(|chars|) + chars)
    {
      if !allocSuccess {
        return Failure;
      }
      ghost var start, size := Written(), SizeBytes(|chars|);
      Assoc(start, size, chars);
      ret := EncodeFixed(SizeBytes(|chars|));
      if |chars| == 0 || ret != Success {
        return;
      }
      var ok := Ensure(|chars|);
      if !ok {
        return Failure;
      }
      Append(chars);
    }

    /** A size followed by that many elements, each as an object of its own. */
    method EncodeElems(elems: seq<seq<byte>>, ghost width: nat) returns (ret: RetCode)
      requires Valid() && allocSuccess && width > 0 && AllWide(elems, width)
      requires pos + |Flat(elems)| <= ENCODE_LIMIT
      modifies this, buffer
      ensures Valid() && allocSuccess && (buffer == old(buffer) || fresh(buffer))
      ensures ret == Success && Written() == old(Written()) + Flat(elems)
    {
      var i := 0;
      ghost var start := Written();
      while i < |elems|
        invariant 0 <= i <= |elems|
        invariant Valid() && allocSuccess && (buffer == old(buffer) || fresh(buffer))
        invariant Written() == start + Flat(elems[..i])
      {
        NextElem(elems, i);
        Assoc(start, Flat(elems[..i]), elems[i]);
        var code := EncodeFixed(elems[i]);
        if code != Success {
          return Failure;
        }
        i := i + 1;
      }
      assert elems[..i] == elems;
      return Success;
    }

    method EncodeArray(elems: seq<seq<byte>>, width: nat) returns (ret: RetCode)
      requires Valid() && WellFormed(Arr(width, elems))
      requires allocSuccess ==> pos + |Encoding(Arr(width, elems))| <= ENCODE_LIMIT
      modifies this, buffer
      ensures Valid() && allocSuccess == old(allocSuccess) && (buffer == old(buffer) || fresh(buffer))
      ensures ret == if allocSuccess && elems != [] then Success else Failure
      ensures ret.Success? ==> Written() == old(Written()) + Encoding(Arr(width, elems)) == old(Written()) + (SizeBytes(|elems|) + Flat(elems))
    {
      if |elems| == 0 {
        return Failure;
      }
      ghost var start := if allocSuccess then Written() else [];
      var size := SizeBytes(|elems|);
      ret := EncodeFixed(size);
      if ret != Success {
        return Failure;
      }
      ret := EncodeElems(elems, width);
      assert Written() == (start + size) + Flat(elems);
      Assoc(start, size, Flat(elems));
    }

    method EncodeItems(pairs: seq<Pair>) returns (ret: RetCode)
      requires Valid() && WellFormed(Items(pairs))
      requires allocSuccess ==> pos + |Encoding(Items(pairs))| <= ENCODE_LIMIT
      modifies this, buffer
      ensures Valid() && allocSuccess == old(allocSuccess) && (buffer == old(buffer) || fresh(buffer))
      ensures ret == if allocSuccess then Success else Failure
      ensures ret.Success? ==> Written() == old(Written()) + Encoding(Items(pairs))
      ensures ret.Success? ==>
                Written() == old(Written()) + (SizeBytes(2 * |pairs|) + (Flat(Firsts(pairs)) + Flat(Seconds(pairs))))
    {
      var size := SizeBytes(WrapSize(|pairs| * 2));
      assert size == SizeBytes(2 * |pairs|);
      ghost var labels, scores := Flat(Firsts(pairs)), Flat(Seconds(pairs));
      assert Encoding(Items(pairs)) == size + (labels + scores);
      ghost var start := if allocSuccess then Written() else [];
      ret := EncodeFixed(size);
      if ret != Success {
        return Failure;
      }
      LabelsAndScoresAreWide(pairs);
      ret := EncodeElems(Firsts(pairs), PAIR_WIDTH);
      if ret != Success {
        return Failure;
      }
      ret := EncodeElems(Seconds(pairs), PAIR_WIDTH);
      assert Written() == ((start + size) + labels) + scores;
      Assoc(start + size, labels, scores);
      Assoc(start, size, labels + scores);
    }

    method EncodeOneParameter(v: Value) returns (ret: RetCode)
      requires Valid() && WellFormed(v)
      requires allocSuccess ==> pos + |Encoding(v)| <= ENCODE_LIMIT
      modifies this, buffer
      ensures Valid() && allocSuccess == old(allocSuccess) && (buffer == old(buffer) || fresh(buffer))
      ensures ret == if allocSuccess && Encodable(v) then Success else Failure
      ensures ret.Success? ==> Written() == old(Written()) + Encoding(v)
    {
      match v
      case Fixed(bytes) => ret := EncodeFixed(bytes);
      case Str(chars) => ret := EncodeString(chars);
      case Arr(width, elems) => ret := EncodeArray(elems, width);
      case Items(pairs) => ret := EncodeItems(pairs);
    }

    method RecursiveEncode(vs: seq<Value>) returns (ret: RetCode)
      requires Valid() && allocSuccess && forall v :: v in vs ==> WellFormed(v)
      requires pos + |Payload(vs)| <= ENCODE_LIMIT
      modifies this, buffer
      ensures Valid() && allocSuccess && (buffer == old(buffer) || fresh(buffer))
      ensures ret == if forall v :: v in vs ==> Encodable(v) then Success else Failure
      ensures ret.Success? ==> Written() == old(Written()) + Payload(vs)
      decreases |vs|
    {
      if vs == [] {
        return Success;
      }
      Assoc(Written(), Encoding(vs[0]), Payload(vs[1..]));
      ret := EncodeOneParameter(vs[0]);
      if ret != Success {
        return;
      }
      ret := RecursiveEncode(vs[1..]);
      assert forall v :: v in vs <==> v == vs[0] || v in vs[1..];
    }

    /** Adds the trailer and hands out a copy of everything written, unless it is too long for an `int`. */
    method GetSerializedData() returns (ret: RetCode, dataInfo: DataInfo)
      requires Valid() && allocSuccess && pos + SIZE_T_BYTES <= ENCODE_LIMIT
      modifies this, buffer
      ensures ret == if old(pos) + SIZE_T_BYTES <= INT_MAX then Success else Failure
      ensures ret.Success? ==> fresh(dataInfo.data) && dataInfo.length == dataInfo.data.Length
      ensures ret.Success? ==> dataInfo.data[..] == old(Written()) + SizeBytes(|old(Written())|)
      ensures ret.Success? ==> !allocSuccess && buffer == null && pos == 0
    {
      dataInfo := DataInfo(null, 0);
      var code := EncodeFixed(SizeBytes(pos));
      if code != Success || pos == 0 {
        return Failure, dataInfo;
      }
      if pos > INT_MAX {
        return Failure, dataInfo;
      }
      var data := new byte[pos];
      var copied := MemcpyS(data, 0, pos, buffer, 0, pos, 0);
      if !copied {
        return MemoryCopyFailure, dataInfo;
      }
      assert data[..] == buffer[..pos];
      dataInfo := DataInfo(data, pos);
      buffer, pos, allocSuccess := null, 0, false;
      return Success, dataInfo;
    }
  }
}
