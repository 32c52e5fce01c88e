/** `DataDecoder`: reads typed values from a received buffer. */
module DataDecoding {
  import opened Platform
  import opened Codec

  /** Elements read before the rest was parsed. */
  ghost function Behind(done: seq<seq<byte>>, p: Parsed<seq<seq<byte>>>): Parsed<seq<seq<byte>>> {
    match p
    case Parsed(es, rest) => Parsed(done + es, rest)
    case Rejected => Rejected
  }

  lemma BehindOne(done: seq<seq<byte>>, width: nat, n: nat, s: seq<byte>)
    requires n > 0
    ensures width > |s| ==> Behind(done, ParseElems(width, n, s)).Rejected?
    ensures width <= |s| ==>
              Behind(done, ParseElems(width, n, s)) == Behind(done + [s[..width]], ParseElems(width, n - 1, s[width..]))
  {
    if width <= |s| && ParseElems(width, n - 1, s[width..]).Parsed? {
      var es := ParseElems(width, n - 1, s[width..]).value;
      assert done + ([s[..width]] + es) == (done + [s[..width]]) + es;
    }
  }

  class DataDecoder {
    const buffer: array<byte>
    const size: nat
    var pos: nat

    ghost predicate Valid()
      reads this
    {
      pos <= size <= buffer.Length && size <= INT_MAX
    }

    /** The bytes not yet read. */
    ghost function Left(): (r: seq<byte>)
      requires Valid()
      reads this, buffer
      ensures |r| == size - pos
    {
      buffer[pos..size]
    }

    constructor (buffer: array<byte>, length: nat)
      requires length <= buffer.Length && length <= INT_MAX
      ensures Valid() && pos == 0 && size == length && this.buffer == buffer
    {
      this.buffer, size, pos := buffer, length, 0;
    }

    /** Whether `n` more bytes are there; the sum cannot wrap, as neither term exceeds the buffer's size. */
    predicate Ensure(n: nat)
      requires Valid()
      reads this
      ensures Ensure(n) <==> n <= size - pos
    {
      n <= size && WrapSize(pos + n) <= size
    }

    method DecodeFixed(width: nat) returns (ret: RetCode, bytes: seq<byte>)
      requires Valid()
      modifies this
      ensures Valid()
      ensures ret == if 0 < width <= |old(Left())| then Success else Failure
      ensures ret.Success? ==> bytes == old(Left())[..width] && Left() == old(Left())[width..]
      ensures !ret.Success? ==> pos == old(pos)
    {
      bytes := [];
      if width == 0 {
        return Failure, bytes;
      }
      if !Ensure(width) {
        return Failure, bytes;
      }
      bytes := buffer[pos..pos + width];
      pos := pos + width;
      return Success, bytes;
    }

    method DecodeSize() returns (ret: RetCode, n: nat)
      requires Valid()
      modifies this
      ensures Valid() && (ret.Success? <==> ParseSize(old(Left())).Parsed?)
      ensures ret.Success? ==> ParseSize(old(Left())) == Parsed(n, Left()) && n < SIZE_T_MODULUS
    {
      var code, bytes := DecodeFixed(SIZE_T_BYTES);
      if code == Success {
        SizeRoundTrip(0, bytes);
      }
      return code, FromLittleEndian(bytes);
    }

    method DecodeString() returns (ret: RetCode, v: Value)
      requires Valid()
      modifies this
      ensures Valid() && (ret.Success? <==> ParseOne(TStr, old(Left())).Parsed?)
      ensures ret.Success? ==> ParseOne(TStr, old(Left())) == Parsed(v, Left())
    {
      v := Str([]);
      var code, len := DecodeSize();
      if code != Success {
        return Failure, v;
      }
      if len == 0 {
        assert Left()[..0] == [] && Left()[0..] == Left();
        return Success, v;
      }
      if !Ensure(len) {
        return Failure, v;
      }
      ghost var left := Left();
      v := Str(buffer[pos..pos + len]);
      pos := pos + len;
      assert v.chars == left[..len] && Left() == left[len..];
      return Success, v;
    }

    method DecodeElems(width: nat, n: nat) returns (ret: RetCode, elems: seq<seq<byte>>)
      requires Valid() && width > 0
      modifies this
      ensures Valid() && (ret.Success? <==> ParseElems(width, n, old(Left())).Parsed?)
      ensures ret.Success? ==> ParseElems(width, n, old(Left())) == Parsed(elems, Left())
    {
      elems := [];
      var i := 0;
      ghost var all := ParseElems(width, n, Left());
      assert all.Parsed? ==> [] + all.value == all.value;
      while i < n
        invariant 0 <= i <= n && Valid()
        invariant all == Behind(elems, ParseElems(width, n - i, Left()))
      {
        BehindOne(elems, width, n - i, Left());
        var code, e := DecodeFixed(width);
        if code != Success {
          return Failure, [];
        }
        elems := elems + [e];
        i := i + 1;
      }
      assert elems + [] == elems;
      return Success, elems;
    }

    method DecodeOneParameter(t: Type) returns (ret: RetCode, v: Value)
      requires Valid()
      modifies this
      ensures Valid() && (ret.Success? <==> ParseOne(t, old(Left())).Parsed?)
      ensures ret.Success? ==> ParseOne(t, old(Left())) == Parsed(v, Left())
    {
      match t
      case TFixed(width) =>
        var code, bytes := DecodeFixed(width);
        return code, Fixed(bytes);
      case TStr =>
        ret, v := DecodeString();
      case TArr(width, vacant) =>
        if !vacant || width == 0 {
          return Failure, Str([]);
        }
        var code, n := DecodeSize();
        if code != Success {
          return Failure, Str([]);
        }
        var elems;
        ret, elems := DecodeElems(width, n);
        v := Arr(width, elems);
    }

    method RecursiveDecode(ts: seq<Type>) returns (ret: RetCode, vs: seq<Value>)
      requires Valid()
      modifies this
      ensures Valid() && (ret.Success? <==> ParseAll(ts, old(Left())).Parsed?)
      ensures ret.Success? ==> ParseAll(ts, old(Left())) == Parsed(vs, Left())
      decreases |ts|
    {
      if ts == [] {
        return Success, [];
      }
      var code, v := DecodeOneParameter(ts[0]);
      if code != Success {
        return code, [];
      }
      ret, vs := RecursiveDecode(ts[1..]);
      vs := [v] + vs;
    }

    /** The trailer: it must end the buffer and count the bytes before it, in wrapping arithmetic. */
    method CheckDataEnd() returns (ok: bool)
      requires Valid()
      modifies this
      ensures ok <==> ParseSize(old(Left())).Parsed? && ParseSize(old(Left())).rest == [] &&
                      ParseSize(old(Left())).value + SIZE_T_BYTES == size
    {
      var code, dataSize := DecodeSize();
      if code != Success {
        return false;
      }
      return pos == size && pos == WrapSize(dataSize + SIZE_T_BYTES);
    }
  }
}

/** `EncdecFacade`: one call encodes or decodes a whole argument list. */
module EncdecFacade {
  import opened Platform
  import opened Codec
  import opened DataEncoding
  import opened DataDecoding

  /** Succeeds exactly when every argument can be encoded and the message's length fits an `int`. */
  method ProcessEncode(vs: seq<Value>) returns (ret: RetCode, dataInfo: DataInfo)
    requires forall v :: v in vs ==> match v
                                     case Fixed(_) => true
                                     case Str(chars) => |chars| < SIZE_T_MODULUS
                                     case Arr(width, elems) => 0 < width && |elems| < SIZE_T_MODULUS && forall e :: e in elems ==> |e| == width
                                     case Items(pairs) => 2 * |pairs| < SIZE_T_MODULUS && forall p :: p in pairs ==> |p.first| == |p.second| == 4
    requires |Message(vs)| <= ENCODE_LIMIT
    ensures ret == Success || ret == Failure
    ensures ret.Success? <==>
              && |Message(vs)| <= INT_MAX
              && forall v :: v in vs ==> (v.Fixed? ==> v.bytes != []) && (v.Arr? ==> v.elems != [])
    ensures ret.Success? ==> dataInfo.data != null && fresh(dataInfo.data)
    ensures ret.Success? ==> dataInfo.length == |Message(vs)| && dataInfo.data[..] == Message(vs)
  {
    dataInfo := DataInfo(null, 0);
    assert forall v :: v in vs ==> WellFormed(v);
    assert forall v :: v in vs ==> (Encodable(v) <==> (v.Fixed? ==> v.bytes != []) && (v.Arr? ==> v.elems != []));
    var encoder := new DataEncoder();
    encoder.Init();
    ret := encoder.RecursiveEncode(vs);
    if ret != Success {
      return;
    }
    assert [] + Payload(vs) == Payload(vs);
    ret, dataInfo := encoder.GetSerializedData();
    if ret != Success {
      return;
    }
    if dataInfo.length <= 0 || dataInfo.data == null {
      return Failure, dataInfo;
    }
  }

  /** A value that a C++ object of the type can hold. An object without bytes is not read, nor an array that is not empty. */
  ghost predicate IsOfType(v: Value, t: Type) {
    match t
    case TFixed(width) => v.Fixed? && 0 < |v.bytes| == width
    case TStr => v.Str? && |v.chars| < SIZE_T_MODULUS
    case TArr(width, vacant) =>
      vacant && v.Arr? && 0 < width == v.width && |v.elems| < SIZE_T_MODULUS && forall e :: e in v.elems ==> |e| == width
  }

  lemma TypedIff(vs: seq<Value>, ts: seq<Type>)
    requires |vs| == |ts|
    ensures HaveTypes(vs, ts) <==> forall i :: 0 <= i < |vs| ==> IsOfType(vs[i], ts[i])
  {
    forall i | 0 <= i < |vs|
      ensures HasType(vs[i], ts[i]) <==> IsOfType(vs[i], ts[i])
    {
    }
  }

  /** Succeeds exactly when the received bytes are the message of values of the requested types. */
  method ProcessDecode(dataInfo: DataInfo, ts: seq<Type>) returns (ret: RetCode, vs: seq<Value>)
    requires dataInfo.data != null ==> dataInfo.length <= dataInfo.data.Length && dataInfo.length <= INT_MAX
    ensures ret == Success || ret == Failure
    ensures ret.Success? ==> dataInfo.data != null && dataInfo.length > 0
    ensures ret.Success? ==> HaveTypes(vs, ts) && dataInfo.data[..dataInfo.length] == Message(vs)
    ensures ret.Success? ==> |vs| == |ts| && forall i :: 0 <= i < |vs| ==> IsOfType(vs[i], ts[i])
    ensures !ret.Success? && dataInfo.data != null && dataInfo.length > 0 ==>
              forall us :: HaveTypes(us, ts) ==> dataInfo.data[..dataInfo.length] != Message(us)
    ensures !ret.Success? && dataInfo.data != null && dataInfo.length > 0 ==>
              forall us: seq<Value> | |us| == |ts| && dataInfo.data[..dataInfo.length] == Message(us) ::
                exists i :: 0 <= i < |us| && !IsOfType(us[i], ts[i])
  {
    vs := [];
    if dataInfo.data == null || dataInfo.length <= 0 {
      return Failure, vs;
    }
    ghost var s := dataInfo.data[..dataInfo.length];
    ghost var d := Decoded(ts, s);
    forall us: seq<Value> | |us| == |ts|
      ensures HaveTypes(us, ts) <==> forall i :: 0 <= i < |us| ==> IsOfType(us[i], ts[i])
    {
      TypedIff(us, ts);
    }
    forall us | HaveTypes(us, ts) && s == Message(us)
      ensures d.Parsed?
    {
      DecodesExactlyMessages(ts, s, us);
    }
    var decoder := new DataDecoder(dataInfo.data, dataInfo.length);
    assert decoder.Left() == s;
    ret, vs := decoder.RecursiveDecode(ts);
    if ret != Success {
      return Failure, vs;
    }
    var ended := decoder.CheckDataEnd();
    if !ended {
      return Failure, vs;
    }
    OnlyMessagesDecode(ts, s);
  }
}
