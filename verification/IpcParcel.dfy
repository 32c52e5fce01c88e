/** Parcelling and unparcelling on a message buffer and the system's shared memory. */
module IpcParcel {
  import opened Platform
  import opened IpcModel

  /** The message: values are written at its end and read from its front. */
  class IpcIo {
    var tokens: seq<Token>

    constructor ()
      ensures tokens == []
    {
      tokens := [];
    }

    method Write(token: Token)
      modifies this
      ensures tokens == old(tokens) + [token]
    {
      tokens := tokens + [token];
    }

    method ReadInt32(left: int) returns (i: int)
      modifies this
      ensures (i, tokens) == IpcModel.ReadInt32(old(tokens), left)
    {
      var r := IpcModel.ReadInt32(tokens, left);
      i, tokens := r.0, r.1;
    }

    method ReadUInt32(left: int) returns (u: int)
      modifies this
      ensures (u, tokens) == IpcModel.ReadUInt32(old(tokens), left)
    {
      var r := IpcModel.ReadUInt32(tokens, left);
      u, tokens := r.0, r.1;
    }

    method ReadInt64(left: int) returns (l: int)
      modifies this
      ensures (l, tokens) == IpcModel.ReadInt64(old(tokens), left)
    {
      var r := IpcModel.ReadInt64(tokens, left);
      l, tokens := r.0, r.1;
    }

    method ReadBool(left: int) returns (b: bool)
      modifies this
      ensures (b, tokens) == IpcModel.ReadBool(old(tokens), left)
    {
      var r := IpcModel.ReadBool(tokens, left);
      b, tokens := r.0, r.1;
    }

    method ReadBuffer(size: int) returns (blob: Blob)
      modifies this
      ensures (blob, tokens) == IpcModel.ReadBuffer(old(tokens), size)
    {
      var r := IpcModel.ReadBuffer(tokens, size);
      blob, tokens := r.0, r.1;
    }
  }

  /** The segments that exist, with their contents. */
  class SharedMemory {
    var live: Segments

    constructor ()
      ensures live == map[]
    {
      live := map[];
    }

    /** `shmget` with a key that is free; a new segment is zeroed. */
    method Get(size: nat, c: Calls) returns (shmId: int)
      modifies this
      ensures shmId == if c.get then c.id else -1
      ensures live == if c.get then old(live)[c.id := Repeat(size, 0)] else old(live)
    {
      if !c.get {
        return -1;
      }
      live := live[c.id := seq(size, _ => 0 as byte)];
      return c.id;
    }

    /** The whole segment is written through the attached address. */
    method Store(shmId: int, bytes: seq<byte>)
      modifies this
      ensures live == old(live)[shmId := bytes]
    {
      live := live[shmId := bytes];
    }

    /** Reads past the segment's size see the zeros that fill its last page. */
    method Load(shmId: int, length: nat) returns (bytes: seq<byte>)
      requires shmId in live
      ensures bytes == SegmentBytes(live[shmId], length)
    {
      var segment := live[shmId];
      bytes := if length <= |segment| then segment[..length] else segment + seq(length - |segment|, _ => 0 as byte);
    }

    method ReleaseShmId(shmId: int, c: Calls)
      modifies this
      ensures live == Released(old(live), shmId, c)
    {
      if shmId == -1 {
        return;
      }
      if c.remove {
        live := live - {shmId};
      }
    }
  }

  /** `IpcIoPushSharedMemory`. */
  method PushSharedMemory(request: IpcIo, shm: SharedMemory, dataInfo: DataValue, c: Calls)
    requires IsShared(dataInfo) && (c.get ==> c.id >= 0)
    modifies request, shm
    ensures request.tokens == old(request.tokens) + if PushWorks(c) then [Int32(c.id), Int32(dataInfo.length)] else []
    ensures shm.live == AfterPush(old(shm.live), dataInfo, c)
  {
    var shmId := shm.Get(dataInfo.length, c);
    if shmId < 0 {
      return;
    }
    if !c.attach {
      shm.ReleaseShmId(shmId, c);
      return;
    }
    shm.Store(shmId, dataInfo.data.bytes);
    assert shm.live == old(shm.live)[c.id := dataInfo.data.bytes];
    if !c.detach {
      shm.ReleaseShmId(shmId, c);
      return;
    }
    if !c.stat {
      shm.ReleaseShmId(shmId, c);
      return;
    }
    if !c.set_ {
      shm.ReleaseShmId(shmId, c);
      return;
    }
    request.Write(Int32(shmId));
    request.Write(Int32(dataInfo.length));
  }

  /** The memory behind a pointer is as long as the length says; the length itself may be anything. */
  predicate Readable(d: DataValue) {
    d.data.Bytes? && d.length > 0 ==> d.length == |d.data.bytes| <= INT_MAX
  }

  method ParcelDataInfo(request: IpcIo, shm: SharedMemory, dataInfo: DataValue, c: Calls)
    requires Readable(dataInfo) && (c.get ==> c.id >= 0)
    modifies request, shm
    ensures request.tokens == old(request.tokens) + Parceled(dataInfo, c)
    ensures shm.live == AfterPush(old(shm.live), dataInfo, c)
    ensures (if dataInfo.data.Null? then dataInfo.length != 0 else dataInfo.length <= 0) ==>
              request.tokens == old(request.tokens) && shm.live == old(shm.live)
    ensures dataInfo == DataValue(Null, 0) ==> request.tokens == old(request.tokens) + [Int32(0)] && shm.live == old(shm.live)
    ensures dataInfo.data.Bytes? && 0 < dataInfo.length < 200 ==>
              && request.tokens == old(request.tokens) +
                                   [Int32(dataInfo.length), UInt32(dataInfo.length), Buffer(dataInfo.data.bytes)]
              && shm.live == old(shm.live)
    ensures dataInfo.data.Bytes? && dataInfo.length >= 200 ==>
              if c.get && c.attach && c.detach && c.stat && c.set_
              then request.tokens == old(request.tokens) + [Int32(dataInfo.length), Int32(c.id), Int32(dataInfo.length)] &&
                   shm.live == old(shm.live)[c.id := dataInfo.data.bytes]
              else request.tokens == old(request.tokens) + [Int32(dataInfo.length)]
  {
    if dataInfo.data.Bytes? && dataInfo.length <= 0 {
      return;
    }
    if dataInfo.data.Null? && dataInfo.length != 0 {
      return;
    }
    request.Write(Int32(dataInfo.length));
    if dataInfo.data.Null? && dataInfo.length == 0 {
      return;
    }
    if dataInfo.length < IPC_MAX_TRANS_CAPACITY {
      request.Write(UInt32(dataInfo.length));
      request.Write(Buffer(dataInfo.data.bytes));
    } else {
      PushSharedMemory(request, shm, dataInfo, c);
    }
  }

  /** `IpcIoPopSharedMemory`. */
  method PopSharedMemory(request: IpcIo, shm: SharedMemory, c: Calls) returns (ret: RetCode, dataInfo: DataValue)
    modifies request, shm
    ensures Received(ret, dataInfo, request.tokens, shm.live) == PopShared(old(request.tokens), old(shm.live), c)
    ensures var (id, t) := IpcModel.ReadInt32(old(request.tokens), c.left(1));
            var length := IpcModel.ReadInt32(t, c.left(2)).0;
            && (ret.Success? <==> id != -1 && 0 < length <= 1024 * 1024 && id in old(shm.live) && c.attach && c.detach)
            && (ret.Success? ==> dataInfo == DataValue(Bytes(SegmentBytes(old(shm.live)[id], length)), length))
            && shm.live == if id != -1 && c.remove then old(shm.live) - {id} else old(shm.live)
  {
    var shmId := request.ReadInt32(c.left(1));
    var length := request.ReadInt32(c.left(2));
    dataInfo := DataValue(Null, length);
    if shmId == -1 {
      return Failure, dataInfo;
    }
    if length <= 0 || length > MAX_SHM_DATA_SIZE {
      shm.ReleaseShmId(shmId, c);
      return Failure, dataInfo;
    }
    if !c.attach || shmId !in shm.live {
      shm.ReleaseShmId(shmId, c);
      return Failure, dataInfo;
    }
    var bytes := shm.Load(shmId, length);
    if !c.detach {
      shm.ReleaseShmId(shmId, c);
      return Failure, dataInfo;
    }
    shm.ReleaseShmId(shmId, c);
    return Success, DataValue(Bytes(bytes), length);
  }

  /** `IpcIoPopMemory`. */
  method PopInline(request: IpcIo, ghost live: Segments, length: int, c: Calls) returns (ret: RetCode, dataInfo: DataValue)
    modifies request
    ensures Received(ret, dataInfo, request.tokens, live) == PopMemory(old(request.tokens), live, length, c)
    ensures var (size, t) := IpcModel.ReadUInt32(old(request.tokens), c.left(1));
            ret.Success? <==> t != [] && t[0].Buffer? && |t[0].bytes| == size && ToInt32(size) == length
  {
    dataInfo := DataValue(Null, length);
    var dataBufSize := request.ReadUInt32(c.left(1));
    var buffer := request.ReadBuffer(dataBufSize);
    if buffer.Null? {
      return NullParam, dataInfo;
    }
    if ToInt32(dataBufSize) != length {
      return NullParam, dataInfo;
    }
    return Success, DataValue(buffer, length);
  }

  method UnParcelDataInfo(request: IpcIo, shm: SharedMemory, c: Calls) returns (ret: RetCode, dataInfo: DataValue)
    modifies request, shm
    ensures Received(ret, dataInfo, request.tokens, shm.live) == UnParceled(old(request.tokens), old(shm.live), c)
  {
    var length := request.ReadInt32(c.left(0));
    if length < 0 {
      return Failure, DataValue(Null, length);
    }
    if length == 0 {
      return Success, DataValue(Null, 0);
    }
    if length < IPC_MAX_TRANS_CAPACITY {
      ret, dataInfo := PopInline(request, shm.live, length, c);
    } else {
      ret, dataInfo := PopSharedMemory(request, shm, c);
    }
  }

  method ParcelClientInfo(request: IpcIo, shm: SharedMemory, info: ClientInfo, c: Calls)
    requires Readable(info.extend) && (c.get ==> c.id >= 0)
    modifies request, shm
    ensures request.tokens == old(request.tokens) + ClientTokens(info, c)
    ensures shm.live == AfterPush(old(shm.live), info.extend, c)
  {
    request.Write(Int64(info.clientVersion));
    request.Write(Int32(info.clientId));
    request.Write(Int32(info.sessionId));
    request.Write(UInt32(info.serverUid));
    request.Write(UInt32(info.clientUid));
    assert request.tokens == old(request.tokens) + ClientTokens(info, c)[..5];
    ParcelDataInfo(request, shm, info.extend, c);
  }

  method ParcelAlgorithmInfo(request: IpcIo, shm: SharedMemory, info: AlgorithmInfo, c: Calls)
    requires Readable(info.extend) && (c.get ==> c.id >= 0)
    modifies request, shm
    ensures request.tokens == old(request.tokens) + AlgorithmTokens(info, c)
    ensures shm.live == AfterPush(old(shm.live), info.extend, c)
  {
    request.Write(Int64(info.clientVersion));
    request.Write(Bool(info.isAsync));
    request.Write(Int32(info.algorithmType));
    request.Write(Int64(info.algorithmVersion));
    request.Write(Bool(info.isCloud));
    request.Write(Int32(info.operateId));
    request.Write(Int32(info.requestId));
    assert request.tokens == old(request.tokens) + AlgorithmTokens(info, c)[..7];
    ParcelDataInfo(request, shm, info.extend, c);
  }

  /** The three parcels with which every proxy call starts its request. */
  method ParcelRequest(request: IpcIo, shm: SharedMemory, r: Request, c: CallsOfThree)
    requires Readable(r.client.extend) && Readable(r.algorithm.extend) && Readable(r.input)
    requires (c.client.get ==> c.client.id >= 0) && (c.algorithm.get ==> c.algorithm.id >= 0) && (c.input.get ==> c.input.id >= 0)
    modifies request, shm
    ensures request.tokens == old(request.tokens) + RequestTokens(r, c)
    ensures shm.live == AfterRequest(old(shm.live), r, c)
  {
    ThreeParts(request.tokens, ClientTokens(r.client, c.client), AlgorithmTokens(r.algorithm, c.algorithm),
               Parceled(r.input, c.input));
    ParcelClientInfo(request, shm, r.client, c.client);
    ParcelAlgorithmInfo(request, shm, r.algorithm, c.algorithm);
    ParcelDataInfo(request, shm, r.input, c.input);
  }

  lemma ThreeParts(a: seq<Token>, b: seq<Token>, c: seq<Token>, d: seq<Token>)
    ensures ((a + b) + c) + d == a + (b + (c + d))
  {
  }

  method UnParcelClientInfo(request: IpcIo, shm: SharedMemory, c: Calls) returns (ret: RetCode, info: ClientInfo)
    modifies request, shm
    ensures Received(ret, info, request.tokens, shm.live) == UnParceledClient(old(request.tokens), old(shm.live), c)
  {
    var clientVersion := request.ReadInt64(c.left(3));
    var clientId := request.ReadInt32(c.left(4));
    var sessionId := request.ReadInt32(c.left(5));
    var serverUid := request.ReadUInt32(c.left(6));
    var clientUid := request.ReadUInt32(c.left(7));
    var dataInfo;
    ret, dataInfo := UnParcelDataInfo(request, shm, c);
    var extend := if ret == Success then dataInfo else DataValue(Null, 0);
    info := ClientInfo(clientVersion, clientId, sessionId, serverUid, clientUid, extend);
  }

  method UnParcelAlgorithmInfo(request: IpcIo, shm: SharedMemory, c: Calls) returns (ret: RetCode, info: AlgorithmInfo)
    modifies request, shm
    ensures Received(ret, info, request.tokens, shm.live) == UnParceledAlgorithm(old(request.tokens), old(shm.live), c)
  {
    var clientVersion := request.ReadInt64(c.left(3));
    var isAsync := request.ReadBool(c.left(4));
    var algorithmType := request.ReadInt32(c.left(5));
    var algorithmVersion := request.ReadInt64(c.left(6));
    var isCloud := request.ReadBool(c.left(7));
    var operateId := request.ReadInt32(c.left(8));
    var requestId := request.ReadInt32(c.left(9));
    var dataInfo;
    ret, dataInfo := UnParcelDataInfo(request, shm, c);
    var extend := if ret == Success then dataInfo else DataValue(Null, 0);
    info := AlgorithmInfo(clientVersion, isAsync, algorithmType, algorithmVersion, isCloud, operateId, requestId, extend);
  }

  method UnParcelInfo(request: IpcIo, shm: SharedMemory, c: CallsOfThree) returns (ret: RetCode, info: Option<Request>)
    modifies request, shm
    ensures Received(ret, info, request.tokens, shm.live) == UnParceledRequest(old(request.tokens), old(shm.live), c)
  {
    var client, algorithm, input;
    ret, client := UnParcelClientInfo(request, shm, c.client);
    if ret != Success {
      return ret, None;
    }
    ret, algorithm := UnParcelAlgorithmInfo(request, shm, c.algorithm);
    if ret != Success {
      return ret, None;
    }
    ret, input := UnParcelDataInfo(request, shm, c.input);
    if ret != Success {
      return ret, None;
    }
    return Success, Some(Request(client, algorithm, input));
  }

  /** A request sent and received: the server sees what the client passed, and no segment is left behind. */
  method SendAndReceive(request: IpcIo, shm: SharedMemory, r: Request, sent: CallsOfThree, got: CallsOfThree)
    returns (ret: RetCode, info: Option<Request>)
    requires request.tokens == [] && GoodRequest(r) && AllSent(shm.live, sent) && AllReceived(got)
    modifies request, shm
    ensures ret.Success? <==> FitsReceiver(r.client.extend) && FitsReceiver(r.algorithm.extend) && FitsReceiver(r.input)
    ensures ret.Success? ==> info == Some(r) && request.tokens == [] && shm.live == old(shm.live)
    ensures shm.live == Stranded(old(shm.live), r, sent)
  {
    ParcelRequest(request, shm, r, sent);
    RequestRoundTrip(r, sent, got, [], old(shm.live));
    assert RequestTokens(r, sent) + [] == request.tokens;
    ret, info := UnParcelInfo(request, shm, got);
  }
}
