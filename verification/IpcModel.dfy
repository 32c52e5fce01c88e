/**
 * Parcels between client and server: short data travels in the message, long data in a shared memory segment whose
 * id travels in the message. A message is a queue of typed values; which system calls succeed is an input.
 */
module IpcModel {
  import opened Platform

  const IPC_MAX_TRANS_CAPACITY := 200
  const MAX_SHM_DATA_SIZE := 1024 * 1024

  datatype Blob = Null | Bytes(bytes: seq<byte>)

  /** A `DataInfo` by value: a pointer is only null or not, and leads to its bytes. */
  datatype DataValue = DataValue(data: Blob, length: int)

  datatype Token = Int32(i: int) | UInt32(u: int) | Int64(l: int) | Bool(b: bool) | Buffer(bytes: seq<byte>)

  /**
   * What the calls of one transfer answer. `id` is the segment a successful shmget creates; `left(k)` is what the
   * `k`-th read leaves in its variable when it fails: 0 to 2 are the reads of the data, the others those of the
   * fields before it.
   */
  datatype Calls = Calls(id: int, get: bool, attach: bool, detach: bool, stat: bool, set_: bool, remove: bool,
                         left: nat -> int)

  /** The live segments and their contents. */
  type Segments = map<int, seq<byte>>

  /** Data that ParcelDataInfo accepts. */
  ghost predicate WellFormed(d: DataValue) {
    match d.data
    case Null => d.length == 0
    case Bytes(bytes) => 0 < d.length == |bytes| <= INT_MAX
  }

  ghost predicate IsShared(d: DataValue) {
    WellFormed(d) && d.length >= IPC_MAX_TRANS_CAPACITY
  }

  ghost predicate PushWorks(c: Calls) {
    c.get && c.attach && c.detach && c.stat && c.set_
  }

  ghost predicate PopWorks(c: Calls) {
    c.attach && c.detach
  }

  /** `shmctl(IPC_RMID)`, for any id but the invalid one. */
  ghost function Released(live: Segments, id: int, c: Calls): Segments {
    if id == -1 || !c.remove then live else live - {id}
  }

  // ---- Sending ----

  ghost function Parceled(d: DataValue, c: Calls): seq<Token> {
    if !WellFormed(d) then []
    else if d.data.Null? then [Int32(0)]
    else if d.length < IPC_MAX_TRANS_CAPACITY then [Int32(d.length), UInt32(d.length), Buffer(d.data.bytes)]
    else [Int32(d.length)] + if PushWorks(c) then [Int32(c.id), Int32(d.length)] else []
  }

  /** The segments after `d` was parcelled: the new one is there if the push worked, or could not be removed. */
  ghost function AfterPush(live: Segments, d: DataValue, c: Calls): Segments {
    if !IsShared(d) || !c.get then live
    else
      var created := live[c.id := if c.attach then d.data.bytes else Repeat(d.length, 0)];
      if PushWorks(c) then created else Released(created, c.id, c)
  }

  /** Data travels in shared memory from exactly 200 bytes on, and in the message from 1 to 199. */
  lemma SharedFromTwoHundred(live: Segments, d: DataValue, c: Calls)
    requires WellFormed(d) && PushWorks(c) && c.id !in live
    ensures AfterPush(live, d, c) != live <==> d.length >= 200
    ensures (exists bytes :: Buffer(bytes) in Parceled(d, c)) <==> 0 < d.length < 200
  {
    if IsShared(d) {
      assert c.id in AfterPush(live, d, c);
    } else if d.data.Bytes? {
      assert Parceled(d, c)[2] == Buffer(d.data.bytes);
    }
  }

  /** Once the push fails its segment is gone, unless the system refuses to remove it. */
  lemma FailedPushLeavesNothing(live: Segments, d: DataValue, c: Calls)
    requires IsShared(d) && !PushWorks(c) && (c.get ==> c.id >= 0 && c.id !in live)
    ensures AfterPush(live, d, c) == live <==> !c.get || c.remove
  {
    if c.get {
      var created := live[c.id := if c.attach then d.data.bytes else Repeat(d.length, 0)];
      assert created - {c.id} == live;
      assert c.id in created;
    }
  }

  // ---- Receiving ----

  /** Reading another kind of value than was written fails: it leaves `left` and consumes nothing. */
  function ReadInt32(tokens: seq<Token>, left: int): (int, seq<Token>) {
    if tokens != [] && tokens[0].Int32? then (tokens[0].i, tokens[1..]) else (left, tokens)
  }

  function ReadUInt32(tokens: seq<Token>, left: int): (int, seq<Token>) {
    if tokens != [] && tokens[0].UInt32? then (tokens[0].u, tokens[1..]) else (left, tokens)
  }

  function ReadInt64(tokens: seq<Token>, left: int): (int, seq<Token>) {
    if tokens != [] && tokens[0].Int64? then (tokens[0].l, tokens[1..]) else (left, tokens)
  }

  function ReadBool(tokens: seq<Token>, left: int): (bool, seq<Token>) {
    if tokens != [] && tokens[0].Bool? then (tokens[0].b, tokens[1..]) else (left != 0, tokens)
  }

  function ReadBuffer(tokens: seq<Token>, size: int): (Blob, seq<Token>) {
    if tokens != [] && tokens[0].Buffer? && |tokens[0].bytes| == size then (Bytes(tokens[0].bytes), tokens[1..])
    else (Null, tokens)
  }

  /** What a receiving call leaves: its code, the data if it succeeded, the rest of the message, the segments. */
  datatype Received<T> = Received(ret: RetCode, value: T, tokens: seq<Token>, live: Segments)

  /** The first `n` bytes of a segment's pages. */
  ghost function SegmentBytes(segment: seq<byte>, n: nat): (r: seq<byte>)
    ensures |r| == n
  {
    if n <= |segment| then segment[..n] else segment + Repeat(n - |segment|, 0)
  }

  /** The segment can be read. */
  ghost predicate Attachable(live: Segments, id: int, length: int, c: Calls) {
    id != -1 && 0 < length <= MAX_SHM_DATA_SIZE && c.attach && id in live && c.detach
  }

  ghost function PopShared(tokens: seq<Token>, live: Segments, c: Calls): Received<DataValue> {
    var (id, t1) := ReadInt32(tokens, c.left(1));
    var (length, t2) := ReadInt32(t1, c.left(2));
    if !Attachable(live, id, length, c) then Received(Failure, DataValue(Null, length), t2, Released(live, id, c))
    else Received(Success, DataValue(Bytes(SegmentBytes(live[id], length)), length), t2, Released(live, id, c))
  }

  ghost function PopMemory(tokens: seq<Token>, live: Segments, length: int, c: Calls): Received<DataValue> {
    var (size, t1) := ReadUInt32(tokens, c.left(1));
    var (buffer, t2) := ReadBuffer(t1, size);
    if buffer.Null? || ToInt32(size) != length then Received(NullParam, DataValue(Null, length), t2, live)
    else Received(Success, DataValue(buffer, length), t2, live)
  }

  ghost function UnParceled(tokens: seq<Token>, live: Segments, c: Calls): Received<DataValue> {
    var (length, t1) := ReadInt32(tokens, c.left(0));
    if length < 0 then Received(Failure, DataValue(Null, length), t1, live)
    else if length == 0 then Received(Success, DataValue(Null, 0), t1, live)
    else if length < IPC_MAX_TRANS_CAPACITY then PopMemory(t1, live, length, c)
    else PopShared(t1, live, c)
  }

  /** Whatever arrives, popping removes the segment whose id it read, unless the system refuses. */
  lemma PopRemovesTheSegment(tokens: seq<Token>, live: Segments, c: Calls)
    requires c.remove
    ensures var r := UnParceled(tokens, live, c);
            var (length, t) := ReadInt32(tokens, c.left(0));
            var id := ReadInt32(t, c.left(1)).0;
            if length >= IPC_MAX_TRANS_CAPACITY then r.live == live - {id} || (id == -1 && r.live == live)
            else r.live == live
  {
  }

  // ---- One parcel ----

  ghost predicate FitsReceiver(d: DataValue) {
    d.length <= MAX_SHM_DATA_SIZE
  }

  /**
   * Unparcelling what was parcelled gives the data back, up to 1 MiB; more is refused. Either way it consumes
   * exactly the parcel and leaves the segments as they were before the parcel.
   */
  lemma ParcelRoundTrip(d: DataValue, sent: Calls, got: Calls, rest: seq<Token>, live: Segments)
    requires WellFormed(d) && PushWorks(sent) && sent.id >= 0 && sent.id !in live
    requires PopWorks(got) && got.remove
    ensures var r := UnParceled(Parceled(d, sent) + rest, AfterPush(live, d, sent), got);
            && (r.ret.Success? <==> FitsReceiver(d)) && (r.ret.Success? ==> r.value == d)
            && r.tokens == rest && r.live == live
  {
    var all := Parceled(d, sent) + rest;
    assert all[1..] == Parceled(d, sent)[1..] + rest;
    if d.data.Bytes? {
      assert all[1..][1..] == Parceled(d, sent)[2..] + rest;
      assert all[1..][1..][1..] == rest;
      if IsShared(d) {
        assert live[sent.id := d.data.bytes] - {sent.id} == live;
        assert d.data.bytes[..d.length] == d.data.bytes;
      }
    } else {
      assert all[1..] == rest;
    }
  }

  // ---- A whole request ----

  datatype ClientInfo = ClientInfo(clientVersion: int, clientId: int, sessionId: int, serverUid: int, clientUid: int,
                                   extend: DataValue)

  datatype AlgorithmInfo = AlgorithmInfo(clientVersion: int, isAsync: bool, algorithmType: int, algorithmVersion: int,
                                         isCloud: bool, operateId: int, requestId: int, extend: DataValue)

  datatype Request = Request(client: ClientInfo, algorithm: AlgorithmInfo, input: DataValue)

  ghost function ClientTokens(info: ClientInfo, c: Calls): seq<Token> {
    [Int64(info.clientVersion), Int32(info.clientId), Int32(info.sessionId), UInt32(info.serverUid),
     UInt32(info.clientUid)] + Parceled(info.extend, c)
  }

  ghost function AlgorithmTokens(info: AlgorithmInfo, c: Calls): seq<Token> {
    [Int64(info.clientVersion), Bool(info.isAsync), Int32(info.algorithmType), Int64(info.algorithmVersion),
     Bool(info.isCloud), Int32(info.operateId), Int32(info.requestId)] + Parceled(info.extend, c)
  }

  /** The system calls of the three parcels of a request. */
  datatype CallsOfThree = CallsOfThree(client: Calls, algorithm: Calls, input: Calls)

  ghost function RequestTokens(r: Request, c: CallsOfThree): seq<Token> {
    ClientTokens(r.client, c.client) + (AlgorithmTokens(r.algorithm, c.algorithm) + Parceled(r.input, c.input))
  }

  ghost function AfterRequest(live: Segments, r: Request, c: CallsOfThree): Segments {
    AfterPush(AfterPush(AfterPush(live, r.client.extend, c.client), r.algorithm.extend, c.algorithm), r.input, c.input)
  }

  /** On failure nothing is kept of the extension. */
  ghost function Kept(r: Received<DataValue>): DataValue {
    if r.ret.Success? then r.value else DataValue(Null, 0)
  }

  ghost function UnParceledClient(tokens: seq<Token>, live: Segments, c: Calls): Received<ClientInfo> {
    var (clientVersion, t1) := ReadInt64(tokens, c.left(3));
    var (clientId, t2) := ReadInt32(t1, c.left(4));
    var (sessionId, t3) := ReadInt32(t2, c.left(5));
    var (serverUid, t4) := ReadUInt32(t3, c.left(6));
    var (clientUid, t5) := ReadUInt32(t4, c.left(7));
    var r := UnParceled(t5, live, c);
    Received(r.ret, ClientInfo(clientVersion, clientId, sessionId, serverUid, clientUid, Kept(r)), r.tokens, r.live)
  }

  ghost function UnParceledAlgorithm(tokens: seq<Token>, live: Segments, c: Calls): Received<AlgorithmInfo> {
    var (clientVersion, t1) := ReadInt64(tokens, c.left(3));
    var (isAsync, t2) := ReadBool(t1, c.left(4));
    var (algorithmType, t3) := ReadInt32(t2, c.left(5));
    var (algorithmVersion, t4) := ReadInt64(t3, c.left(6));
    var (isCloud, t5) := ReadBool(t4, c.left(7));
    var (operateId, t6) := ReadInt32(t5, c.left(8));
    var (requestId, t7) := ReadInt32(t6, c.left(9));
    var r := UnParceled(t7, live, c);
    Received(r.ret, AlgorithmInfo(clientVersion, isAsync, algorithmType, algorithmVersion, isCloud, operateId, requestId,
                                  Kept(r)), r.tokens, r.live)
  }

  /** The three parts in order; the first that fails ends it, and what follows stays in the message. */
  ghost function UnParceledRequest(tokens: seq<Token>, live: Segments, c: CallsOfThree): Received<Option<Request>> {
    var r1 := UnParceledClient(tokens, live, c.client);
    if !r1.ret.Success? then Received(r1.ret, None, r1.tokens, r1.live)
    else
      var r2 := UnParceledAlgorithm(r1.tokens, r1.live, c.algorithm);
      if !r2.ret.Success? then Received(r2.ret, None, r2.tokens, r2.live)
      else
        var r3 := UnParceled(r2.tokens, r2.live, c.input);
        if !r3.ret.Success? then Received(r3.ret, None, r3.tokens, r3.live)
        else Received(Success, Some(Request(r1.value, r2.value, r3.value)), r3.tokens, r3.live)
  }

  ghost predicate GoodRequest(r: Request) {
    WellFormed(r.client.extend) && WellFormed(r.algorithm.extend) && WellFormed(r.input)
  }

  /** All calls succeed, and shmget gives ids that are not in use. */
  ghost predicate AllSent(live: Segments, c: CallsOfThree) {
    && PushWorks(c.client) && PushWorks(c.algorithm) && PushWorks(c.input)
    && c.client.id >= 0 && c.algorithm.id >= 0 && c.input.id >= 0
    && c.client.id !in live && c.algorithm.id !in live && c.input.id !in live
    && c.client.id != c.algorithm.id && c.client.id != c.input.id && c.algorithm.id != c.input.id
  }

  ghost predicate AllReceived(c: CallsOfThree) {
    && PopWorks(c.client) && PopWorks(c.algorithm) && PopWorks(c.input)
    && c.client.remove && c.algorithm.remove && c.input.remove
  }

  lemma PushesCommute(live: Segments, d: DataValue, c: Calls, e: DataValue, b: Calls)
    requires PushWorks(c) && PushWorks(b) && c.id != b.id
    ensures AfterPush(AfterPush(live, d, c), e, b) == AfterPush(AfterPush(live, e, b), d, c)
  {
    if IsShared(d) && IsShared(e) {
      assert live[c.id := d.data.bytes][b.id := e.data.bytes] == live[b.id := e.data.bytes][c.id := d.data.bytes];
    }
  }

  lemma FiveRead(a: Token, b: Token, c: Token, d: Token, e: Token, body: seq<Token>)
    ensures var all := [a, b, c, d, e] + body;
            && all[0] == a && all[1..][0] == b && all[1..][1..][0] == c && all[1..][1..][1..][0] == d
            && all[1..][1..][1..][1..][0] == e && all[1..][1..][1..][1..][1..] == body
  {
    var all := [a, b, c, d, e] + body;
    assert all[1..] == [b, c, d, e] + body;
    assert all[1..][1..] == [c, d, e] + body;
    assert all[1..][1..][1..] == [d, e] + body;
    assert all[1..][1..][1..][1..] == [e] + body;
  }

  /** The fields of a client's part are read in the order they were written. */
  lemma ClientFieldsRead(info: ClientInfo, body: seq<Token>, live: Segments, c: Calls)
    ensures var tokens := [Int64(info.clientVersion), Int32(info.clientId), Int32(info.sessionId),
                           UInt32(info.serverUid), UInt32(info.clientUid)] + body;
            var r := UnParceled(body, live, c);
            UnParceledClient(tokens, live, c) == Received(r.ret, info.(extend := Kept(r)), r.tokens, r.live)
  {
    FiveRead(Int64(info.clientVersion), Int32(info.clientId), Int32(info.sessionId), UInt32(info.serverUid),
             UInt32(info.clientUid), body);
  }

  lemma AlgorithmFieldsRead(info: AlgorithmInfo, body: seq<Token>, live: Segments, c: Calls)
    ensures var tokens := [Int64(info.clientVersion), Bool(info.isAsync), Int32(info.algorithmType),
                           Int64(info.algorithmVersion), Bool(info.isCloud)] +
                          ([Int32(info.operateId), Int32(info.requestId)] + body);
            var r := UnParceled(body, live, c);
            UnParceledAlgorithm(tokens, live, c) == Received(r.ret, info.(extend := Kept(r)), r.tokens, r.live)
  {
    var tail := [Int32(info.operateId), Int32(info.requestId)] + body;
    FiveRead(Int64(info.clientVersion), Bool(info.isAsync), Int32(info.algorithmType), Int64(info.algorithmVersion),
             Bool(info.isCloud), tail);
    assert tail[1..] == [Int32(info.requestId)] + body;
    assert tail[1..][1..] == body;
  }

  lemma ClientTokensSplit(info: ClientInfo, c: Calls, rest: seq<Token>)
    ensures ClientTokens(info, c) + rest ==
            [Int64(info.clientVersion), Int32(info.clientId), Int32(info.sessionId), UInt32(info.serverUid),
             UInt32(info.clientUid)] + (Parceled(info.extend, c) + rest)
  {
  }

  lemma ClientRoundTrip(info: ClientInfo, sent: Calls, got: Calls, rest: seq<Token>, live: Segments)
    requires WellFormed(info.extend) && PushWorks(sent) && sent.id >= 0 && sent.id !in live
    requires PopWorks(got) && got.remove
    ensures var r := UnParceledClient(ClientTokens(info, sent) + rest, AfterPush(live, info.extend, sent), got);
            && (r.ret.Success? <==> FitsReceiver(info.extend)) && (r.ret.Success? ==> r.value == info)
            && r.tokens == rest && r.live == live
  {
    ParcelRoundTrip(info.extend, sent, got, rest, live);
    var body := Parceled(info.extend, sent) + rest;
    ClientTokensSplit(info, sent, rest);
    ClientFieldsRead(info, body, AfterPush(live, info.extend, sent), got);
  }

  lemma AlgorithmTokensSplit(info: AlgorithmInfo, c: Calls, rest: seq<Token>)
    ensures AlgorithmTokens(info, c) + rest ==
            [Int64(info.clientVersion), Bool(info.isAsync), Int32(info.algorithmType), Int64(info.algorithmVersion),
             Bool(info.isCloud)] +
            ([Int32(info.operateId), Int32(info.requestId)] + (Parceled(info.extend, c) + rest))
  {
  }

  lemma AlgorithmRoundTrip(info: AlgorithmInfo, sent: Calls, got: Calls, rest: seq<Token>, live: Segments)
    requires WellFormed(info.extend) && PushWorks(sent) && sent.id >= 0 && sent.id !in live
    requires PopWorks(got) && got.remove
    ensures var r := UnParceledAlgorithm(AlgorithmTokens(info, sent) + rest, AfterPush(live, info.extend, sent), got);
            && (r.ret.Success? <==> FitsReceiver(info.extend)) && (r.ret.Success? ==> r.value == info)
            && r.tokens == rest && r.live == live
  {
    ParcelRoundTrip(info.extend, sent, got, rest, live);
    var body := Parceled(info.extend, sent) + rest;
    AlgorithmTokensSplit(info, sent, rest);
    AlgorithmFieldsRead(info, body, AfterPush(live, info.extend, sent), got);
  }

  /** Segments the receiver never gets to: those of the parts behind the first part that is too long. */
  ghost function Stranded(live: Segments, r: Request, c: CallsOfThree): Segments {
    if !FitsReceiver(r.client.extend) then
      AfterPush(AfterPush(live, r.algorithm.extend, c.algorithm), r.input, c.input)
    else if !FitsReceiver(r.algorithm.extend) then
      AfterPush(live, r.input, c.input)
    else
      live
  }

  /**
   * A request arrives with every field and byte exactly when each of its three data parts is at most 1 MiB. It
   * leaves the segments as they were, but for those behind a part that was refused.
   */
  lemma RequestRoundTrip(r: Request, sent: CallsOfThree, got: CallsOfThree, rest: seq<Token>, live: Segments)
    requires GoodRequest(r) && AllSent(live, sent) && AllReceived(got)
    ensures var u := UnParceledRequest(RequestTokens(r, sent) + rest, AfterRequest(live, r, sent), got);
            && (u.ret.Success? <==>
                  FitsReceiver(r.client.extend) && FitsReceiver(r.algorithm.extend) && FitsReceiver(r.input))
            && (u.ret.Success? ==> u.value == Some(r) && u.tokens == rest)
            && u.live == Stranded(live, r, sent)
  {
    var live3 := AfterPush(live, r.input, sent.input);
    var live23 := AfterPush(AfterPush(live, r.algorithm.extend, sent.algorithm), r.input, sent.input);
    PushesCommute(live, r.algorithm.extend, sent.algorithm, r.input, sent.input);
    PushesCommute(live, r.client.extend, sent.client, r.algorithm.extend, sent.algorithm);
    PushesCommute(AfterPush(live, r.algorithm.extend, sent.algorithm), r.client.extend, sent.client, r.input, sent.input);
    assert AfterRequest(live, r, sent) == AfterPush(live23, r.client.extend, sent.client);
    var tail := Parceled(r.input, sent.input) + rest;
    var middle := AlgorithmTokens(r.algorithm, sent.algorithm) + tail;
    assert RequestTokens(r, sent) + rest == ClientTokens(r.client, sent.client) + middle;
    ClientRoundTrip(r.client, sent.client, got.client, middle, live23);
    AlgorithmRoundTrip(r.algorithm, sent.algorithm, got.algorithm, tail, live3);
    ParcelRoundTrip(r.input, sent.input, got.input, rest, live);
  }

  /** Nothing is stranded exactly when no long part follows a part that is refused. */
  lemma StrandedIff(r: Request, sent: CallsOfThree, live: Segments)
    requires GoodRequest(r) && AllSent(live, sent)
    ensures Stranded(live, r, sent) == live <==>
            && (FitsReceiver(r.client.extend) || !(IsShared(r.algorithm.extend) || IsShared(r.input)))
            && (FitsReceiver(r.algorithm.extend) || !IsShared(r.input))
  {
    var c := sent;
    var live2 := AfterPush(live, r.algorithm.extend, c.algorithm);
    assert IsShared(r.algorithm.extend) ==> c.algorithm.id in live2;
    assert IsShared(r.algorithm.extend) ==> c.algorithm.id in AfterPush(live2, r.input, c.input);
    assert IsShared(r.input) ==> c.input.id in AfterPush(live2, r.input, c.input);
    assert IsShared(r.input) ==> c.input.id in AfterPush(live, r.input, c.input);
  }

  // ---- Pushes that failed ----

  /** A parcel that holds a length and no segment. */
  ghost predicate Cut(d: DataValue, c: Calls) {
    IsShared(d) && !PushWorks(c)
  }

  /**
   * The receiver of such a parcel takes what its next two reads leave for a segment's id and its length. Whatever
   * that is, it releases that segment, and it accepts its bytes for the data exactly when it can attach it.
   */
  lemma CutParcelReleases(d: DataValue, sent: Calls, got: Calls, rest: seq<Token>, live: Segments)
    requires Cut(d, sent)
    ensures var r := UnParceled(Parceled(d, sent) + rest, live, got);
            var (id, t) := ReadInt32(rest, got.left(1));
            var (length, left) := ReadInt32(t, got.left(2));
            && r.live == Released(live, id, got) && r.tokens == left
            && (r.ret.Success? <==> Attachable(live, id, length, got))
            && (r.ret.Success? ==> r.value == DataValue(Bytes(SegmentBytes(live[id], length)), length))
  {
    var all := Parceled(d, sent) + rest;
    assert all == [Int32(d.length)] + rest && all[1..] == rest;
  }

  /** A parcel that is whole is read to its end, and accepted if it can be attached. */
  lemma WholeParcelRead(d: DataValue, sent: Calls, got: Calls, rest: seq<Token>, live: Segments)
    requires WellFormed(d) && !Cut(d, sent)
    ensures var r := UnParceled(Parceled(d, sent) + rest, live, got);
            && r.tokens == rest
            && (r.ret.Success? <==> IsShared(d) ==> Attachable(live, sent.id, d.length, got))
            && r.live == if IsShared(d) then Released(live, sent.id, got) else live
  {
    var all := Parceled(d, sent) + rest;
    assert all[1..] == Parceled(d, sent)[1..] + rest;
    if d.data.Bytes? {
      assert all[1..][1..] == Parceled(d, sent)[2..] + rest;
      assert all[1..][1..][1..] == rest;
    } else {
      assert all[1..] == rest;
    }
  }

  /** What the receiver reads for a part's id and length when no number follows a cut parcel. */
  ghost function IdRead(sent: Calls, got: Calls): int {
    if PushWorks(sent) then sent.id else got.left(1)
  }

  ghost function LengthRead(d: DataValue, sent: Calls, got: Calls): int {
    if PushWorks(sent) then d.length else got.left(2)
  }

  /** A part before something that is not a number. */
  ghost predicate Accepted(d: DataValue, sent: Calls, got: Calls, live: Segments) {
    IsShared(d) ==> Attachable(live, IdRead(sent, got), LengthRead(d, sent, got), got)
  }

  ghost function AfterPop(d: DataValue, sent: Calls, got: Calls, live: Segments): Segments {
    if IsShared(d) then Released(live, IdRead(sent, got), got) else live
  }

  lemma PartRead(d: DataValue, sent: Calls, got: Calls, rest: seq<Token>, live: Segments)
    requires WellFormed(d) && (rest == [] || !rest[0].Int32?)
    ensures var r := UnParceled(Parceled(d, sent) + rest, live, got);
            && r.tokens == rest
            && (r.ret.Success? <==> Accepted(d, sent, got, live))
            && r.live == AfterPop(d, sent, got, live)
  {
    if Cut(d, sent) {
      CutParcelReleases(d, sent, got, rest, live);
    } else {
      WholeParcelRead(d, sent, got, rest, live);
    }
  }

  /** Behind a cut parcel: the input's own length is taken for the id, what follows it for the length. */
  ghost predicate SwallowsInput(input: DataValue, sent: Calls, got: Calls, live: Segments) {
    var length := if IsShared(input) && PushWorks(sent) then sent.id else got.left(2);
    Attachable(live, input.length, length, got)
  }

  /** What is left of the input is accepted as no input, as the inline data it is, or as any other segment. */
  ghost predicate AcceptedBehind(input: DataValue, sent: Calls, got: Calls, live: Segments) {
    var header := if IsShared(input) && PushWorks(sent) then input.length else got.left(0);
    || header == 0
    || (0 < header < IPC_MAX_TRANS_CAPACITY && input.data.Bytes? && header == input.length)
    || (header >= IPC_MAX_TRANS_CAPACITY && Attachable(live, got.left(1), got.left(2), got))
  }

  /** What two reads of numbers leave of the input's parcel. */
  ghost function Remains(input: DataValue, sent: Calls): seq<Token> {
    if input.data.Null? || Cut(input, sent) then []
    else if IsShared(input) then [Int32(input.length)]
    else [UInt32(input.length), Buffer(input.data.bytes)]
  }

  lemma RemainsRead(input: DataValue, sent: Calls, got: Calls, live: Segments)
    requires WellFormed(input)
    ensures UnParceled(Remains(input, sent), live, got).ret.Success? <==> AcceptedBehind(input, sent, got, live)
  {
    var tokens := Remains(input, sent);
    assert |tokens| == 1 ==> tokens[1..] == [];
    assert |tokens| == 2 ==> tokens[1..] == [Buffer(input.data.bytes)];
  }

  lemma CutBeforeInput(d: DataValue, sent: Calls, got: Calls, input: DataValue, c: Calls, live: Segments)
    requires Cut(d, sent) && WellFormed(input)
    ensures var r := UnParceled(Parceled(d, sent) + Parceled(input, c), live, got);
            && (r.ret.Success? <==> SwallowsInput(input, c, got, live))
            && r.live == Released(live, input.length, got) && r.tokens == Remains(input, c)
  {
    var rest := Parceled(input, c);
    CutParcelReleases(d, sent, got, rest, live);
    if IsShared(input) && PushWorks(c) {
      assert rest == [Int32(input.length), Int32(c.id), Int32(input.length)];
      assert rest[1..][1..] == [Int32(input.length)];
    } else {
      assert rest[1..] == Remains(input, c);
    }
  }

  lemma ClientPartRead(info: ClientInfo, sent: Calls, got: Calls, rest: seq<Token>, live: Segments)
    ensures var u := UnParceledClient(ClientTokens(info, sent) + rest, live, got);
            var r := UnParceled(Parceled(info.extend, sent) + rest, live, got);
            u.ret == r.ret && u.tokens == r.tokens && u.live == r.live && u.value == info.(extend := Kept(r))
  {
    ClientTokensSplit(info, sent, rest);
    ClientFieldsRead(info, Parceled(info.extend, sent) + rest, live, got);
  }

  lemma AlgorithmPartRead(info: AlgorithmInfo, sent: Calls, got: Calls, rest: seq<Token>, live: Segments)
    ensures var u := UnParceledAlgorithm(AlgorithmTokens(info, sent) + rest, live, got);
            var r := UnParceled(Parceled(info.extend, sent) + rest, live, got);
            u.ret == r.ret && u.tokens == r.tokens && u.live == r.live && u.value == info.(extend := Kept(r))
  {
    AlgorithmTokensSplit(info, sent, rest);
    AlgorithmFieldsRead(info, Parceled(info.extend, sent) + rest, live, got);
  }

  /** The algorithm's part and the input, on the segments that the client's part has left. */
  ghost predicate RestAccepted(r: Request, sent: CallsOfThree, got: CallsOfThree, live: Segments) {
    var extend := r.algorithm.extend;
    if Cut(extend, sent.algorithm) then
      && SwallowsInput(r.input, sent.input, got.algorithm, live)
      && AcceptedBehind(r.input, sent.input, got.input, Released(live, r.input.length, got.algorithm))
    else
      && Accepted(extend, sent.algorithm, got.algorithm, live)
      && Accepted(r.input, sent.input, got.input, AfterPop(extend, sent.algorithm, got.algorithm, live))
  }

  /**
   * When a request is accepted, whatever the system's calls answer to the sender and to the receiver, and whatever
   * failed reads leave: each part in shared memory names a segment that can be attached, be it the part's own or
   * not. For a part whose push failed the name is what happens to be read; for the algorithm's part it is the length
   * of the input.
   */
  lemma RequestAcceptedIff(r: Request, sent: CallsOfThree, got: CallsOfThree, live: Segments)
    requires GoodRequest(r)
    ensures UnParceledRequest(RequestTokens(r, sent), live, got).ret.Success? <==>
            && Accepted(r.client.extend, sent.client, got.client, live)
            && RestAccepted(r, sent, got, AfterPop(r.client.extend, sent.client, got.client, live))
  {
    var middle := AlgorithmTokens(r.algorithm, sent.algorithm) + Parceled(r.input, sent.input);
    ClientPartRead(r.client, sent.client, got.client, middle, live);
    PartRead(r.client.extend, sent.client, got.client, middle, live);
    RestRead(r, sent, got, AfterPop(r.client.extend, sent.client, got.client, live));
  }

  lemma RestRead(r: Request, sent: CallsOfThree, got: CallsOfThree, live: Segments)
    requires GoodRequest(r)
    ensures var v := UnParceledAlgorithm(AlgorithmTokens(r.algorithm, sent.algorithm) + Parceled(r.input, sent.input),
                                         live, got.algorithm);
            v.ret.Success? && UnParceled(v.tokens, v.live, got.input).ret.Success? <==> RestAccepted(r, sent, got, live)
  {
    var extend, tail := r.algorithm.extend, Parceled(r.input, sent.input);
    AlgorithmPartRead(r.algorithm, sent.algorithm, got.algorithm, tail, live);
    if Cut(extend, sent.algorithm) {
      CutBeforeInput(extend, sent.algorithm, got.algorithm, r.input, sent.input, live);
      RemainsRead(r.input, sent.input, got.input, Released(live, r.input.length, got.algorithm));
    } else {
      WholeParcelRead(extend, sent.algorithm, got.algorithm, tail, live);
      var v := UnParceled(Parceled(extend, sent.algorithm) + tail, live, got.algorithm);
      assert tail + [] == tail;
      PartRead(r.input, sent.input, got.input, [], v.live);
    }
  }

  /**
   * If only the input's push failed, the request is accepted exactly when what was left of the two reads names a
   * segment that can be attached. Its bytes are then taken for the input, and it is removed.
   */
  lemma CutInputAcceptedIff(r: Request, sent: CallsOfThree, got: CallsOfThree, live: Segments)
    requires GoodRequest(r) && Cut(r.input, sent.input)
    requires Accepted(r.client.extend, sent.client, got.client, live) && !Cut(r.client.extend, sent.client)
    requires var live1 := AfterPop(r.client.extend, sent.client, got.client, live);
             Accepted(r.algorithm.extend, sent.algorithm, got.algorithm, live1) && !Cut(r.algorithm.extend, sent.algorithm)
    ensures var live2 := AfterPop(r.algorithm.extend, sent.algorithm, got.algorithm,
                                  AfterPop(r.client.extend, sent.client, got.client, live));
            var id, length := got.input.left(1), got.input.left(2);
            var u := UnParceledRequest(RequestTokens(r, sent), live, got);
            && (u.ret.Success? <==> Attachable(live2, id, length, got.input))
            && u.live == Released(live2, id, got.input)
            && (u.ret.Success? ==> u.value.Some? &&
                                   u.value.value.input == DataValue(Bytes(SegmentBytes(live2[id], length)), length))
  {
    var tail := Parceled(r.input, sent.input);
    var middle := AlgorithmTokens(r.algorithm, sent.algorithm) + tail;
    ClientPartRead(r.client, sent.client, got.client, middle, live);
    WholeParcelRead(r.client.extend, sent.client, got.client, middle, live);
    var live1 := AfterPop(r.client.extend, sent.client, got.client, live);
    AlgorithmPartRead(r.algorithm, sent.algorithm, got.algorithm, tail, live1);
    WholeParcelRead(r.algorithm.extend, sent.algorithm, got.algorithm, tail, live1);
    var live2 := AfterPop(r.algorithm.extend, sent.algorithm, got.algorithm, live1);
    assert tail + [] == tail;
    CutParcelReleases(r.input, sent.input, got.input, [], live2);
  }
}
