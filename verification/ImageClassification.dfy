/**
 * The image classification plugin and its client: an image travels in slices, is put together in the
 * model's input space, and the best scores travel back.
 */
module ImageClassification {
  import opened Platform
  import opened Codec
  import opened DataEncoding
  import opened EncdecFacade
  import opened TopK

  const DEFAULT_OUTPUT_SIZE := 5
  const MAX_IPC_BUFFER_SIZE := 25600

  /** Scores a model may have, so that the answer's length is an `int`. */
  const MAX_SCORES := 0x400_0000

  /** An `intptr_t` as its bytes. */
  type Handle = h: seq<byte> | |h| == SIZE_T_BYTES witness SizeBytes(0)

  /** A loaded model: its input space, the number of scores it produces and how many to return. */
  datatype Config = Config(input: array<byte>, maxOutputSize: nat, outputSize: nat)

  function UInt32Bytes(n: nat): (r: seq<byte>)
    ensures |r| == 4
  {
    ToLittleEndian(n, 4)
  }

  lemma UInt32RoundTrip(n: nat)
    requires n < 0x1_0000_0000
    ensures FromLittleEndian(UInt32Bytes(n)) == n
  {
    assert Power256(4) == 0x1_0000_0000;
    NumberRoundTrip(n, 4);
  }

  /** An array of bytes as the encoder sees it. */
  function Singles(s: seq<byte>): (r: seq<seq<byte>>)
    ensures |r| == |s| && AllWide(r, 1)
    ensures forall i :: 0 <= i < |s| ==> r[i] == [s[i]]
  {
    seq(|s|, i requires 0 <= i < |s| => [s[i]])
  }

  lemma {:induction false} FlatOfSingles(s: seq<byte>)
    ensures Flat(Singles(s)) == s
  {
    if s != [] {
      FlatOfSingles(s[1..]);
      assert Singles(s)[1..] == Singles(s[1..]);
      assert Singles(s)[0] == [s[0]];
    }
  }

  /** One slice on the wire. */
  function SliceArguments(handle: Handle, index: nat, slice: seq<byte>): seq<Value> {
    [Fixed(handle), Fixed(UInt32Bytes(index)), Arr(1, Singles(slice))]
  }

  function SliceTypes(): seq<Type> {
    [TFixed(SIZE_T_BYTES), TFixed(4), TArr(1, true)]
  }

  function PairsOf(items: seq<Item>): (r: seq<Pair>)
    ensures |r| == |items|
    ensures forall i :: 0 <= i < |r| ==>
              r[i] == Pair(UInt32Bytes(items[i].id % 0x1_0000_0000), UInt32Bytes(items[i].score % 0x1_0000_0000))
  {
    seq(|items|, i requires 0 <= i < |items| =>
      Pair(UInt32Bytes(items[i].id % 0x1_0000_0000), UInt32Bytes(items[i].score % 0x1_0000_0000)))
  }

  /** The plugin's answer: the handle and the best label-score pairs. */
  function AnswerArguments(handle: Handle, items: seq<Item>): seq<Value> {
    [Fixed(handle), Items(PairsOf(items))]
  }

  lemma PayloadOfOneMore(v: Value, vs: seq<Value>)
    ensures Payload([v] + vs) == Encoding(v) + Payload(vs)
  {
    assert ([v] + vs)[1..] == vs;
  }

  lemma PayloadOfTwo(a: Value, b: Value)
    ensures Payload([a, b]) == Encoding(a) + Encoding(b)
  {
    PayloadOfOneMore(b, []);
    assert [b] + [] == [b] && Encoding(b) + [] == Encoding(b);
    PayloadOfOneMore(a, [b]);
    assert [a] + [b] == [a, b];
  }

  lemma PayloadOfThree(a: Value, b: Value, c: Value)
    ensures Payload([a, b, c]) == Encoding(a) + (Encoding(b) + Encoding(c))
  {
    PayloadOfTwo(b, c);
    PayloadOfOneMore(a, [b, c]);
    assert [a] + [b, c] == [a, b, c];
  }

  /** A slice's message is longer than the slice by a handle, an index, a size and the trailer. */
  lemma SliceLength(handle: Handle, index: nat, slice: seq<byte>)
    ensures |Message(SliceArguments(handle, index, slice))| == |slice| + 3 * SIZE_T_BYTES + 4
  {
    FlatOfSingles(slice);
    PayloadOfThree(Fixed(handle), Fixed(UInt32Bytes(index)), Arr(1, Singles(slice)));
  }

  lemma {:induction false} FlatWidth(elems: seq<seq<byte>>, width: nat)
    requires AllWide(elems, width) && width == 4
    ensures |Flat(elems)| == 4 * |elems|
  {
    if elems != [] {
      FlatWidth(elems[1..], width);
    }
  }

  lemma AnswerLength(handle: Handle, items: seq<Item>)
    ensures |Message(AnswerArguments(handle, items))| == 8 * |items| + 3 * SIZE_T_BYTES
  {
    var pairs := PairsOf(items);
    FlatWidth(Firsts(pairs), 4);
    FlatWidth(Seconds(pairs), 4);
    PayloadOfTwo(Fixed(handle), Items(pairs));
  }

  lemma HandleLength(handle: Handle)
    ensures |Message([Fixed(handle)])| == 2 * SIZE_T_BYTES
  {
    PayloadOfOneMore(Fixed(handle), []);
    assert [Fixed(handle)] + [] == [Fixed(handle)];
  }

  lemma SliceIsWellTyped(handle: Handle, index: nat, slice: seq<byte>)
    requires 0 < |slice| <= MAX_IPC_BUFFER_SIZE
    ensures HaveTypes(SliceArguments(handle, index, slice), SliceTypes())
    ensures forall v :: v in SliceArguments(handle, index, slice) ==> Encodable(v)
  {
  }

  /** Reading a slice's message gives back the handle, the index and the slice. */
  lemma SliceIsRead(handle: Handle, index: nat, slice: seq<byte>, vs: seq<Value>)
    requires index < 0x1_0000_0000 && 0 < |slice| <= MAX_IPC_BUFFER_SIZE
    requires HaveTypes(vs, SliceTypes()) && Message(vs) == Message(SliceArguments(handle, index, slice))
    ensures vs == SliceArguments(handle, index, slice)
    ensures vs[0].bytes == handle && FromLittleEndian(vs[1].bytes) == index && Flat(vs[2].elems) == slice
  {
    var sent := SliceArguments(handle, index, slice);
    assert HaveTypes(sent, SliceTypes());
    SliceLength(handle, index, slice);
    MessageIsUnambiguous(SliceTypes(), Message(sent), sent, vs);
    UInt32RoundTrip(index);
    FlatOfSingles(slice);
  }

  /** A buffer is the message of at most one list of values of given types. */
  lemma MessageIsUnambiguous(ts: seq<Type>, s: seq<byte>, us: seq<Value>, vs: seq<Value>)
    requires |s| < SIZE_T_MODULUS && HaveTypes(us, ts) && HaveTypes(vs, ts) && s == Message(us) == Message(vs)
    ensures us == vs
  {
    DecodesExactlyMessages(ts, s, us);
    DecodesExactlyMessages(ts, s, vs);
  }

  function OptionTypes(): seq<Type> {
    [TFixed(SIZE_T_BYTES), TFixed(4)]
  }

  /** The option that asks for `n` scores. */
  function OptionArguments(handle: Handle, n: nat): seq<Value> {
    [Fixed(handle), Fixed(UInt32Bytes(n))]
  }

  /** It is read back as the handle and the number. */
  lemma OptionIsRead(handle: Handle, n: nat, vs: seq<Value>)
    requires n < 0x1_0000_0000
    ensures HaveTypes(OptionArguments(handle, n), OptionTypes())
    ensures HaveTypes(vs, OptionTypes()) && Message(vs) == Message(OptionArguments(handle, n)) ==>
              vs == OptionArguments(handle, n)
    ensures FromLittleEndian(OptionArguments(handle, n)[1].bytes) == n
  {
    var sent := OptionArguments(handle, n);
    PayloadOfTwo(Fixed(handle), Fixed(UInt32Bytes(n)));
    if HaveTypes(vs, OptionTypes()) && Message(vs) == Message(sent) {
      MessageIsUnambiguous(OptionTypes(), Message(sent), sent, vs);
    }
    UInt32RoundTrip(n);
  }

  datatype Inference = Inference(handle: Handle, image: seq<byte>)

  /** The scores a model produces for an input. */
  type Network = (Handle, seq<byte>) -> seq<int>

  class ICPlugin {
    var handles: map<Handle, Config>
    ghost var inferences: seq<Inference>

    /** At least one score is always asked for, and no two models share their input space. */
    ghost predicate Valid()
      reads this
    {
      && (forall h :: h in handles ==> 1 <= handles[h].outputSize <= MAX_SCORES && handles[h].maxOutputSize <= MAX_SCORES)
      && (forall g, h :: g in handles && h in handles && g != h ==> handles[g].input != handles[h].input)
    }

    /** Every model produces as many scores as its configuration says. */
    ghost predicate Fits(network: Network)
      reads this
    {
      forall h: Handle, image: seq<byte> :: h in handles ==> |network(h, image)| == handles[h].maxOutputSize
    }

    ghost function Inputs(): set<object>
      reads this
    {
      set h | h in handles :: handles[h].input
    }

    constructor ()
      ensures Valid() && handles == map[] && inferences == []
    {
      handles, inferences := map[], [];
    }

    /**
     * `Prepare`; `initialised` and `built` are what the adapter answers. A new handle returns five scores unless an
     * option says otherwise, and travels back to the client; a known handle succeeds without an answer.
     */
    method Prepare(initialised: RetCode, handle: Handle, built: RetCode, input: array<byte>, maxOutputSize: nat)
      returns (ret: RetCode, output: DataInfo)
      requires Valid() && input !in Inputs() && maxOutputSize <= MAX_SCORES
      modifies this`handles
      ensures Valid()
      ensures ret == if initialised == Success && (handle in old(handles) || built == Success) then Success else Failure
      ensures handles == if ret.Success? && handle !in old(handles)
                         then old(handles)[handle := Config(input, maxOutputSize, DEFAULT_OUTPUT_SIZE)] else old(handles)
      ensures output.data != null <==> ret.Success? && handle !in old(handles)
      ensures output.data != null ==> output.length == |Message([Fixed(handle)])| && output.data[..] == Message([Fixed(handle)])
    {
      output := DataInfo(null, 0);
      if initialised != Success {
        return Failure, output;
      }
      if handle in handles {
        return Success, output;
      }
      if built != Success {
        return Failure, output;
      }
      handles := handles[handle := Config(input, maxOutputSize, DEFAULT_OUTPUT_SIZE)];
      HandleLength(handle);
      var arguments := [Fixed(handle)];
      ret, output := ProcessEncode(arguments);
    }

    /** `SetOption` for the output size: a size the model cannot produce, or zero, changes nothing. */
    method SetOutputSize(dataInfo: DataInfo) returns (ret: RetCode, ghost args: seq<Value>)
      requires Valid() && (dataInfo.data != null ==> dataInfo.length <= dataInfo.data.Length && dataInfo.length <= INT_MAX)
      modifies this`handles
      ensures Valid() && handles.Keys == old(handles).Keys
      ensures ret.Success? ==> HaveTypes(args, OptionTypes()) && HasType(args[0], TFixed(SIZE_T_BYTES)) && args[0].bytes in handles
      ensures ret.Success? ==> dataInfo.data != null && 0 < dataInfo.length &&
                               dataInfo.data[..dataInfo.length] == Message(args)
      ensures ret.Success? ==>
                var h, n := args[0].bytes, FromLittleEndian(args[1].bytes);
                handles == if 0 < n <= old(handles)[h].maxOutputSize then old(handles)[h := old(handles)[h].(outputSize := n)]
                           else old(handles)
      ensures !ret.Success? ==> handles == old(handles)
      ensures !ret.Success? && dataInfo.data != null && dataInfo.length > 0 ==>
                forall us: seq<Value> :: HaveTypes(us, OptionTypes()) && dataInfo.data[..dataInfo.length] == Message(us) ==>
                  us[0].Fixed? && us[0].bytes !in handles
      ensures dataInfo.data != null && dataInfo.length > 0 ==>
                forall h: Handle, n: nat | h in old(handles) && n < 0x1_0000_0000 &&
                                           dataInfo.data[..dataInfo.length] == Message(OptionArguments(h, n)) ::
                  && ret.Success?
                  && handles == if 0 < n <= old(handles)[h].maxOutputSize then old(handles)[h := old(handles)[h].(outputSize := n)]
                                else old(handles)
    {
      args := [];
      if dataInfo.data == null || dataInfo.length <= 0 {
        return NullParam, args;
      }
      var ts := OptionTypes();
      var code, vs := ProcessDecode(dataInfo, ts);
      if code != Success {
        forall h: Handle, n: nat | n < 0x1_0000_0000
          ensures dataInfo.data[..dataInfo.length] != Message(OptionArguments(h, n))
        {
          OptionIsRead(h, n, []);
        }
        return code, args;
      }
      args := vs;
      forall h: Handle, n: nat | n < 0x1_0000_0000 && dataInfo.data[..dataInfo.length] == Message(OptionArguments(h, n))
        ensures vs == OptionArguments(h, n) && FromLittleEndian(vs[1].bytes) == n
      {
        OptionIsRead(h, n, vs);
      }
      assert HasType(vs[0], ts[0]) && HasType(vs[1], ts[1]);
      var handle: Handle, outputSize := vs[0].bytes, FromLittleEndian(vs[1].bytes);
      if handle !in handles {
        forall us | HaveTypes(us, ts) && dataInfo.data[..dataInfo.length] == Message(us)
          ensures us == vs
        {
          MessageIsUnambiguous(ts, dataInfo.data[..dataInfo.length], us, vs);
        }
        return Failure, args;
      }
      if outputSize > 0 && outputSize <= handles[handle].maxOutputSize {
        handles := handles[handle := handles[handle].(outputSize := outputSize)];
      }
      return Success, args;
    }

    /** `DoProcess`: infers on the whole input space, then answers with the best scores. */
    method DoProcess(handle: Handle, config: Config, outcome: RetCode, network: Network)
      returns (ret: RetCode, response: DataInfo, ghost best: seq<Item>)
      requires 1 <= config.outputSize <= MAX_SCORES && config.maxOutputSize <= MAX_SCORES
      requires |network(handle, config.input[..])| == config.maxOutputSize
      modifies this`inferences
      ensures inferences == old(inferences) + [Inference(handle, config.input[..])]
      ensures ret == if outcome == Success then Success else Failure
      ensures ret.Success? ==> IsTopK(best, network(handle, config.input[..]), config.outputSize)
      ensures ret.Success? ==> response.data != null && fresh(response.data) && response.length == response.data.Length
      ensures ret.Success? ==> response.data[..] == Message(AnswerArguments(handle, best))
    {
      best, response := [], DataInfo(null, 0);
      inferences := inferences + [Inference(handle, config.input[..])];
      if outcome != Success {
        return Failure, response, best;
      }
      var scores := network(handle, config.input[..]);
      var result := GetTopK(scores, config.outputSize);
      best := result;
      AnswerLength(handle, result);
      var answer := AnswerArguments(handle, result);
      ret, response := ProcessEncode(answer);
    }

    /** A slice was stored: only its cells changed, and inference ran on the whole input if it was the last. */
    ghost predicate Stored(handle: Handle, index: nat, slice: seq<byte>, outcome: RetCode, network: Network,
                           before: seq<byte>, past: seq<Inference>,
                           ret: RetCode, response: DataInfo, best: seq<Item>)
      requires handle in handles && index + |slice| <= |before|
      reads this, handles[handle].input, response.data
    {
      var input := handles[handle].input;
      && input[..] == Copied(before, index, slice)
      && (if index + |slice| < |before| then
            ret == Success && response.data == null && inferences == past
          else
            && inferences == past + [Inference(handle, input[..])]
            && ret == (if outcome == Success then Success else Failure)
            && (ret.Success? ==> IsAnswer(handle, response, best) && IsTopK(best, network(handle, input[..]), handles[handle].outputSize)))
    }

    ghost predicate IsAnswer(handle: Handle, response: DataInfo, best: seq<Item>)
      reads response.data
    {
      && response.data != null && response.length == response.data.Length
      && response.data[..] == Message(AnswerArguments(handle, best))
    }

    /** `SyncProcess` once its arguments are read: the slice goes to its place, and the last one starts inference. */
    method PutSlice(handle: Handle, index: nat, slice: array<byte>, outcome: RetCode, network: Network)
      returns (ret: RetCode, response: DataInfo, ghost best: seq<Item>)
      requires Valid() && slice !in Inputs()
      requires Fits(network)
      modifies this`inferences, Inputs()
      ensures handle !in handles || index + slice.Length > handles[handle].input.Length ==>
                ret == Failure && inferences == old(inferences) && unchanged(Inputs())
      ensures handle in handles && index + slice.Length <= handles[handle].input.Length ==>
                Stored(handle, index, slice[..], outcome, network,
                       old(if handle in handles then handles[handle].input[..] else []), old(inferences), ret, response, best)
      ensures forall h :: h in handles && h != handle ==> handles[h].input[..] == old(handles[h].input[..])
    {
      response, best := DataInfo(null, 0), [];
      if handle !in handles {
        return Failure, response, best;
      }
      var config := handles[handle];
      var inputSize := config.input.Length;
      if index + slice.Length > inputSize {
        return Failure, response, best;
      }
      var copied := MemcpyS(config.input, index, inputSize - index, slice, 0, slice.Length, 0);
      assert copied;
      assert config.input[..] == Copied(old(config.input[..]), index, slice[..]);
      if index + slice.Length == inputSize {
        ret, response, best := DoProcess(handle, config, outcome, network);
      } else {
        ret := Success;
      }
    }

    /** The bytes of a message that holds one slice. */
    ghost predicate IsSlice(dataInfo: DataInfo, args: seq<Value>)
      reads dataInfo.data
    {
      && dataInfo.data != null && 0 < dataInfo.length <= dataInfo.data.Length
      && HaveTypes(args, SliceTypes()) && dataInfo.data[..dataInfo.length] == Message(args)
    }

    /** Reads a slice from the request and stores it; `args` is what was read, empty for a malformed request. */
    method SyncProcess(dataInfo: DataInfo, outcome: RetCode, network: Network)
      returns (ret: RetCode, response: DataInfo, ghost best: seq<Item>, ghost args: seq<Value>)
      requires Valid() && dataInfo.data !in Inputs()
      requires dataInfo.data != null ==> dataInfo.length <= dataInfo.data.Length && dataInfo.length <= INT_MAX
      requires Fits(network)
      modifies this`inferences, Inputs()
      ensures args == [] ==> !ret.Success? && inferences == old(inferences) && unchanged(Inputs())
      ensures args == [] ==> forall us :: !IsSlice(dataInfo, us)
      ensures args != [] ==> IsSlice(dataInfo, args) && IsHandle(args[0])
      ensures args != [] ==>
                var h, index, slice := args[0].bytes, FromLittleEndian(args[1].bytes), Flat(args[2].elems);
                if h !in handles || index + |slice| > handles[h].input.Length then
                  ret == Failure && inferences == old(inferences) && unchanged(Inputs())
                else
                  && Stored(h, index, slice, outcome, network,
                            old(if h in handles then handles[h].input[..] else []), old(inferences), ret, response, best)
                  && forall g :: g in handles && g != h ==> handles[g].input[..] == old(handles[g].input[..])
    {
      response, best, args := DataInfo(null, 0), [], [];
      if dataInfo.data == null || dataInfo.length <= 0 {
        return NullParam, response, best, args;
      }
      var code, vs := ProcessDecode(dataInfo, SliceTypes());
      if code != Success {
        return code, response, best, args;
      }
      args := vs;
      SliceArgumentTypes(vs);
      var handle: Handle, index, flat := vs[0].bytes, FromLittleEndian(vs[1].bytes), Flat(vs[2].elems);
      var slice := new byte[|flat|](i requires 0 <= i < |flat| => flat[i]);
      assert slice[..] == flat;
      ret, response, best := PutSlice(handle, index, slice, outcome, network);
    }
  }

  predicate IsHandle(v: Value) {
    v.Fixed? && |v.bytes| == SIZE_T_BYTES
  }

  lemma SliceArgumentTypes(vs: seq<Value>)
    requires HaveTypes(vs, SliceTypes())
    ensures |vs| == 3 && IsHandle(vs[0]) && vs[1].Fixed? && vs[2].Arr?
  {
    assert HasType(vs[0], SliceTypes()[0]) && HasType(vs[1], SliceTypes()[1]) && HasType(vs[2], SliceTypes()[2]);
  }

  // ---- The client ----

  datatype IcRetCode = IcSuccess | IcFailure | IcNullParam | IcSerializationError | IcUnserializationError

  /** The labels and scores handed to the callback, or none. */
  datatype Delivery = OnResult(elems: seq<seq<byte>>) | OnError

  /** `Copied` just past what is already in place extends it. */
  lemma SliceExtends(before: seq<byte>, image: seq<byte>, offset: nat, size: nat)
    requires offset + size <= |image| && offset + size <= |before|
    requires before[..offset] == image[..offset]
    ensures Copied(before, offset, image[offset..offset + size])[..offset + size] == image[..offset + size]
    ensures offset + size == |before| ==> Copied(before, offset, image[offset..offset + size]) == image[..offset + size]
  {
    var after := Copied(before, offset, image[offset..offset + size]);
    assert after[..offset + size] == before[..offset] + image[offset..offset + size];
    if offset + size == |before| {
      assert after == after[..offset + size];
    }
  }

  /** One step of the client's loop: encode a slice and have the plugin process it. */
  method SendSlice(plugin: ICPlugin, handle: Handle, image: seq<byte>, offset: nat, size: nat,
                   outcome: RetCode, network: Network)
    returns (ret: RetCode, output: DataInfo, ghost best: seq<Item>)
    requires plugin.Valid() && |image| < 0x1_0000_0000
    requires plugin.Fits(network)
    requires 0 < size <= MAX_IPC_BUFFER_SIZE && offset + size <= |image|
    modifies plugin`inferences, plugin.Inputs()
    ensures handle !in plugin.handles || offset + size > plugin.handles[handle].input.Length ==>
              ret == Failure && plugin.inferences == old(plugin.inferences) && unchanged(plugin.Inputs())
    ensures handle in plugin.handles && offset + size <= plugin.handles[handle].input.Length ==>
              plugin.Stored(handle, offset, image[offset..offset + size], outcome, network,
                            old(if handle in plugin.handles then plugin.handles[handle].input[..] else []),
                            old(plugin.inferences), ret, output, best)
  {
    var slice := image[offset..offset + size];
    var arguments := SliceArguments(handle, offset, slice);
    SliceLength(handle, offset, slice);
    SliceIsWellTyped(handle, offset, slice);
    var code, message := ProcessEncode(arguments);
    assert plugin.IsSlice(message, arguments) by {
      assert message.data[..message.length] == message.data[..];
    }
    ghost var args;
    ret, output, best, args := plugin.SyncProcess(message, outcome, network);
    assert plugin.IsSlice(message, arguments);
    SliceIsRead(handle, offset, slice, args);
  }

  /** What has been sent so far, with `offset` bytes gone out. */
  ghost predicate Sent(plugin: ICPlugin, handle: Handle, image: seq<byte>, offset: nat, past: seq<Inference>,
                       outcome: RetCode, network: Network, output: DataInfo, best: seq<Item>)
    requires handle in plugin.handles && offset <= |image|
    reads plugin, plugin.handles[handle].input, output.data
  {
    var input := plugin.handles[handle].input;
    && offset <= input.Length && input[..offset] == image[..offset]
    && (if offset == 0 || offset < input.Length then
          plugin.inferences == past && output.data == null
        else
          && plugin.inferences == past + [Inference(handle, image[..offset])] && outcome == Success
          && plugin.IsAnswer(handle, output, best) && IsTopK(best, network(handle, image[..offset]), plugin.handles[handle].outputSize))
  }

  /** The next slice, in the terms of everything sent before it. */
  method SendNext(plugin: ICPlugin, handle: Handle, image: seq<byte>, offset: nat, size: nat,
                  outcome: RetCode, network: Network,
                  ghost past: seq<Inference>, ghost sentOutput: DataInfo, ghost sentBest: seq<Item>)
    returns (ret: RetCode, output: DataInfo, ghost best: seq<Item>)
    requires plugin.Valid() && |image| < 0x1_0000_0000
    requires plugin.Fits(network)
    requires 0 < size <= MAX_IPC_BUFFER_SIZE && offset + size <= |image|
    requires handle in plugin.handles ==>
               Sent(plugin, handle, image, offset, past, outcome, network, sentOutput, sentBest)
    modifies plugin`inferences, plugin.Inputs()
    ensures handle !in plugin.handles || offset + size > plugin.handles[handle].input.Length ==>
              ret == Failure && plugin.inferences == old(plugin.inferences)
    ensures handle in plugin.handles && offset + size <= plugin.handles[handle].input.Length ==>
              && (ret.Success? <==> offset + size < plugin.handles[handle].input.Length || outcome == Success)
              && (ret.Success? ==>
                    Sent(plugin, handle, image, offset + size, past, outcome, network, output, best))
              && (!ret.Success? ==> plugin.inferences == past + [Inference(handle, image[..offset + size])])
  {
    ghost var before := if handle in plugin.handles then plugin.handles[handle].input[..] else [];
    ghost var fits := handle in plugin.handles && offset + size <= |before|;
    ret, output, best := SendSlice(plugin, handle, image, offset, size, outcome, network);
    if fits {
      assert before[..offset] == image[..offset];
      SliceExtends(before, image, offset, size);
    }
  }

  function SliceSize(image: seq<byte>, offset: nat): (size: nat)
    requires offset < |image|
    ensures 0 < size <= MAX_IPC_BUFFER_SIZE && offset + size <= |image|
  {
    if |image| - offset < MAX_IPC_BUFFER_SIZE then |image| - offset else MAX_IPC_BUFFER_SIZE
  }

  /** The inferences that sending `image` to an input space of `room` bytes causes. */
  ghost function Expected(handle: Handle, image: seq<byte>, room: nat): seq<Inference> {
    if image == [] then []
    else if |image| == room then [Inference(handle, image)]
    else if 0 < room < |image| && room % MAX_IPC_BUFFER_SIZE == 0 then [Inference(handle, image[..room])]
    else []
  }

  /** Whether all slices of `image` get through. */
  ghost predicate Succeeds(image: seq<byte>, room: nat, outcome: RetCode) {
    |image| < room || (|image| == room && outcome == Success)
  }

  /** Where sending stopped: a slice that does not fit, or an inference on a full input space that failed. */
  ghost predicate StoppedAt(handle: Handle, image: seq<byte>, room: nat, outcome: RetCode, offset: nat, ran: seq<Inference>) {
    && offset < |image| && offset <= room && offset % MAX_IPC_BUFFER_SIZE == 0
    && var end := offset + SliceSize(image, offset);
       if end > room then
         ran == if offset == 0 || offset < room then [] else [Inference(handle, image[..offset])]
       else
         end == room && outcome != Success && ran == [Inference(handle, image[..end])]
  }

  lemma StoppedAsExpected(handle: Handle, image: seq<byte>, room: nat, outcome: RetCode, offset: nat, ran: seq<Inference>)
    requires StoppedAt(handle, image, room, outcome, offset, ran)
    ensures !Succeeds(image, room, outcome) && ran == Expected(handle, image, room)
  {
    assert image[..|image|] == image;
  }

  /** The loop of `OnSyncExecute`; `offset` is where it ended. */
  method SendAll(plugin: ICPlugin, handle: Handle, image: seq<byte>, outcome: RetCode, network: Network)
    returns (ok: bool, output: DataInfo, ghost best: seq<Item>, ghost offset: nat)
    requires plugin.Valid() && |image| < 0x1_0000_0000 && image != []
    requires plugin.Fits(network)
    modifies plugin`inferences, plugin.Inputs()
    ensures handle !in plugin.handles ==> !ok && plugin.inferences == old(plugin.inferences)
    ensures ok ==> handle in plugin.handles &&
                   Sent(plugin, handle, image, |image|, old(plugin.inferences), outcome, network, output, best)
    ensures !ok && handle in plugin.handles ==>
              && old(plugin.inferences) <= plugin.inferences
              && StoppedAt(handle, image, plugin.handles[handle].input.Length, outcome, offset,
                           plugin.inferences[|old(plugin.inferences)|..])
  {
    best, output := [], DataInfo(null, 0);
    var sent: nat := 0;
    assert image[..0] == [];
    while sent < |image|
      invariant sent <= |image| && (sent % MAX_IPC_BUFFER_SIZE == 0 || sent == |image|)
      invariant plugin.Valid()
      invariant handle !in plugin.handles ==> sent == 0 && plugin.inferences == old(plugin.inferences)
      invariant handle in plugin.handles ==>
                  Sent(plugin, handle, image, sent, old(plugin.inferences), outcome, network, output, best)
    {
      var size := SliceSize(image, sent);
      var code;
      code, output, best := SendNext(plugin, handle, image, sent, size, outcome, network,
                                     old(plugin.inferences), output, best);
      offset := sent;
      if code != Success {
        return false, output, best, offset;
      }
      sent := sent + size;
    }
    return true, output, best, sent;
  }

  /**
   * `OnSyncExecute`: sends the image slice by slice. Inference runs once, on the whole image, when the image
   * is as large as the input space; not at all when it is smaller. A larger image is refused at the slice
   * that does not fit; inference has then run on its beginning exactly if the slices before filled the space.
   */
  method OnSyncExecute(plugin: ICPlugin, handle: Handle, image: seq<byte>, outcome: RetCode, network: Network)
    returns (ret: IcRetCode, output: DataInfo, ghost best: seq<Item>)
    requires plugin.Valid() && |image| < 0x1_0000_0000
    requires plugin.Fits(network)
    modifies plugin`inferences, plugin.Inputs()
    ensures ret == if image == [] then IcNullParam
                   else if handle in plugin.handles && Succeeds(image, plugin.handles[handle].input.Length, outcome) then IcSuccess
                   else IcFailure
    ensures plugin.inferences == old(plugin.inferences) +
              if handle !in plugin.handles then [] else Expected(handle, image, plugin.handles[handle].input.Length)
    ensures ret.IcSuccess? ==> Sent(plugin, handle, image, |image|, old(plugin.inferences), outcome, network, output, best)
  {
    if |image| == 0 {
      return IcNullParam, DataInfo(null, 0), [];
    }
    var ok;
    ghost var offset;
    ok, output, best, offset := SendAll(plugin, handle, image, outcome, network);
    assert image[..|image|] == image;
    if !ok {
      if handle in plugin.handles {
        StoppedAsExpected(handle, image, plugin.handles[handle].input.Length, outcome, offset,
                          plugin.inferences[|old(plugin.inferences)|..]);
      }
      return IcFailure, output, best;
    }
    return IcSuccess, output, best;
  }

  function AnswerTypes(): seq<Type> {
    [TFixed(SIZE_T_BYTES), TArr(PAIR_WIDTH, true)]
  }

  /** An answer reads back as the handle and one array: all labels, then all scores. */
  lemma AnswerIsRead(handle: Handle, items: seq<Item>, vs: seq<Value>)
    requires |items| <= MAX_SCORES
    requires HaveTypes(vs, AnswerTypes()) && Message(vs) == Message(AnswerArguments(handle, items))
    ensures vs == [Fixed(handle), Arr(PAIR_WIDTH, Firsts(PairsOf(items)) + Seconds(PairsOf(items)))]
  {
    AnswerReadsBack(handle, items);
    var sent := AnswerArguments(handle, items);
    AnswerLength(handle, items);
    MessageIsUnambiguous(AnswerTypes(), Message(sent), AllAsDecoded(sent), vs);
  }

  lemma AnswerReadsBack(handle: Handle, items: seq<Item>)
    requires |items| <= MAX_SCORES
    ensures AllAsDecoded(AnswerArguments(handle, items)) ==
            [Fixed(handle), Arr(PAIR_WIDTH, Firsts(PairsOf(items)) + Seconds(PairsOf(items)))]
    ensures HaveTypes(AllAsDecoded(AnswerArguments(handle, items)), AnswerTypes())
    ensures Message(AllAsDecoded(AnswerArguments(handle, items))) == Message(AnswerArguments(handle, items))
  {
    var sent := AnswerArguments(handle, items);
    AnswerIsEncodable(handle, items);
    DecodedIsSamePayload(sent);
    AnswerShape(handle, items);
  }

  lemma AnswerShape(handle: Handle, items: seq<Item>)
    ensures TypesOf(AnswerArguments(handle, items)) == AnswerTypes()
    ensures AllAsDecoded(AnswerArguments(handle, items)) ==
            [Fixed(handle), Arr(PAIR_WIDTH, Firsts(PairsOf(items)) + Seconds(PairsOf(items)))]
  {
  }

  lemma AnswerIsEncodable(handle: Handle, items: seq<Item>)
    requires |items| <= MAX_SCORES
    ensures forall v :: v in AnswerArguments(handle, items) ==> Encodable(v)
  {
    var sent := AnswerArguments(handle, items);
    forall v | v in sent
      ensures Encodable(v)
    {
      assert v == sent[0] || v == sent[1];
    }
  }

  /**
   * `SyncExecute`: the callback gets the best scores of the model run on the image, if the image has the
   * model's size. A smaller image delivers nothing, and the call still answers success.
   */
  method SyncExecute(plugin: ICPlugin, handle: Handle, image: seq<byte>, outcome: RetCode, network: Network)
    returns (ret: IcRetCode, delivery: Delivery, ghost best: seq<Item>)
    requires plugin.Valid() && |image| < 0x1_0000_0000
    requires plugin.Fits(network)
    modifies plugin`inferences, plugin.Inputs()
    ensures ret.IcSuccess? <==> image != [] && handle in plugin.handles &&
                                (|image| < plugin.handles[handle].input.Length ||
                                 (|image| == plugin.handles[handle].input.Length && outcome == Success))
    ensures ret.IcSuccess? ==> plugin.handles[handle].input[..|image|] == image
    ensures ret.IcSuccess? && |image| < plugin.handles[handle].input.Length ==>
              delivery == OnError && plugin.inferences == old(plugin.inferences)
    ensures ret.IcSuccess? && |image| == plugin.handles[handle].input.Length ==>
              && plugin.inferences == old(plugin.inferences) + [Inference(handle, image)]
              && delivery == OnResult(Firsts(PairsOf(best)) + Seconds(PairsOf(best)))
              && IsTopK(best, network(handle, image), plugin.handles[handle].outputSize)
    ensures !ret.IcSuccess? ==> delivery == OnError
  {
    var output;
    ret, output, best := OnSyncExecute(plugin, handle, image, outcome, network);
    assert image[..|image|] == image;
    if output.data == null || output.length <= 0 || ret != IcSuccess {
      return ret, OnError, best;
    }
    AnswerLength(handle, best);
    assert output.data[..output.length] == output.data[..];
    ghost var sent := AllAsDecoded(AnswerArguments(handle, best));
    AnswerReadsBack(handle, best);
    var code, vs := ProcessDecode(output, AnswerTypes());
    assert HaveTypes(sent, AnswerTypes());
    if code != Success {
      return IcUnserializationError, OnError, best;
    }
    AnswerIsRead(handle, best, vs);
    if vs[0].bytes != handle {
      return IcFailure, OnError, best;
    }
    return IcSuccess, OnResult(vs[1].elems), best;
  }
}
