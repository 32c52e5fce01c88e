/**
 * `SlideWindowProcessor`: every call appends one step of samples and returns a pointer to the last window of them
 * inside the work buffer, which is compacted before the call returns.
 */
module SlideWindow {
  import opened Platform

  const MAX_SAMPLE_SIZE := 20000

  datatype DataType = UINT8 | UINT16 | UINT32 | INT8 | INT16 | INT32 | FLOAT | UNKNOWN

  /** `CONVERT_DATATYPE_TO_SIZE`. */
  function TypeSize(t: DataType): (size: nat)
    ensures t != UNKNOWN ==> size == 1 || size == 2 || size == 4
  {
    match t
    case UINT8 | INT8 => 1
    case UINT16 | INT16 => 2
    case UINT32 | INT32 | FLOAT => 4
    case UNKNOWN => 5
  }

  /** The bytes of `n` samples, written without a product. */
  function Bytes(n: nat, t: DataType): nat {
    match t
    case UINT8 | INT8 => n
    case UINT16 | INT16 => 2 * n
    case UINT32 | INT32 | FLOAT => 4 * n
    case UNKNOWN => 5 * n
  }

  lemma BytesIsProduct(n: nat, t: DataType)
    ensures n * TypeSize(t) == Bytes(n, t)
  {
    match t
    case UINT8 | INT8 =>
    case UINT16 | INT16 =>
    case UINT32 | INT32 | FLOAT =>
    case UNKNOWN =>
  }

  lemma BufferBytes(window: nat, multiplier: nat, t: DataType)
    requires multiplier >= 1
    ensures Bytes(window * multiplier, t) >= Bytes(window, t)
    ensures multiplier >= 2 ==> Bytes(window * multiplier, t) >= 2 * Bytes(window, t)
  {
    if multiplier >= 2 {
      assert window * multiplier >= 2 * window;
    }
  }

  datatype Config = Config(dataType: DataType, bufferMultiplier: nat, stepSize: nat, windowSize: nat)

  /** The sizes `Init` computes, in bytes. */
  method Sizes(c: Config) returns (step: nat, window: nat, buffer: nat)
    requires c.stepSize <= c.windowSize && c.bufferMultiplier >= 1
    ensures step == Bytes(c.stepSize, c.dataType) <= window == Bytes(c.windowSize, c.dataType) <= buffer
    ensures c.bufferMultiplier >= 2 ==> 2 * window <= buffer
    ensures c.bufferMultiplier == 1 ==> window == buffer
  {
    BytesIsProduct(c.stepSize, c.dataType);
    BytesIsProduct(c.windowSize, c.dataType);
    BytesIsProduct(c.windowSize * c.bufferMultiplier, c.dataType);
    BufferBytes(c.windowSize, c.bufferMultiplier, c.dataType);
    var typeSize := TypeSize(c.dataType);
    step := c.stepSize * typeSize;
    window := c.windowSize * typeSize;
    buffer := (c.windowSize * c.bufferMultiplier) * typeSize;
  }

  // ---- Specification ----

  /** The last `size` bytes of a history that is preceded by silence. */
  ghost function LastBytes(history: seq<byte>, size: nat): (r: seq<byte>)
    ensures |r| == size
  {
    var padded := Repeat(size, 0) + history;
    padded[|padded| - size..]
  }

  /** What is left of a window when the bytes after its first `step` are moved to its front. */
  ghost function Clobbered(w: seq<byte>, step: nat): (r: seq<byte>)
    requires step <= |w|
    ensures |r| == |w|
    ensures forall i :: 0 <= i < |w| ==> r[i] == w[if i < |w| - step then i + step else i]
  {
    w[step..] + w[|w| - step..]
  }

  /** Whether compaction leaves every window alone that was just returned. */
  ghost predicate Safe(multiplier: nat, step: nat, window: nat) {
    multiplier >= 2 || step == window
  }

  /** The window the caller reads after a call: the last one, or what compaction has made of it. */
  ghost function ReadAfter(multiplier: nat, step: nat, window: nat, history: seq<byte>): seq<byte>
    requires step <= window
  {
    var w := LastBytes(history, window);
    if Safe(multiplier, step, window) then w else Clobbered(w, step)
  }

  /** A clobbered window reads right only if it repeats itself every step. */
  lemma ClobberedIsIntact(w: seq<byte>, step: nat)
    requires step <= |w|
    ensures Clobbered(w, step) == w <==> forall i :: 0 <= i < |w| - step ==> w[i] == w[i + step]
  {
    var c := Clobbered(w, step);
    if forall i :: 0 <= i < |w| - step ==> w[i] == w[i + step] {
      forall i | 0 <= i < |w|
        ensures c[i] == w[i]
      {
      }
    } else {
      var i :| 0 <= i < |w| - step && w[i] != w[i + step];
      assert c[i] != w[i];
    }
  }

  /** The window is right for every history exactly when the buffer is at least doubled or windows do not overlap. */
  lemma SafeIffAlwaysRight(multiplier: nat, step: nat, window: nat)
    requires 0 < step <= window
    ensures multiplier >= 2 || step == window <==>
            forall history :: ReadAfter(multiplier, step, window, history) == LastBytes(history, window)
  {
    if !Safe(multiplier, step, window) {
      var impulse := Repeat(window - 1, 0 as byte) + [1];
      var w := LastBytes(impulse, window);
      assert w == impulse;
      var i := window - step - 1;
      assert w[i] == 0 && w[i + step] == 1;
      ClobberedIsIntact(w, step);
      assert ReadAfter(multiplier, step, window, impulse) != LastBytes(impulse, window);
    }
  }

  /** Dropping the head of the last bytes and appending the new step gives the next last bytes. */
  lemma LastBytesSlide(history: seq<byte>, input: seq<byte>, window: nat)
    requires |input| <= window
    ensures LastBytes(history + input, window) == LastBytes(history, window - |input|) + input
  {
  }

  lemma SilentAtFirst(size: nat)
    ensures LastBytes([], size) == Repeat(size, 0)
  {
    assert Repeat(size, 0 as byte) + [] == Repeat(size, 0);
  }

  lemma LastBytesSuffix(history: seq<byte>, small: nat, large: nat)
    requires small <= large
    ensures LastBytes(history, small) == LastBytes(history, large)[large - small..]
  {
  }

  // ---- The processor ----

  /** `buf` holds `w` from `pos` on. */
  ghost predicate Shows(buf: array<byte>, pos: nat, w: seq<byte>)
    reads buf
  {
    pos + |w| <= buf.Length && forall i :: 0 <= i < |w| ==> buf[pos + i] == w[i]
  }

  class SlideWindowProcessor {
    var isInitialized: bool
    var workBuffer: array<byte>
    var inputFeature: nat  // the offset of inputFeature_ in workBuffer_
    var inType: DataType
    var typeSize: nat
    var startIndex: nat
    var initIndex: nat
    var bufferSize: nat
    var windowSize: nat    // in samples
    var stepSize: nat      // in bytes

    ghost var multiplier: nat
    ghost var windowBytes: nat
    ghost var history: seq<byte>  // every input accepted so far

    ghost predicate Typed()
      reads this
    {
      inType != UNKNOWN && typeSize == TypeSize(inType) && windowBytes == Bytes(windowSize, inType)
    }

    /** The buffer's layout: `initIndex` bytes to keep at `inputFeature`, and room for one more step behind them. */
    ghost predicate Layout()
      reads this
    {
      && 1 <= multiplier
      && windowBytes <= bufferSize == workBuffer.Length
      && (2 <= multiplier ==> 2 * windowBytes <= bufferSize)
      && (multiplier == 1 ==> windowBytes == bufferSize)
      && stepSize <= windowBytes && initIndex == windowBytes - stepSize
      && startIndex == inputFeature + initIndex
      && startIndex + stepSize <= bufferSize
    }

    /** The bytes the next window keeps are the last ones of the history. */
    ghost predicate Buffered()
      reads this, workBuffer
    {
      Layout() && Shows(workBuffer, inputFeature, LastBytes(history, initIndex))
    }

    ghost predicate Valid()
      reads this, workBuffer
    {
      isInitialized ==> Typed() && Buffered()
    }

    constructor ()
      ensures Valid() && !isInitialized && fresh(workBuffer)
    {
      isInitialized, inType := false, UNKNOWN;
      workBuffer := new byte[0];
      inputFeature, typeSize, startIndex, initIndex, bufferSize, windowSize, stepSize := 0, 0, 0, 0, 0, 0, 0;
    }

    method Configure(config: Config)
      requires config.dataType != UNKNOWN && config.stepSize <= config.windowSize && config.bufferMultiplier >= 1
      modifies this`inType, this`typeSize, this`windowSize, this`stepSize, this`initIndex, this`startIndex,
               this`bufferSize, this`multiplier, this`windowBytes
      ensures inType == config.dataType && windowSize == config.windowSize && multiplier == config.bufferMultiplier
      ensures stepSize == Bytes(config.stepSize, config.dataType) && Typed()
      ensures stepSize <= windowBytes <= bufferSize && startIndex == initIndex == windowBytes - stepSize
      ensures (2 <= multiplier ==> 2 * windowBytes <= bufferSize) && (multiplier == 1 ==> windowBytes == bufferSize)
    {
      var step, whole, buffer := Sizes(config);
      inType, typeSize, windowSize := config.dataType, TypeSize(config.dataType), config.windowSize;
      stepSize, initIndex, startIndex, bufferSize := step, whole - step, whole - step, buffer;
      multiplier, windowBytes := config.bufferMultiplier, whole;
    }

    /** A zeroed buffer: before the first input the history is silence. */
    method Allocate()
      requires Typed() && 1 <= multiplier
      requires stepSize <= windowBytes <= bufferSize && startIndex == initIndex == windowBytes - stepSize
      requires (2 <= multiplier ==> 2 * windowBytes <= bufferSize) && (multiplier == 1 ==> windowBytes == bufferSize)
      modifies this`workBuffer, this`inputFeature, this`history, this`isInitialized
      ensures isInitialized && Typed() && Buffered()
      ensures fresh(workBuffer) && history == []
    {
      workBuffer := new byte[bufferSize](_ => 0);
      inputFeature, history, isInitialized := 0, [], true;
      SilentAtFirst(initIndex);
      assert Layout();
    }

    method Init(config: Config) returns (ret: RetCode)
      requires Valid()
      modifies this
      ensures Valid()
      ensures ret.Success? <==>
              && !old(isInitialized) && config.dataType != UNKNOWN
              && config.stepSize <= config.windowSize <= MAX_SAMPLE_SIZE && config.bufferMultiplier != 0
      ensures ret.Success? || ret == Failure
      ensures !ret.Success? ==> isInitialized == old(isInitialized)
      ensures ret.Success? ==>
                && isInitialized && fresh(workBuffer) && history == [] && inType == config.dataType
                && multiplier == config.bufferMultiplier && windowSize == config.windowSize
                && stepSize == Bytes(config.stepSize, config.dataType) && windowBytes == Bytes(config.windowSize, config.dataType)
      ensures ret.Success? ==>
                match config.dataType
                case UINT8 | INT8 => stepSize == config.stepSize && windowBytes == windowSize
                case UINT16 | INT16 => stepSize == 2 * config.stepSize && windowBytes == 2 * windowSize
                case _ => stepSize == 4 * config.stepSize && windowBytes == 4 * windowSize
    {
      if isInitialized || config.dataType == UNKNOWN || config.windowSize < config.stepSize || config.bufferMultiplier == 0 {
        return Failure;
      }
      Configure(config);
      if windowSize > MAX_SAMPLE_SIZE {
        return Failure;
      }
      Allocate();
      return Success;
    }

    /** The copy of one step behind the samples the next window keeps. */
    method Append(input: array<byte>, ghost kept: seq<byte>, ghost w: seq<byte>)
      requires input != workBuffer && |kept| == initIndex && bufferSize == workBuffer.Length
      requires startIndex == inputFeature + initIndex && startIndex + input.Length <= bufferSize
      requires Shows(workBuffer, inputFeature, kept) && w == kept + input[..]
      modifies workBuffer
      ensures Shows(workBuffer, inputFeature, w)
    {
      var ok := MemcpyS(workBuffer, startIndex, bufferSize - startIndex, input, 0, input.Length, 0);
    }

    /** Moves the samples the next window keeps to the front of the buffer; `w` is the window just returned. */
    method Compact(ghost w: seq<byte>)
      requires initIndex + stepSize == |w| && Shows(workBuffer, inputFeature, w)
      requires initIndex <= inputFeature || inputFeature == 0
      modifies workBuffer
      ensures Shows(workBuffer, 0, w[stepSize..])
      ensures Shows(workBuffer, inputFeature, if initIndex <= inputFeature then w else Clobbered(w, stepSize))
    {
      MemmoveWithin(workBuffer, 0, inputFeature + stepSize, initIndex);
    }

    /**
     * Appends one step and returns the window of the last `windowSize` samples, as a position in `workBuffer`.
     * `count` is the number of samples in `input`; the caller's `output` must be empty.
     */
    method Process(input: array<byte>, dataType: DataType, count: nat, outputEmpty: bool) returns (ret: RetCode, output: nat)
      requires Valid() && input != workBuffer
      requires dataType in {UINT8, INT8} ==> input.Length == count
      requires dataType in {UINT16, INT16} ==> input.Length == 2 * count
      requires dataType in {UINT32, INT32, FLOAT} ==> input.Length == 4 * count
      modifies this`startIndex, this`inputFeature, this`history, workBuffer
      ensures Valid()
      ensures ret.Success? <==> isInitialized && dataType == inType && count > 0 && input.Length == stepSize && outputEmpty
      ensures ret.Success? || ret == Failure
      ensures !ret.Success? ==> unchanged(this) && unchanged(workBuffer)
      ensures ret.Success? ==>
                && history == old(history + input[..])
                && Shows(workBuffer, output, ReadAfter(multiplier, stepSize, windowBytes, history))
    {
      if !isInitialized || dataType != inType || count == 0 || input.Length != stepSize || !outputEmpty {
        return Failure, 0;
      }
      ret := Success;
      output := Advance(input);
    }

    /** `Process` once its arguments are checked. */
    method Advance(input: array<byte>) returns (output: nat)
      requires Buffered() && input != workBuffer && input.Length == stepSize
      modifies this`startIndex, this`inputFeature, this`history, workBuffer
      ensures Buffered() && history == old(history + input[..])
      ensures Shows(workBuffer, output, ReadAfter(multiplier, stepSize, windowBytes, history))
    {
      ghost var next := history + input[..];
      ghost var w, kept, keptNext := LastBytes(next, windowBytes), LastBytes(history, initIndex), LastBytes(next, initIndex);
      assert w == kept + input[..] by {
        LastBytesSlide(history, input[..], windowBytes);
      }
      assert w[stepSize..] == keptNext by {
        LastBytesSuffix(next, initIndex, windowBytes);
      }
      output := Slide(input, kept, w);
      history := next;
    }

    /** The buffer's part of `Process`. */
    method Slide(input: array<byte>, ghost kept: seq<byte>, ghost w: seq<byte>) returns (output: nat)
      requires Layout() && input != workBuffer && input.Length == stepSize
      requires |kept| == initIndex && Shows(workBuffer, inputFeature, kept) && w == kept + input[..]
      modifies this`startIndex, this`inputFeature, workBuffer
      ensures Layout() && Shows(workBuffer, inputFeature, w[stepSize..])
      ensures Shows(workBuffer, output, if Safe(multiplier, stepSize, windowBytes) then w else Clobbered(w, stepSize))
    {
      output := inputFeature;
      Append(input, kept, w);
      if bufferSize - (startIndex + stepSize) < stepSize {
        Compact(w);
        startIndex, inputFeature := initIndex, 0;
      } else {
        startIndex, inputFeature := startIndex + stepSize, inputFeature + stepSize;
      }
    }
  }
}
