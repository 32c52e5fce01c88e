/** `PCMIterator`: the fields, buffers and pointers behind the streaming window iterator. */
module PcmIterator {
  import opened Platform
  import opened SlidingWindows
  import Model = PcmModel
  import Runs = PcmRuns

  /** An `Array<int16_t>`: a pointer into a buffer and a length. */
  datatype Slice = Slice(buf: array<int16>, pos: nat, size: nat)

  /** A slice lies in its buffer and holds `content`. */
  ghost predicate Holds(a: Slice, content: seq<int16>)
    reads a.buf
  {
    && a.pos + a.size <= a.buf.Length
    && a.size == |content|
    && forall i :: 0 <= i < a.size ==> a.buf[a.pos + i] == content[i]
  }

  /** The slides that start inside the first `x + 1` samples, in samples. */
  method SlideSpan(x: nat, step: nat) returns (span: nat)
    requires step > 0
    ensures span == LastStep(x, step)
  {
    LastStepByDivision(x, step);
    var numSlide := x / step;
    span := numSlide * step;
  }

  class PCMIterator {
    var stepSize: nat
    var windowSize: nat
    var numCopy: nat
    var numRealCopy: nat
    var nextCachePos: nat
    var maxCacheSize: int
    var isInitialized: bool
    var hasNext: bool
    var cache: array<int16>  // pcmCache_.data, of length 0 while it is null
    var cacheSize: nat       // pcmCache_.size
    var data: Slice          // pcmData_

    ghost var s: Model.State      // the fields as one value
    ghost var stream: seq<int16>  // every sample accepted so far
    ghost var start: nat          // where in the stream the next window begins

    /** The fields say what `s` says, apart from what the caller's chunk holds. */
    ghost predicate FieldsMirror()
      reads this, cache, data.buf
    {
      && isInitialized
      && cache.Length == maxCacheSize
      && data.buf != cache
      && s == Model.State(stepSize, windowSize, numCopy, numRealCopy, s.cache, nextCachePos, cacheSize, s.data, hasNext)
      && |s.cache| == cache.Length
      && (forall i :: 0 <= i < cache.Length ==> cache[i] == s.cache[i])
      && data.pos + data.size <= data.buf.Length && data.size == |s.data|
      && Model.Bounded(s)
    }

    /** The fields say what `s` says. */
    ghost predicate Mirrors()
      reads this, cache, data.buf
    {
      FieldsMirror() && Holds(data, s.data)
    }

    /** The iterator is in order: it has accepted `stream` and handed out every window that begins before `start`. */
    ghost predicate Valid()
      reads this, cache, data.buf
    {
      Mirrors() && windowSize <= 2 * stepSize + 1 && Model.Good(s, stream, start)
    }

    constructor ()
      ensures !isInitialized && stream == [] && start == 0
      ensures s == Model.State(1, 1, 0, 0, [], 0, 0, [], false)
      ensures numCopy == 0 && numRealCopy == 0 && nextCachePos == 0 && cacheSize == 0 && !hasNext
      ensures data.pos == data.size == 0 && data.buf != cache && fresh(cache) && fresh(data.buf)
    {
      stepSize, windowSize, numCopy, numRealCopy, nextCachePos, maxCacheSize := 1, 1, 0, 0, 0, 0;
      isInitialized, hasNext := false, false;
      var none := new int16[0];
      cache, cacheSize := new int16[0], 0;
      data := Slice(none, 0, 0);
      s := Model.State(1, 1, 0, 0, [], 0, 0, [], false);
      stream, start := [], 0;
    }

    /** Accepts a configuration; the arithmetic on `size_t` may wrap, and the cache size is cut to 32 bits. */
    method Init(step: nat, window: nat) returns (ret: RetCode)
      requires step < SIZE_T_MODULUS && window < SIZE_T_MODULUS
      modifies this`stepSize, this`windowSize, this`maxCacheSize, this`cache, this`isInitialized, this`s
      ensures old(isInitialized) || step == 0 || window < step ==>
                ret == Failure && unchanged(`stepSize) && unchanged(`windowSize) && unchanged(`cache) && unchanged(`isInitialized)
      ensures !old(isInitialized) && 0 < step <= window ==>
                && stepSize == step && windowSize == window
                && maxCacheSize == Model.CacheSizeComputed(step, window)
                && ret == (if maxCacheSize > Model.MAX_CACHE_SIZE then Failure else if maxCacheSize < 0 then OutOfMemory else Success)
                && (isInitialized <==> ret.Success?) && (ret.Success? <==> 0 <= maxCacheSize <= 16384)
      ensures ret.Success? ==>
                && fresh(cache) && cache.Length == maxCacheSize && |s.cache| == maxCacheSize
                && s == old(s).(step := step, window := window, cache := s.cache)
                && (forall i :: 0 <= i < maxCacheSize ==> cache[i] == s.cache[i])
    {
      if isInitialized {
        return Failure;
      }
      if step == 0 || window == 0 {
        return Failure;
      }
      if window < step {
        return Failure;
      }
      stepSize, windowSize := step, window;
      var maxNumRemain := windowSize - 1;
      var maxNumSlide := WrapSize(maxNumRemain - 1) / stepSize;
      maxCacheSize := ToInt32(WrapSize(maxNumSlide * stepSize + windowSize));
      if maxCacheSize > Model.MAX_CACHE_SIZE {
        return Failure;
      }
      if maxCacheSize < 0 {
        return OutOfMemory;
      }
      cache := new int16[maxCacheSize];
      isInitialized := true;
      s := s.(step := step, window := window, cache := cache[..]);
      return Success;
    }

    /** `memcpy_s` into the cache, from `at` on. */
    method CopyToCache(at: nat, input: Slice, count: nat, ghost src: seq<int16>) returns (ok: bool)
      requires Mirrors() && at <= |s.cache|
      requires count <= input.size && Holds(input, src)
      requires input.buf == cache ==> input.pos == nextCachePos
      modifies this`s, cache
      ensures Mirrors()
      ensures ok <==> at + count <= |s.cache| && !(input.buf == cache && Overlap(at, nextCachePos, count))
      ensures s == old(s).(cache := if ok then Copied(old(s).cache, at, src[..count])
                                    else Copied(old(s).cache, at, Repeat(|old(s).cache| - at, 0)))
    {
      ok := MemcpyS(cache, at, maxCacheSize - at, input.buf, input.pos, count, 0);
      s := s.(cache := if ok then Copied(s.cache, at, src[..count]) else Copied(s.cache, at, Repeat(|s.cache| - at, 0)));
    }

    method MoveDataToCache(input: Slice, ghost src: seq<int16>) returns (ret: RetCode)
      requires Mirrors()
      requires 0 < input.size < windowSize && Holds(input, src)
      requires input.buf == cache ==> input.pos == nextCachePos
      modifies this`s, this`cacheSize, this`nextCachePos, this`numCopy, cache
      ensures Mirrors()
      ensures (s, ret) == Model.MoveDataToCache(old(s), src, input.buf == cache)
    {
      assert src[..input.size] == src;
      var ok := CopyToCache(0, input, input.size, src);
      if !ok {
        return MemoryCopyFailure;
      }
      cacheSize := input.size;
      nextCachePos := 0;
      var span := SlideSpan(cacheSize - 1, stepSize);
      numCopy := span + windowSize - cacheSize;
      s := s.(size := cacheSize, pos := 0, numCopy := numCopy);
      return Success;
    }

    /** Points `pcmData_` at what follows the first `skip` samples of `input`. */
    method PointAt(input: Slice, skip: nat, ghost chunk: seq<int16>)
      requires Mirrors() && skip <= input.size
      requires input.buf != cache && Holds(input, chunk)
      modifies this`s, this`data
      ensures Mirrors() && data.buf == input.buf
      ensures s == old(s).(data := chunk[skip..])
    {
      data := Slice(input.buf, input.pos + skip, input.size - skip);
      s := s.(data := chunk[skip..]);
    }

    /** The part of `Prepare` that completes the cache from the new chunk. */
    method CompleteCache(input: Slice, ghost chunk: seq<int16>) returns (ret: RetCode)
      requires Mirrors()
      requires input.buf != cache && Holds(input, chunk)
      modifies this`s, this`numCopy, this`numRealCopy, this`cacheSize, this`data, cache
      ensures Mirrors() && data.buf == (if ret.Success? then input.buf else old(data.buf))
      ensures (s, ret) == Model.CompleteCache(old(s), chunk)
    {
      if numCopy > 0 {
        ret := FillCache(input, chunk);
        return;
      }
      assert chunk[0..] == chunk;
      numRealCopy := 0;
      s := s.(numReal := 0);
      PointAt(input, 0, chunk);
      return Success;
    }

    method FillCache(input: Slice, ghost chunk: seq<int16>) returns (ret: RetCode)
      requires Mirrors()
      requires input.buf != cache && Holds(input, chunk)
      modifies this`s, this`numCopy, this`numRealCopy, this`cacheSize, this`data, cache
      ensures Mirrors() && data.buf == (if ret.Success? then input.buf else old(data.buf))
      ensures (s, ret) == Model.FillCache(old(s), chunk, old(if numCopy > input.size then input.size else numCopy))
    {
      numRealCopy := if numCopy > input.size then input.size else numCopy;
      s := s.(numReal := numRealCopy);
      ret := CopyBehindCached(input, chunk);
      if ret.Success? {
        PointBehind(input, chunk);
      }
    }

    /** Points `pcmData_` at what windows from the chunk will need of it, by the signed `diff`. */
    method PointBehind(input: Slice, ghost chunk: seq<int16>)
      requires Mirrors() && numRealCopy <= input.size
      requires input.buf != cache && Holds(input, chunk)
      modifies this`s, this`data
      ensures Mirrors() && data.buf == input.buf
      ensures s == old(s).(data := Model.RestOfChunk(old(s), chunk))
    {
      var diff := numRealCopy - windowSize + stepSize;
      var skip := if numCopy > 0 then input.size else if diff > 0 then diff else 0;
      assert chunk[skip..] == Model.RestOfChunk(s, chunk);
      PointAt(input, skip, chunk);
    }

    method CopyBehindCached(input: Slice, ghost chunk: seq<int16>) returns (ret: RetCode)
      requires Mirrors() && numRealCopy <= numCopy && numRealCopy <= input.size
      requires input.buf != cache && Holds(input, chunk)
      modifies this`s, this`numCopy, this`cacheSize, cache
      ensures Mirrors()
      ensures ret == (if numRealCopy > |old(s).cache| - (old(s).pos + old(s).size) then MemoryCopyFailure else Success)
      ensures s == Model.Appended(old(s), chunk, numRealCopy)
    {
      var copied := CopyToCache(nextCachePos + cacheSize, input, numRealCopy, chunk);
      if !copied {
        return MemoryCopyFailure;
      }
      cacheSize := cacheSize + numRealCopy;
      numCopy := numCopy - numRealCopy;
      s := s.(size := cacheSize, numCopy := numCopy);
      return Success;
    }

    method Prepare(input: Slice, ghost chunk: seq<int16>) returns (ret: RetCode)
      requires Mirrors()
      requires input.buf != cache && Holds(input, chunk)
      modifies this`s, this`numCopy, this`numRealCopy, this`nextCachePos, this`cacheSize, this`hasNext, this`data, cache
      ensures Mirrors() && (data.buf == input.buf || (data.buf == old(data.buf) && !ret.Success?))
      ensures (s, ret) == Model.Prepare(old(s), chunk)
    {
      ret := CompleteCache(input, chunk);
      if ret != Success {
        return;
      }
      if windowSize <= cacheSize || windowSize <= data.size {
        hasNext := true;
        s := s.(hasNext := true);
      } else if cacheSize == 0 && 0 < data.size < windowSize {
        ret := MoveDataToCache(data, s.data);
      }
    }

    /** What `HasNext` does before it answers, in every configuration. */
    method Recache()
      requires Mirrors()
      modifies this`s, this`numCopy, this`numRealCopy, this`nextCachePos, this`cacheSize, this`hasNext, this`data, cache
      ensures Mirrors() && data.buf == old(data.buf)
      ensures s == Model.HasNext(old(s))
    {
      if nextCachePos > 0 && numCopy == 0 && cacheSize > 0 && cacheSize < windowSize {
        ghost var src := Model.Cached(s);
        var _ := MoveDataToCache(Slice(cache, nextCachePos, cacheSize), src);
        var _ := Prepare(data, s.data);
      } else if cacheSize == 0 && 0 < data.size < windowSize {
        var _ := MoveDataToCache(data, s.data);
        data := data.(size := 0);
        s := s.(data := []);
      }
    }

    /** `HasNext` with what its caller inside the iterator needs to know. */
    method Settle() returns (ready: bool)
      requires Valid()
      modifies this`s, this`numCopy, this`numRealCopy, this`nextCachePos, this`cacheSize, this`hasNext, this`data, cache
      ensures Valid() && data.buf == old(data.buf)
      ensures Model.Settled(s, stream, start) && ready == s.hasNext
      ensures ready <==> start + windowSize <= |stream|
      ensures !ready ==> Model.Drained(s, stream, start)
    {
      Model.HasNextSettles(s, stream, start);
      Model.SettledFlag(Model.HasNext(s), stream, start);
      Recache();
      return hasNext;
    }

    /** Whether a window is ready. If none is, every sample that is still needed is in the cache. */
    method HasNext() returns (ready: bool)
      requires Valid()
      modifies this`s, this`numCopy, this`numRealCopy, this`nextCachePos, this`cacheSize, this`hasNext, this`data, cache
      ensures Valid() && data.buf == old(data.buf)
      ensures ready <==> start + windowSize <= |stream|
      ensures !ready ==> start + cacheSize == |stream|
    {
      ready := Settle();
    }

    /** `SetInput` after its call of `HasNext`, in every configuration. */
    method Accept(input: Slice, ghost chunk: seq<int16>) returns (ret: RetCode)
      requires Mirrors()
      requires input.buf != cache && Holds(input, chunk)
      modifies this`s, this`numCopy, this`numRealCopy, this`nextCachePos, this`cacheSize, this`hasNext, this`data, cache
      ensures Mirrors() && (data.buf == input.buf || (data.buf == old(data.buf) && !ret.Success?))
      ensures old(hasNext) ==> data.buf == old(data.buf)
      ensures (s, ret) == Model.Accept(old(s), chunk)
    {
      if hasNext {
        return Failure;
      }
      if input.size == 0 {
        return NullParam;
      }
      ret := Prepare(input, chunk);
    }

    /** In order, it accepts a chunk exactly when that is not empty and no window is waiting. */
    method SetInput(input: Slice, ghost chunk: seq<int16>) returns (ret: RetCode)
      requires Mirrors()
      requires input.buf != cache && Holds(input, chunk)
      modifies this`s, this`numCopy, this`numRealCopy, this`nextCachePos, this`cacheSize, this`hasNext, this`data, this`stream, cache
      ensures Mirrors() && (data.buf == input.buf || (data.buf == old(data.buf) && !ret.Success?))
      ensures Model.HasNext(old(s)).hasNext ==> data.buf == old(data.buf)
      ensures (s, ret) == Model.Accept(Model.HasNext(old(s)), chunk)
      ensures stream == (if ret.Success? then old(stream) + chunk else old(stream))
      ensures old(Valid()) ==> Valid()
      ensures old(Valid()) && |old(stream)| < start + windowSize && chunk == [] ==> start + cacheSize == |stream|
      ensures old(Valid()) ==> (ret.Success? <==> old(|stream| < start + windowSize) && chunk != [])
    {
      ghost var valid := Valid();
      if valid {
        Model.HasNextSettles(s, stream, start);
        Model.SettledFlag(Model.HasNext(s), stream, start);
        Model.AcceptKeeps(Model.HasNext(s), chunk, stream, start);
      }
      Recache();
      ret := Accept(input, chunk);
      if ret == Success {
        stream := stream + chunk;
      }
    }

    /** The window that begins at `start`, if the stream has it. */
    method Next() returns (output: Slice, ghost content: seq<int16>)
      requires Valid()
      modifies this`s, this`numCopy, this`numRealCopy, this`nextCachePos, this`cacheSize, this`hasNext, this`data, this`start, cache
      ensures Valid() && data.buf == old(data.buf)
      ensures (output.buf == cache || output.buf == data.buf) && Holds(output, content)
      ensures content == old(if start + windowSize <= |stream| then stream[start..start + windowSize] else [])
      ensures start == old(if start + windowSize <= |stream| then start + stepSize else start)
    {
      ghost var next := start + stepSize;
      ghost var w := if start + windowSize <= |stream| then stream[start..start + windowSize] else [];
      var ready := Settle();
      if !ready {
        return Slice(cache, 0, 0), w;
      }
      output, content := TakeReady(next, w);
    }

    /** The window `w` that is ready, and the step to the next. */
    method TakeReady(ghost next: nat, ghost w: seq<int16>) returns (output: Slice, ghost content: seq<int16>)
      requires Valid() && Model.Settled(s, stream, start) && hasNext
      requires next == start + stepSize && start + windowSize <= |stream| && w == stream[start..start + windowSize]
      modifies this`s, this`nextCachePos, this`cacheSize, this`hasNext, this`data, this`start
      ensures Valid() && data.buf == old(data.buf) && start == next
      ensures (output.buf == cache || output.buf == data.buf) && Holds(output, content) && content == w
    {
      Model.NextKeeps(s, stream, start, next, w);
      start := next;
      output, content := TakeFront();
    }

    /** `Next` after its call of `HasNext` said yes. */
    method TakeFront() returns (output: Slice, ghost content: seq<int16>)
      requires Mirrors() && (windowSize <= cacheSize || windowSize <= data.size)
      modifies this`s, this`nextCachePos, this`cacheSize, this`hasNext, this`data
      ensures Mirrors() && data.buf == old(data.buf)
      ensures (output.buf == cache || output.buf == data.buf) && Holds(output, content)
      ensures content == Model.Front(old(s)) && s == Model.Emit(old(s))
    {
      content := Model.Front(s);
      if windowSize <= cacheSize {
        output := Slice(cache, nextCachePos, windowSize);
        PopCache();
      } else {
        output := Slice(data.buf, data.pos, windowSize);
        PointAt(data, stepSize, s.data);
      }
      if cacheSize < windowSize && data.size < windowSize {
        hasNext := false;
        s := s.(hasNext := false);
      }
    }

    method PopCache()
      requires Mirrors() && windowSize <= cacheSize
      modifies this`s, this`nextCachePos, this`cacheSize
      ensures Mirrors()
      ensures s == Model.PopCache(old(s))
    {
      nextCachePos := nextCachePos + stepSize;
      cacheSize := cacheSize - stepSize;
      if numCopy == 0 && cacheSize < windowSize {
        var diff := windowSize - stepSize - numRealCopy;
        cacheSize := if diff > 0 then diff else 0;
      }
      s := s.(pos := nextCachePos, size := cacheSize);
    }

    /** The caller has written over its chunk: `s` takes over what it now holds. */
    ghost method Reread()
      requires FieldsMirror()
      modifies this`s
      ensures Mirrors() && s == old(s).(data := s.data)
    {
      s := s.(data := data.buf[data.pos..data.pos + data.size]);
    }
  }
}
