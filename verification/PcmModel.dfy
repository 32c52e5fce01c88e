/**
 * The streaming window iterator as a function of its state. Audio arrives in chunks of any length and leaves as
 * windows of `window` samples, one every `step` samples, some read from the current chunk and some from a cache
 * that bridges chunk boundaries.
 */
module PcmModel {
  import opened Platform
  import opened SlidingWindows

  const MAX_CACHE_SIZE := 16384

  /** The fields of `PCMIterator`; `data` is what `pcmData_` points at, `cache` the whole cache array. */
  datatype State = State(
    step: nat, window: nat,
    numCopy: nat, numReal: nat,
    cache: seq<int16>, pos: nat, size: nat,
    data: seq<int16>,
    hasNext: bool)

  ghost predicate Bounded(s: State) {
    && 0 < s.step <= s.window
    && s.pos + s.size <= |s.cache|
  }

  ghost function Cached(s: State): (r: seq<int16>)
    requires Bounded(s)
    ensures |r| == s.size
  {
    s.cache[s.pos..s.pos + s.size]
  }

  // ---- The operations ----

  /** Moves `src` to the front of the cache; `inCache` says that `src` itself lies in the cache, at `pos`. */
  ghost function MoveDataToCache(s: State, src: seq<int16>, inCache: bool): (r: (State, RetCode))
    requires Bounded(s) && 0 < |src| < s.window
    ensures Bounded(r.0) && r.0.step == s.step && r.0.window == s.window
  {
    if |src| > |s.cache| || (inCache && Overlap(0, s.pos, |src|)) then
      (s.(cache := Copied(s.cache, 0, Repeat(|s.cache|, 0))), MemoryCopyFailure)
    else
      (s.(cache := Copied(s.cache, 0, src), size := |src|, pos := 0,
          numCopy := LastStep(|src| - 1, s.step) + s.window - |src|), Success)
  }

  /** The part of `Prepare` that completes the cache from the new chunk. */
  ghost function CompleteCache(s: State, input: seq<int16>): (r: (State, RetCode))
    requires Bounded(s)
    ensures Bounded(r.0) && r.0.step == s.step && r.0.window == s.window
  {
    if s.numCopy > 0 then FillCache(s, input, if s.numCopy > |input| then |input| else s.numCopy)
    else (s.(numReal := 0, data := input), Success)
  }

  /** Copies the first `n` samples of the chunk behind the cached ones and keeps what the leftover will need of it. */
  ghost function FillCache(s: State, input: seq<int16>, n: nat): (r: (State, RetCode))
    requires Bounded(s) && n <= s.numCopy && n <= |input|
    ensures Bounded(r.0) && r.0.step == s.step && r.0.window == s.window
  {
    var t := Appended(s.(numReal := n), input, n);
    if n > |s.cache| - (s.pos + s.size) then
      (t, MemoryCopyFailure)
    else
      (t.(data := RestOfChunk(t, input)), Success)
  }

  /** What windows from the chunk will need of it, once the cache is complete. */
  ghost function RestOfChunk(t: State, input: seq<int16>): seq<int16>
    requires Bounded(t) && t.numReal <= |input|
  {
    var diff := t.numReal - t.window + t.step;
    if t.numCopy > 0 then [] else if diff > 0 then input[diff..] else input
  }

  /** The checked copy of `n` samples behind the cached ones. */
  ghost function Appended(s: State, input: seq<int16>, n: nat): (r: State)
    requires Bounded(s) && n <= s.numCopy && n <= |input|
    ensures Bounded(r) && r.step == s.step && r.window == s.window
  {
    var end := s.pos + s.size;
    if n > |s.cache| - end then
      s.(cache := Copied(s.cache, end, Repeat(|s.cache| - end, 0)))
    else
      s.(numCopy := s.numCopy - n, size := s.size + n, cache := Copied(s.cache, end, input[..n]))
  }

  ghost function Prepare(s: State, input: seq<int16>): (r: (State, RetCode))
    requires Bounded(s)
    ensures Bounded(r.0) && r.0.step == s.step && r.0.window == s.window
  {
    var (s1, ret) := CompleteCache(s, input);
    if !ret.Success? then
      (s1, ret)
    else if s1.window <= s1.size || s1.window <= |s1.data| then
      (s1.(hasNext := true), Success)
    else if s1.size == 0 && 0 < |s1.data| < s1.window then
      MoveDataToCache(s1, s1.data, false)
    else
      (s1, Success)
  }

  /** The state `HasNext` leaves; its answer is the `hasNext` field. */
  ghost function HasNext(s: State): (r: State)
    requires Bounded(s)
    ensures Bounded(r) && r.step == s.step && r.window == s.window
  {
    if 0 < s.pos && s.numCopy == 0 && 0 < s.size < s.window then
      var s1 := MoveDataToCache(s, Cached(s), true).0;
      Prepare(s1, s1.data).0
    else if s.size == 0 && 0 < |s.data| < s.window then
      MoveDataToCache(s, s.data, false).0.(data := [])
    else
      s
  }

  /** `SetInput` after its call of `HasNext`. */
  ghost function Accept(s: State, input: seq<int16>): (r: (State, RetCode))
    requires Bounded(s)
    ensures Bounded(r.0) && r.0.step == s.step && r.0.window == s.window
  {
    if s.hasNext then (s, Failure) else if input == [] then (s, NullParam) else Prepare(s, input)
  }

  /** The window `Next` points at after its call of `HasNext` said yes. */
  ghost function Front(s: State): seq<int16>
    requires Bounded(s)
  {
    if s.window <= s.size then s.cache[s.pos..s.pos + s.window]
    else if s.window <= |s.data| then s.data[..s.window]
    else []
  }

  /** The state `Next` leaves behind that window. */
  ghost function Emit(s: State): (r: State)
    requires Bounded(s)
    ensures Bounded(r) && r.step == s.step && r.window == s.window
  {
    var t :=
      if s.window <= s.size then PopCache(s)
      else if s.window <= |s.data| then s.(data := s.data[s.step..])
      else s;
    if t.size < t.window && |t.data| < t.window then t.(hasNext := false) else t
  }

  ghost function PopCache(s: State): (r: State)
    requires Bounded(s) && s.window <= s.size
    ensures Bounded(r) && r.step == s.step && r.window == s.window
  {
    var left := s.size - s.step;
    var diff := s.window - s.step - s.numReal;
    s.(pos := s.pos + s.step,
       size := if s.numCopy == 0 && left < s.window then (if diff > 0 then diff else 0) else left)
  }

  // ---- The invariant ----

  /** Samples the cache must hold: the last window start below `window - 1`, plus one window. */
  ghost function CacheSizeFor(step: nat, window: nat): nat
    requires 0 < step <= window
  {
    if window == 1 then 0 else LastStep(window - 2, step) + window
  }

  /** What `Init` computes instead, in wrapping `size_t` arithmetic cut to 32 bits. */
  function CacheSizeComputed(step: nat, window: nat): int
    requires 0 < step <= window
  {
    ToInt32(WrapSize(WrapSize(window - 2) / step * step + window))
  }

  /** Up to a billion samples per window nothing wraps, except harmlessly when a window is one sample. */
  lemma CacheSizeExact(step: nat, window: nat)
    requires 0 < step <= window < 0x4000_0000
    ensures CacheSizeComputed(step, window) == CacheSizeFor(step, window)
  {
    if window > 1 {
      LastStepByDivision(window - 2, step);
    } else {
      assert WrapSize(-1) / 1 * 1 + 1 == SIZE_T_MODULUS;
    }
  }

  /**
   * For every configuration that `Init` accepts: either nothing was cut off and the cache is as long as it must be,
   * or it is too short to hold all but one sample of a window.
   */
  lemma AcceptedSize(step: nat, window: nat)
    requires 0 < step <= window < SIZE_T_MODULUS && 0 <= CacheSizeComputed(step, window) <= MAX_CACHE_SIZE
    ensures if CacheSizeFor(step, window) <= MAX_CACHE_SIZE
            then CacheSizeComputed(step, window) == CacheSizeFor(step, window)
            else CacheSizeComputed(step, window) < window - 1
  {
    if window < 0x4000_0000 {
      CacheSizeExact(step, window);
    }
  }

  ghost predicate Configured(s: State) {
    Bounded(s) && |s.cache| == CacheSizeFor(s.step, s.window)
  }

  /** Where in the cache the last of the windows it is to serve begins. */
  ghost function LastPos(s: State): int {
    s.pos + s.size + s.numCopy - s.window
  }

  /** From `pos`, the cache's windows follow each other up to the last, which begins at a cached sample. */
  ghost predicate OnGrid(s: State) {
    && s.pos <= LastPos(s) < s.pos + s.size
    && WholeSteps(LastPos(s) - s.pos, s.step)
    && LastPos(s) + s.window <= |s.cache|
  }

  /** Windows come straight from the caller's chunk. */
  ghost predicate Direct(s: State, stream: seq<int16>, start: nat)
    requires Bounded(s) && start <= |stream|
  {
    s.numCopy == 0 && s.size == 0 && s.data == stream[start..]
  }

  /** The cache waits for `numCopy` more samples to complete its last window. */
  ghost predicate Filling(s: State, stream: seq<int16>, start: nat)
    requires Bounded(s) && start <= |stream|
  {
    && 0 < s.numCopy < s.window
    && OnGrid(s)
    && Cached(s) == stream[start..]
    && |s.data| < s.window
  }

  /** Every sample of the cache's windows has arrived, the last `numReal` of them with the current chunk. */
  ghost predicate Draining(s: State, stream: seq<int16>, start: nat)
    requires Bounded(s) && start <= |stream|
  {
    && s.numCopy == 0 < s.numReal < s.window <= s.size
    && OnGrid(s)
    && Cached(s) <= stream[start..]
    && var kept := if s.numReal <= s.window - s.step then s.numReal else s.window - s.step;
       s.data == stream[start + s.size - kept..]
  }

  /** The cache has served its windows; what it holds beyond them is not in the current chunk. */
  ghost predicate Leftover(s: State, stream: seq<int16>, start: nat)
    requires Bounded(s) && start <= |stream|
  {
    && s.numCopy == 0 < s.numReal <= |s.data|
    && s.step <= s.pos
    && 0 < s.size == s.window - s.step - s.numReal
    && Cached(s) + s.data == stream[start..]
  }

  /** The iterator has accepted `stream` and handed out every window that begins before `start`. */
  ghost predicate Good(s: State, stream: seq<int16>, start: nat) {
    && Configured(s)
    && start <= |stream|
    && (Direct(s, stream, start) || Filling(s, stream, start) || Draining(s, stream, start) || Leftover(s, stream, start))
    && (s.hasNext <==> s.window <= s.size || (s.numCopy == 0 && s.window <= |s.data|))
  }

  /** A good state with nothing left to re-cache; the code's flag tells whether a window is ready. */
  ghost predicate Settled(s: State, stream: seq<int16>, start: nat) {
    && Good(s, stream, start)
    && (s.size == 0 ==> s.data == [] || s.window <= |s.data|)
    && !Leftover(s, stream, start)
  }

  /** No window is ready, and every sample still needed is in the cache: the caller may drop its chunk. */
  ghost predicate Drained(s: State, stream: seq<int16>, start: nat) {
    && Settled(s, stream, start)
    && !s.hasNext
    && Cached(s) == stream[start..]
    && |stream| < start + s.window
  }

  // ---- Every operation keeps the invariant ----

  /** Moving a chunk or a leftover shorter than a window to the cache starts filling it. */
  lemma MoveFills(s: State, src: seq<int16>, inCache: bool)
    requires Configured(s) && 0 < |src| < s.window
    requires inCache ==> s.pos >= |src|
    ensures var (t, ret) := MoveDataToCache(s, src, inCache);
            && ret.Success? && Configured(t) && OnGrid(t) && Cached(t) == src && 0 < t.numCopy < t.window
            && t == s.(cache := t.cache, size := |src|, pos := 0, numCopy := t.numCopy)
  {
    LastStepMonotone(|src| - 1, s.window - 2, s.step);
  }

  /** What `Prepare` may be given: an empty cache, or one that is filling. */
  ghost predicate Waiting(s: State, stream: seq<int16>, start: nat) {
    && Configured(s)
    && start <= |stream|
    && Cached(s) == stream[start..]
    && (s.numCopy == 0 ==> s.size == 0)
    && (s.numCopy > 0 ==> OnGrid(s) && s.numCopy < s.window)
  }

  lemma CompleteCacheKeeps(s: State, input: seq<int16>, stream: seq<int16>, start: nat)
    requires Waiting(s, stream, start) && input != []
    ensures var (t, ret) := CompleteCache(s, input);
            && ret.Success? && Configured(t) && t.hasNext == s.hasNext
            && (Direct(t, stream + input, start) || Filling(t, stream + input, start) || Draining(t, stream + input, start))
            && (Direct(t, stream + input, start) ==> t.data == input && s.numCopy == 0)
  {
    if s.numCopy > 0 {
      FillCacheKeeps(s, input, stream, start, if s.numCopy > |input| then |input| else s.numCopy);
    }
  }

  lemma CachedExtends(s: State, input: seq<int16>, n: nat)
    requires Bounded(s) && n <= s.numCopy && n <= |input| && s.pos + s.size + n <= |s.cache|
    ensures Cached(Appended(s, input, n)) == Cached(s) + input[..n]
  {
  }

  /** The first `n` samples of the chunk fit the cache, and its windows stay where they were. */
  lemma FillCacheFits(s: State, input: seq<int16>, n: nat)
    requires Configured(s) && 0 < n <= s.numCopy && n <= |input| && OnGrid(s)
    ensures var (t, ret) := FillCache(s, input, n);
            && ret.Success? && Configured(t) && t.hasNext == s.hasNext && t.size == s.size + n && t.pos == s.pos
            && t.numCopy == s.numCopy - n && t.numReal == n && OnGrid(t)
            && t.cache == Appended(s, input, n).cache
  {
  }

  /** The cached samples grow by them, and stay a piece of the stream. */
  lemma FillCacheCaches(s: State, input: seq<int16>, stream: seq<int16>, start: nat, n: nat)
    requires Waiting(s, stream, start) && 0 < n == if s.numCopy > |input| then |input| else s.numCopy
    ensures var t := FillCache(s, input, n).0;
            Cached(t) == Cached(s) + input[..n] && Cached(t) <= (stream + input)[start..]
  {
    FillCacheFits(s, input, n);
    CachedExtends(s, input, n);
    assert (stream + input)[start..] == Cached(s) + input;
    assert input[..n] <= input;
  }

  /** Once the cache is complete, `data` is what comes after, with the overlap of the next window. */
  lemma FillCacheKeepsTail(s: State, input: seq<int16>, stream: seq<int16>, start: nat, n: nat)
    requires Waiting(s, stream, start) && 0 < n == s.numCopy <= |input|
    ensures var kept := if n <= s.window - s.step then n else s.window - s.step;
            FillCache(s, input, n).0.data == (stream + input)[start + (s.size + n) - kept..]
  {
    var whole := stream + input;
    var kept := if n <= s.window - s.step then n else s.window - s.step;
    assert |stream| == start + s.size;
    assert whole[|stream| + (n - kept)..] == input[n - kept..];
  }

  lemma FilledDrains(t: State, whole: seq<int16>, start: nat)
    requires Configured(t) && OnGrid(t) && t.numCopy == 0 < t.numReal < t.window && start <= |whole|
    requires Cached(t) <= whole[start..]
    requires var kept := if t.numReal <= t.window - t.step then t.numReal else t.window - t.step;
             t.data == whole[start + t.size - kept..]
    ensures Draining(t, whole, start)
  {
  }

  lemma StillFilling(t: State, tail: seq<int16>, whole: seq<int16>, start: nat)
    requires Configured(t) && OnGrid(t) && 0 < t.numCopy < t.window && start <= |whole| && t.data == []
    requires Cached(t) == tail <= whole[start..] && |whole| == start + |tail|
    ensures Filling(t, whole, start)
  {
  }

  lemma FillCompletes(s: State, input: seq<int16>, stream: seq<int16>, start: nat)
    requires Waiting(s, stream, start) && 0 < s.numCopy <= |input|
    ensures Draining(FillCache(s, input, s.numCopy).0, stream + input, start)
  {
    FillCacheFits(s, input, s.numCopy);
    FillCacheCaches(s, input, stream, start, s.numCopy);
    FillCacheKeepsTail(s, input, stream, start, s.numCopy);
    FilledDrains(FillCache(s, input, s.numCopy).0, stream + input, start);
  }

  lemma FillContinues(s: State, input: seq<int16>, stream: seq<int16>, start: nat)
    requires Waiting(s, stream, start) && 0 < |input| < s.numCopy
    ensures Filling(FillCache(s, input, |input|).0, stream + input, start)
  {
    FillCacheFits(s, input, |input|);
    FillCacheCaches(s, input, stream, start, |input|);
    assert input[..|input|] == input;
    StillFilling(FillCache(s, input, |input|).0, Cached(s) + input, stream + input, start);
  }

  lemma FillCacheKeeps(s: State, input: seq<int16>, stream: seq<int16>, start: nat, n: nat)
    requires Waiting(s, stream, start) && 0 < n == if s.numCopy > |input| then |input| else s.numCopy
    ensures var (t, ret) := FillCache(s, input, n);
            && ret.Success? && Configured(t) && t.hasNext == s.hasNext && t.size > 0
            && (Filling(t, stream + input, start) || Draining(t, stream + input, start))
  {
    FillCacheFits(s, input, n);
    if s.numCopy == n {
      FillCompletes(s, input, stream, start);
    } else {
      FillContinues(s, input, stream, start);
    }
  }

  /** The tail of `Prepare`. */
  lemma PreparedSettles(t: State, stream: seq<int16>, start: nat, input: seq<int16>, s: State)
    requires Bounded(s) && CompleteCache(s, input) == (t, Success)
    requires Configured(t) && start <= |stream|
    requires Direct(t, stream, start) || Filling(t, stream, start) || Draining(t, stream, start)
    requires t.hasNext ==> t.window <= t.size || (t.numCopy == 0 && t.window <= |t.data|)
    requires Direct(t, stream, start) ==> t.data != []
    ensures Prepare(s, input).1.Success?
    ensures Settled(Prepare(s, input).0, stream, start)
  {
    if t.window <= t.size || t.window <= |t.data| {
      ReadySettles(t, stream, start);
    } else if t.size == 0 {
      MoveFills(t, t.data, false);
      var u := MoveDataToCache(t, t.data, false).0;
      assert Direct(t, stream, start);
      assert Filling(u, stream, start);
    } else {
      assert Filling(t, stream, start);
    }
  }

  /** Raising the flag when one source holds a window makes it right. */
  lemma ReadySettles(t: State, stream: seq<int16>, start: nat)
    requires Configured(t) && start <= |stream| && (t.window <= t.size || t.window <= |t.data|)
    requires Direct(t, stream, start) || Filling(t, stream, start) || Draining(t, stream, start)
    ensures Settled(t.(hasNext := true), stream, start)
  {
    var u := t.(hasNext := true);
    assert Cached(u) == Cached(t);
    assert Direct(t, stream, start) ==> Direct(u, stream, start);
    assert Filling(t, stream, start) ==> Filling(u, stream, start);
    assert Draining(t, stream, start) ==> Draining(u, stream, start);
  }

  /** `Prepare` appends its chunk to the stream. */
  lemma PrepareKeeps(s: State, input: seq<int16>, stream: seq<int16>, start: nat)
    requires Waiting(s, stream, start) && input != []
    requires s.hasNext ==> s.numCopy > 0 && s.window <= |input|
    ensures Prepare(s, input).1.Success?
    ensures Settled(Prepare(s, input).0, stream + input, start)
  {
    CompleteCacheKeeps(s, input, stream, start);
    PreparedSettles(CompleteCache(s, input).0, stream + input, start, input, s);
  }

  /** A leftover as long as the bound allows moves to the front of the cache and is completed from the chunk. */
  lemma LeftoverSettles(s: State, stream: seq<int16>, start: nat)
    requires Good(s, stream, start) && Leftover(s, stream, start)
    requires s.window <= 2 * s.step + 1
    ensures Settled(HasNext(s), stream, start)
  {
    MoveFills(s, Cached(s), true);
    var s1 := MoveDataToCache(s, Cached(s), true).0;
    var before := stream[..start + s.size];
    assert before[start..] == Cached(s);
    assert before + s.data == stream;
    PrepareKeeps(s1, s1.data, before, start);
  }

  lemma HasNextSettles(s: State, stream: seq<int16>, start: nat)
    requires Good(s, stream, start)
    requires s.window <= 2 * s.step + 1
    ensures Settled(HasNext(s), stream, start)
  {
    if Leftover(s, stream, start) {
      LeftoverSettles(s, stream, start);
    } else if s.size == 0 && 0 < |s.data| < s.window {
      ShortChunkSettles(s, stream, start);
    }
  }

  /** What is left of a chunk moves to the cache when it is shorter than a window. */
  lemma ShortChunkSettles(s: State, stream: seq<int16>, start: nat)
    requires Good(s, stream, start) && !Leftover(s, stream, start)
    requires s.size == 0 && 0 < |s.data| < s.window
    ensures Settled(HasNext(s), stream, start)
  {
    MoveFills(s, s.data, false);
    assert Direct(s, stream, start) && !s.hasNext;
    var t := MoveDataToCache(s, s.data, false).0.(data := []);
    assert HasNext(s) == t;
    assert OnGrid(t) && Cached(t) == stream[start..];
    assert Filling(t, stream, start);
  }

  /** In a settled state the flag is exact, and without a window all remaining samples are in the cache. */
  lemma SettledFlag(s: State, stream: seq<int16>, start: nat)
    requires Settled(s, stream, start)
    ensures s.hasNext <==> start + s.window <= |stream|
    ensures !s.hasNext ==> Drained(s, stream, start) && Waiting(s, stream, start)
    ensures HasNext(s) == s
  {
  }

  lemma AcceptKeeps(s: State, input: seq<int16>, stream: seq<int16>, start: nat)
    requires Settled(s, stream, start)
    ensures var (t, ret) := Accept(s, input);
            && (ret.Success? <==> |stream| < start + s.window && input != [])
            && Settled(t, if ret.Success? then stream + input else stream, start)
  {
    SettledFlag(s, stream, start);
    if !s.hasNext && input != [] {
      PrepareKeeps(s, input, stream, start);
    }
  }

  lemma FrontIsNextWindow(s: State, stream: seq<int16>, start: nat)
    requires Settled(s, stream, start) && s.hasNext
    ensures start + s.window <= |stream|
    ensures Front(s) == stream[start..start + s.window]
  {
    if s.window <= s.size {
      SliceOfSlice(s.cache, s.pos, s.pos + s.size, s.window);
      assert Cached(s) == stream[start..start + s.size];
    }
  }

  lemma EmitKeeps(s: State, stream: seq<int16>, start: nat)
    requires Settled(s, stream, start) && s.hasNext && start + s.window <= |stream|
    ensures Good(Emit(s), stream, start + s.step)
  {
    if s.window <= s.size {
      PopCacheKeeps(s, stream, start);
      FlagKeeps(PopCache(s), stream, start + s.step);
    } else {
      EmitFromData(s, stream, start);
    }
  }

  /** A settled iterator with a window hands out the window at `start` and moves on by one step. */
  lemma NextKeeps(s: State, stream: seq<int16>, start: nat, next: nat, w: seq<int16>)
    requires Settled(s, stream, start) && s.hasNext
    requires next == start + s.step && start + s.window <= |stream| && w == stream[start..start + s.window]
    ensures Front(s) == w
    ensures Good(Emit(s), stream, next)
  {
    FrontIsNextWindow(s, stream, start);
    EmitKeeps(s, stream, start);
  }

  lemma EmitFromData(s: State, stream: seq<int16>, start: nat)
    requires Settled(s, stream, start) && s.hasNext && s.size < s.window
    ensures Good(Emit(s), stream, start + s.step)
  {
    var t := s.(data := s.data[s.step..]);
    assert Direct(s, stream, start);
    assert t.data == stream[start + s.step..];
    FlagKeeps(t, stream, start + s.step);
  }

  /** Clearing the flag when neither source holds a window makes it right. */
  lemma FlagKeeps(t: State, stream: seq<int16>, start: nat)
    requires Configured(t) && start <= |stream| && t.hasNext
    requires Direct(t, stream, start) || Filling(t, stream, start) || Draining(t, stream, start) || Leftover(t, stream, start)
    ensures Good(if t.size < t.window && |t.data| < t.window then t.(hasNext := false) else t, stream, start)
  {
    var u := t.(hasNext := false);
    assert Cached(u) == Cached(t);
    assert Direct(t, stream, start) ==> Direct(u, stream, start);
    assert Filling(t, stream, start) ==> Filling(u, stream, start);
    assert Leftover(t, stream, start) ==> Leftover(u, stream, start);
  }

  /** After a window leaves the cache, the cache goes on filling or draining, or its rest becomes the leftover. */
  lemma PopCacheKeeps(s: State, stream: seq<int16>, start: nat)
    requires Configured(s) && start + s.window <= |stream| && s.window <= s.size
    requires Filling(s, stream, start) || Draining(s, stream, start)
    ensures var t := PopCache(s);
            && Configured(t)
            && (|| Direct(t, stream, start + s.step) || Filling(t, stream, start + s.step)
                || Draining(t, stream, start + s.step) || Leftover(t, stream, start + s.step))
  {
    if LastPos(s) > s.pos {
      PopBeforeLast(s, stream, start);
    } else {
      PopLast(s, stream, start);
    }
  }

  lemma PopBeforeLast(s: State, stream: seq<int16>, start: nat)
    requires Configured(s) && start + s.window <= |stream| && s.window <= s.size && LastPos(s) > s.pos
    requires Filling(s, stream, start) || Draining(s, stream, start)
    ensures var t := PopCache(s);
            Configured(t) && (Filling(t, stream, start + s.step) || Draining(t, stream, start + s.step))
  {
    var t := PopCache(s);
    assert OnGrid(t) && t.size == s.size - s.step;
    CachedTail(s, stream, start, t);
    assert stream[start + s.step..] == stream[start..][s.step..];
  }

  lemma PopLast(s: State, stream: seq<int16>, start: nat)
    requires Configured(s) && start + s.window <= |stream| && s.window <= s.size && LastPos(s) <= s.pos
    requires Filling(s, stream, start) || Draining(s, stream, start)
    ensures var t := PopCache(s);
            Configured(t) && (Direct(t, stream, start + s.step) || Leftover(t, stream, start + s.step))
  {
    var t := PopCache(s);
    assert s.size == s.window && Draining(s, stream, start);
    if t.size > 0 {
      CachedTail(s, stream, start, t);
    }
  }

  /** What stays in the cache after a window has left still follows the stream. */
  lemma CachedTail(s: State, stream: seq<int16>, start: nat, t: State)
    requires Bounded(s) && Bounded(t) && start + s.size <= |stream| && s.step <= s.size
    requires Cached(s) <= stream[start..]
    requires t.cache == s.cache && t.pos == s.pos + s.step && t.size <= s.size - s.step
    ensures Cached(t) == stream[start + s.step..start + s.step + t.size]
  {
    assert Cached(s) == stream[start..start + s.size];
    assert Cached(t) == Cached(s)[s.step..s.step + t.size];
  }

  // ---- Windows longer than two steps and a sample ----

  /** A leftover whose move to the front of the cache would overlap itself. */
  ghost predicate Stuck(s: State) {
    && Configured(s)
    && s.numCopy == 0
    && 0 < s.pos < s.size < s.window
    && !s.hasNext
    && |s.data| < s.window
  }

  /** After `Init`; the new cache may hold anything. */
  ghost function Fresh(step: nat, window: nat, cache: seq<int16>): State
    requires 0 < step <= window
  {
    State(step, window, 0, 0, cache, 0, 0, [], false)
  }

  /** `SetInput`. */
  ghost function Fed(s: State, chunk: seq<int16>): (r: State)
    requires Bounded(s)
    ensures Bounded(r)
  {
    Accept(HasNext(s), chunk).0
  }

  /** Every chunk is accepted, and `HasNext` never says that a window is ready. */
  ghost predicate Silent(s: State, chunks: seq<seq<int16>>)
    requires Bounded(s)
    decreases |chunks|
  {
    && !HasNext(s).hasNext
    && (chunks == [] || (Accept(HasNext(s), chunks[0]).1.Success? && Silent(Fed(s, chunks[0]), chunks[1..])))
  }

  lemma StuckStays(s: State)
    requires Stuck(s)
    ensures Stuck(HasNext(s))
  {
    assert Overlap(0, s.pos, s.size);
  }

  lemma {:induction false} StuckIsSilent(s: State, chunks: seq<seq<int16>>)
    requires Stuck(s)
    requires forall i :: 0 <= i < |chunks| ==> 0 < |chunks[i]| < s.window
    ensures Silent(s, chunks)
    decreases |chunks|
  {
    StuckStays(s);
    if chunks != [] {
      StuckIsSilent(Fed(s, chunks[0]), chunks[1..]);
    }
  }

  lemma FirstSample(step: nat, window: nat, cache: seq<int16>, a: int16)
    requires 0 < step < window && |cache| == CacheSizeFor(step, window)
    ensures var s := Fed(Fresh(step, window, cache), [a]);
            s == State(step, window, window - 1, 0, Copied(cache, 0, [a]), 0, 1, [a], false)
  {
    var s := Fresh(step, window, cache);
    MoveFills(s.(data := [a]), [a], false);
  }

  lemma AllButOne(s: State, b: seq<int16>)
    requires Configured(s) && s.numCopy == s.window - 1 && s.pos == 0 && s.size == 1 && !s.hasNext && |b| == s.window - 2 > 0
    ensures var t := Fed(s, b);
            && t == s.(numCopy := 1, numReal := |b|, cache := Copied(s.cache, 1, b), size := s.window - 1, data := [])
            && Configured(t) && Cached(t) == s.cache[..1] + b
  {
    assert HasNext(s) == s;
    assert b[..|b|] == b;
  }

  lemma LastSample(s: State, c: int16)
    requires Configured(s) && s.numCopy == 1 && s.pos == 0 && s.size == s.window - 1 > 0 && !s.hasNext
    requires s.window > s.step + 1
    ensures var t := Fed(s, [c]);
            && t == s.(numCopy := 0, numReal := 1, cache := Copied(s.cache, s.size, [c]), size := s.window, data := [c], hasNext := true)
            && Configured(t) && HasNext(t) == t && Front(t) == Cached(s) + [c]
  {
    assert HasNext(s) == s;
  }

  /**
   * Beyond the bound the iterator loses windows although `Init` accepts the configuration: fed one sample, then all
   * but one of a window, then one, it hands out that window, and from then on it takes every chunk shorter than a
   * window without ever finding another window ready.
   */
  lemma LongWindowsAreLost(step: nat, window: nat, cache: seq<int16>,
                           a: int16, b: seq<int16>, c: int16, later: seq<seq<int16>>)
    requires 0 < step && 2 * step + 1 < window && |cache| == CacheSizeFor(step, window)
    requires |b| == window - 2
    requires forall i :: 0 <= i < |later| ==> 0 < |later[i]| < window
    ensures var s := HasNext(FedInThree(step, window, cache, a, b, c));
            s.hasNext && Front(s) == [a] + b + [c] && Bounded(Emit(s)) && Silent(Emit(s), later)
  {
    FirstSample(step, window, cache, a);
    var s1 := Fed(Fresh(step, window, cache), [a]);
    assert s1.cache[..1] == [a];
    AllButOne(s1, b);
    var s2 := Fed(s1, b);
    LastSample(s2, c);
    StuckIsSilent(Emit(Fed(s2, [c])), later);
  }

  ghost function FedInThree(step: nat, window: nat, cache: seq<int16>, a: int16, b: seq<int16>, c: int16): (r: State)
    requires 0 < step <= window && |cache| == CacheSizeFor(step, window)
    ensures Bounded(r)
  {
    Fed(Fed(Fed(Fresh(step, window, cache), [a]), b), [c])
  }
}
