/** The loop of the keyword-spotting SDK around the iterator, and whole sessions of it. */
module KwsSession {
  import opened Platform
  import opened SlidingWindows
  import Model = PcmModel
  import Runs = PcmRuns
  import opened PcmIterator

  /** `windows` are the stream's windows from `start` on, one every `step` samples. */
  ghost predicate WindowsFrom(windows: seq<seq<int16>>, stream: seq<int16>, start: nat, step: nat, window: nat) {
    forall k :: 0 <= k < |windows| ==>
                  && start + k * step + window <= |stream|
                  && windows[k] == stream[start + k * step..start + k * step + window]
  }

  lemma WindowsGrow(windows: seq<seq<int16>>, stream: seq<int16>, more: seq<int16>, start: nat, step: nat, window: nat)
    requires WindowsFrom(windows, stream, start, step, window)
    ensures WindowsFrom(windows, stream + more, start, step, window)
  {
    forall k | 0 <= k < |windows|
      ensures start + k * step + window <= |stream + more|
      ensures windows[k] == (stream + more)[start + k * step..start + k * step + window]
    {
      ProductMonotone(0, k, step);
      SlicePrefix(stream, more, start + k * step, start + k * step + window);
    }
  }

  lemma SlicePrefix(a: seq<int16>, b: seq<int16>, lo: nat, hi: nat)
    requires lo <= hi <= |a|
    ensures (a + b)[lo..hi] == a[lo..hi]
  {
  }

  lemma WindowsExtend(windows: seq<seq<int16>>, w: seq<int16>, stream: seq<int16>, start: nat, next: nat, step: nat, window: nat)
    requires WindowsFrom(windows, stream, start, step, window)
    requires next == start + |windows| * step && next + window <= |stream| && w == stream[next..next + window]
    ensures WindowsFrom(windows + [w], stream, start, step, window)
    ensures next + step == start + |windows + [w]| * step
  {
  }

  lemma SumOfSteps(m: nat, n: nat, step: nat)
    ensures m * step + n * step == (m + n) * step
  {
  }

  lemma WindowsAppend(a: seq<seq<int16>>, b: seq<seq<int16>>, stream: seq<int16>, next: nat, step: nat, window: nat)
    requires WindowsFrom(a, stream, 0, step, window) && next == |a| * step && WindowsFrom(b, stream, next, step, window)
    ensures WindowsFrom(a + b, stream, 0, step, window) && next + |b| * step == |a + b| * step
  {
    SumOfSteps(|a|, |b|, step);
    forall k | 0 <= k < |a + b|
      ensures k * step + window <= |stream| && (a + b)[k] == stream[k * step..k * step + window]
    {
      if k >= |a| {
        SumOfSteps(|a|, k - |a|, step);
        assert (a + b)[k] == b[k - |a|];
      } else {
        assert (a + b)[k] == a[k];
      }
    }
  }

  /** Reads a window through its pointer. */
  method Read(window: Slice, ghost content: seq<int16>) returns (samples: seq<int16>)
    requires Holds(window, content)
    ensures samples == content
  {
    samples := window.buf[window.pos..window.pos + window.size];
  }

  ghost predicate AllSucceed(n: nat, execute: nat -> RetCode) {
    forall k :: 0 <= k < n ==> execute(k) == Success
  }

  /** `n` windows went through, all but the last if `ret` is its error. */
  ghost predicate Executed(n: nat, execute: nat -> RetCode, ret: RetCode) {
    if ret.Success? then AllSucceed(n, execute)
    else 0 < n && AllSucceed(n - 1, execute) && execute(n - 1) == ret
  }

  lemma OneMoreExecuted(n: nat, execute: nat -> RetCode, ret: RetCode)
    requires AllSucceed(n, execute) && ret == execute(n)
    ensures Executed(n + 1, execute, ret)
  {
  }

  /** Windows of the stream are still to be handed out. */
  ghost predicate Behind(it: PCMIterator)
    reads it
  {
    it.start + it.windowSize <= |it.stream|
  }

  /** Less than a window is left of the stream, and the cache holds it: the caller may drop its chunk. */
  ghost predicate AllCached(it: PCMIterator)
    reads it
  {
    it.start + it.cacheSize == |it.stream| < it.start + it.windowSize
  }

  /** In order, or blocked behind windows that were not handed out. */
  ghost predicate Usable(it: PCMIterator)
    reads it, it.cache, it.data.buf
  {
    it.Valid() || (it.Mirrors() && Runs.Blocked(it.s) && Behind(it))
  }

  /** `windows` are what has been handed out since the next window began at `from`. */
  ghost predicate HandedOut(it: PCMIterator, windows: seq<seq<int16>>, from: nat)
    reads it
  {
    && it.start == from + |windows| * it.stepSize
    && WindowsFrom(windows, it.stream, from, it.stepSize, it.windowSize)
  }

  /** Takes one window, and reads it before another is asked for. */
  method Take(it: PCMIterator) returns (samples: seq<int16>)
    requires it.Valid() && Behind(it)
    modifies it`s, it`numCopy, it`numRealCopy, it`nextCachePos, it`cacheSize, it`hasNext, it`data, it`start, it.cache
    ensures it.Valid() && it.data.buf == old(it.data.buf) && it.start == old(it.start) + it.stepSize
    ensures samples == old(it.stream[it.start..it.start + it.windowSize])
  {
    var window, content := it.Next();
    samples := Read(window, content);
  }

  method TakeNext(it: PCMIterator, windows: seq<seq<int16>>, ghost from: nat) returns (windows': seq<seq<int16>>)
    requires it.Valid() && Behind(it) && HandedOut(it, windows, from)
    modifies it`s, it`numCopy, it`numRealCopy, it`nextCachePos, it`cacheSize, it`hasNext, it`data, it`start, it.cache
    ensures it.Valid() && it.data.buf == old(it.data.buf) && it.start == old(it.start) + it.stepSize
    ensures HandedOut(it, windows', from) && windows <= windows' && |windows'| == |windows| + 1
  {
    ghost var w := it.stream[it.start..it.start + it.windowSize];
    WindowsExtend(windows, w, it.stream, from, it.start, it.stepSize, it.windowSize);
    var samples := Take(it);
    assert samples == w;
    windows' := windows + [samples];
  }

  /** One turn of the loop: the next window, and what it leads to. */
  method TakeAndExecute(it: PCMIterator, windows: seq<seq<int16>>, ghost from: nat, execute: nat -> RetCode)
    returns (code: RetCode, windows': seq<seq<int16>>, more: bool)
    requires it.Valid() && Behind(it) && HandedOut(it, windows, from)
    modifies it`s, it`numCopy, it`numRealCopy, it`nextCachePos, it`cacheSize, it`hasNext, it`data, it`start, it.cache
    ensures it.Valid() && it.data.buf == old(it.data.buf) && it.start == old(it.start) + it.stepSize
    ensures HandedOut(it, windows', from) && windows <= windows' && |windows'| == |windows| + 1
    ensures code == execute(|windows|)
    ensures code.Success? ==> (more <==> Behind(it))
    ensures code.Success? && !more ==> AllCached(it)
  {
    windows' := TakeNext(it, windows, from);
    code := execute(|windows|);
    more := true;
    if code == Success {
      more := it.HasNext();
    }
  }

  /**
   * The loop `while HasNext: Next`. `execute(k)` is what feature extraction and the remote call answer for its `k`-th
   * window; the first error ends the loop.
   */
  method Drain(it: PCMIterator, execute: nat -> RetCode) returns (ret: RetCode, windows: seq<seq<int16>>)
    requires it.Valid()
    modifies it`s, it`numCopy, it`numRealCopy, it`nextCachePos, it`cacheSize, it`hasNext, it`data, it`start, it.cache
    ensures it.Valid() && it.data.buf == old(it.data.buf)
    ensures HandedOut(it, windows, old(it.start)) && Executed(|windows|, execute, ret)
    ensures ret.Success? ==> AllCached(it)
  {
    windows := [];
    ret := Success;
    var more := it.HasNext();
    while more
      invariant it.Valid() && it.data.buf == old(it.data.buf)
      invariant HandedOut(it, windows, old(it.start))
      invariant ret == Success && AllSucceed(|windows|, execute)
      invariant more <==> Behind(it)
      invariant !more ==> AllCached(it)
      decreases |it.stream| - it.start
    {
      ghost var n := |windows|;
      ret, windows, more := TakeAndExecute(it, windows, old(it.start), execute);
      OneMoreExecuted(n, execute, ret);
      if ret != Success {
        return;
      }
    }
  }

  /** Hands a chunk to the iterator. While windows of an earlier chunk wait, that fails, and the iterator is blocked. */
  method HandIn(it: PCMIterator, input: Slice, ghost chunk: seq<int16>) returns (ret: RetCode)
    requires Usable(it)
    requires input.buf != it.cache && Holds(input, chunk)
    modifies it`s, it`numCopy, it`numRealCopy, it`nextCachePos, it`cacheSize, it`hasNext, it`data, it`stream, it.cache
    ensures old(Behind(it)) ==>
              && !ret.Success? && it.stream == old(it.stream) && it.data.buf == old(it.data.buf)
              && it.Mirrors() && Runs.Blocked(it.s)
    ensures !old(Behind(it)) ==> it.Valid() && it.stream == old(it.stream) + chunk && (ret.Success? <==> chunk != [])
    ensures !old(Behind(it)) && chunk == [] ==> AllCached(it)
    ensures it.data.buf == input.buf || (it.data.buf == old(it.data.buf) && !ret.Success?)
  {
    if Runs.Blocked(it.s) {
      Runs.BlockedStays(it.s, chunk, it.s.data);
    } else if Behind(it) {
      Runs.BehindRefuses(it.s, it.stream, it.start, chunk);
    }
    ret := it.SetInput(input, chunk);
  }

  /**
   * `SyncExecute`: hands a chunk to the iterator and drains it. While windows of an earlier chunk wait, nothing
   * moves, the call fails, and the iterator is blocked.
   */
  method SyncExecute(it: PCMIterator, input: Slice, ghost chunk: seq<int16>, execute: nat -> RetCode)
    returns (ret: RetCode, windows: seq<seq<int16>>)
    requires Usable(it)
    requires input.buf != it.cache && Holds(input, chunk)
    modifies it`s, it`numCopy, it`numRealCopy, it`nextCachePos, it`cacheSize, it`hasNext, it`data, it`stream, it`start, it.cache
    ensures old(Behind(it)) ==>
              && ret == Failure && windows == [] && it.stream == old(it.stream) && it.start == old(it.start)
              && it.Mirrors() && Runs.Blocked(it.s) && it.data.buf == old(it.data.buf)
    ensures !old(Behind(it)) ==> it.Valid() && it.stream == old(it.stream) + chunk && HandedOut(it, windows, old(it.start))
    ensures !old(Behind(it)) && chunk == [] ==> ret == Failure && windows == []
    ensures !old(Behind(it)) && chunk != [] ==> it.data.buf == input.buf && Executed(|windows|, execute, ret)
    ensures !old(Behind(it)) && (chunk == [] || ret.Success?) ==> AllCached(it)
    ensures it.data.buf == old(it.data.buf) || it.data.buf == input.buf
  {
    ret := HandIn(it, input, chunk);
    if !ret.Success? {
      windows := [];
      assert |windows| * it.stepSize == 0;
      return Failure, windows;
    }
    ret, windows := Drain(it, execute);
  }

  lemma RepeatOneMore<T>(n: nat, x: T)
    ensures Repeat(n + 1, x) == [x] + Repeat(n, x)
  {
  }

  /** `stream` with `noise` from sample `from` on. */
  ghost function Overwritten(stream: seq<int16>, from: nat, noise: int16): (r: seq<int16>)
    requires from <= |stream|
    ensures |r| == |stream|
  {
    stream[..from] + Repeat(|stream| - from, noise)
  }

  lemma NothingOverwritten(stream: seq<int16>, noise: int16)
    ensures Overwritten(stream, |stream|, noise) == stream
  {
  }

  lemma SeenIsOverwritten(s: Model.State, stream: seq<int16>, start: nat, d: seq<int16>, all: bool, noise: int16)
    requires start + s.size <= |stream| == |Runs.Seen(s, stream, start, d)|
    requires all ==> forall k :: 0 <= k < |d| ==> d[k] == noise
    ensures all || start + s.size == |stream| ==>
              Runs.Seen(s, stream, start, d) == Overwritten(stream, start + s.size, noise)
  {
  }

  method WriteOver(it: PCMIterator, buf: array<int16>, noise: int16)
    requires it.Mirrors() && buf != it.cache
    modifies it`s, buf
    ensures it.Mirrors() && it.s == old(it.s).(data := it.s.data)
    ensures buf == it.data.buf ==> forall k :: 0 <= k < |it.s.data| ==> it.s.data[k] == noise
  {
    forall k | 0 <= k < buf.Length {
      buf[k] := noise;
    }
    it.Reread();
  }

  /**
   * The caller writes over a buffer. An iterator that has yet to read from it goes on, behind what is in the cache,
   * with what has been written, unless the cache holds a window; then it is blocked.
   */
  method Overwrite(it: PCMIterator, buf: array<int16>, noise: int16)
    requires it.Valid() && buf != it.cache
    modifies it`s, it`stream, buf
    ensures |it.stream| == |old(it.stream)|
    ensures if it.cacheSize < it.windowSize then it.Valid() && it.start + it.cacheSize <= |it.stream|
            else it.Mirrors() && Runs.Blocked(it.s) && Behind(it)
    ensures it.cacheSize < it.windowSize && (buf == it.data.buf || it.start + it.cacheSize == |it.stream|) ==>
              it.stream == Overwritten(old(it.stream), it.start + it.cacheSize, noise)
  {
    ghost var s, stream := it.s, it.stream;
    WriteOver(it, buf, noise);
    Runs.OverwrittenGoesOn(s, stream, it.start, it.s.data);
    if s.size < s.window {
      it.stream := Runs.Seen(s, stream, it.start, it.s.data);
      SeenIsOverwritten(s, stream, it.start, it.s.data, buf == it.data.buf, noise);
    }
  }

  /** A call while windows wait. */
  method Refuse(it: PCMIterator, chunk: seq<int16>) returns (code: RetCode)
    requires Usable(it) && Behind(it)
    modifies it`s, it`numCopy, it`numRealCopy, it`nextCachePos, it`cacheSize, it`hasNext, it`data, it`stream, it`start, it.cache
    ensures it.Mirrors() && Runs.Blocked(it.s) && Behind(it)
    ensures code == Failure && it.start == old(it.start) && it.data.buf == old(it.data.buf)
  {
    var buf := new int16[|chunk|](k requires 0 <= k < |chunk| => chunk[k]);
    var ret, _ := SyncExecute(it, Slice(buf, 0, buf.Length), chunk, (k: nat) => Success);
    return ret;
  }

  method RefuseAll(it: PCMIterator, chunks: seq<seq<int16>>, noise: int16) returns (codes: seq<RetCode>)
    requires it.Mirrors() && Runs.Blocked(it.s) && Behind(it)
    modifies it`s, it`numCopy, it`numRealCopy, it`nextCachePos, it`cacheSize, it`hasNext, it`data, it`stream, it`start,
             it.cache, it.data.buf
    ensures codes == Repeat(|chunks|, Failure) && it.start == old(it.start)
  {
    codes := [];
    for i := 0 to |chunks|
      invariant codes == Repeat(i, Failure)
      invariant it.Mirrors() && Runs.Blocked(it.s) && Behind(it)
      invariant it.start == old(it.start) && it.cache == old(it.cache) && it.data.buf == old(it.data.buf)
    {
      ghost var s := it.s;
      WriteOver(it, it.data.buf, noise);
      Runs.BlockedStays(s, [], it.s.data);
      var code := Refuse(it, chunks[i]);
      codes := codes + [code];
    }
  }

  /**
   * An error in the middle of a chunk that holds further windows blocks the session for good: every later call fails
   * and hands out nothing, whatever chunk it brings, and whatever the caller has written over the old one before.
   */
  method StaysBlocked(it: PCMIterator, chunks: seq<seq<int16>>, noise: int16) returns (codes: seq<RetCode>)
    requires it.Valid() && Behind(it)
    modifies it`s, it`numCopy, it`numRealCopy, it`nextCachePos, it`cacheSize, it`hasNext, it`data, it`stream, it`start,
             it.cache, it.data.buf
    ensures codes == Repeat(|chunks|, Failure) && it.start == old(it.start)
  {
    if chunks == [] {
      return [];
    }
    Overwrite(it, it.data.buf, noise);
    var code := Refuse(it, chunks[0]);
    codes := RefuseAll(it, chunks[1..], noise);
    RepeatOneMore(|chunks| - 1, Failure);
    codes := [code] + codes;
  }

  ghost function Flatten(chunks: seq<seq<int16>>): seq<int16> {
    if chunks == [] then [] else Flatten(chunks[..|chunks| - 1]) + chunks[|chunks| - 1]
  }

  lemma {:induction false} FlattenAppend(a: seq<seq<int16>>, b: seq<seq<int16>>)
    ensures Flatten(a + b) == Flatten(a) + Flatten(b)
  {
    if b == [] {
      assert a + b == a;
    } else {
      var init := b[..|b| - 1];
      FlattenAppend(a, init);
      assert (a + b)[..|a + b| - 1] == a + init;
    }
  }

  /** The stream of a session is its chunks one after the other, every one of them. */
  lemma FlattenIsConcatenation(a: seq<seq<int16>>, c: seq<int16>, b: seq<seq<int16>>)
    ensures Flatten([]) == [] && Flatten([c]) == c
    ensures Flatten(a + [c] + b) == Flatten(a) + c + Flatten(b)
  {
    assert [c][..0] == [];
    FlattenAppend(a, [c]);
    FlattenAppend(a + [c], b);
  }

  /** A call with a buffer of the caller's. */
  method CallOnce(it: PCMIterator, chunk: seq<int16>, execute: nat -> RetCode)
    returns (ret: RetCode, windows: seq<seq<int16>>, buf: array<int16>)
    requires it.Valid() && !Behind(it)
    modifies it`s, it`numCopy, it`numRealCopy, it`nextCachePos, it`cacheSize, it`hasNext, it`data, it`stream, it`start, it.cache
    ensures it.Valid() && it.stream == old(it.stream) + chunk && HandedOut(it, windows, old(it.start))
    ensures if chunk == [] then ret == Failure && windows == [] else Executed(|windows|, execute, ret)
    ensures chunk == [] || ret.Success? ==> AllCached(it)
    ensures fresh(buf) && (it.data.buf == buf || AllCached(it))
  {
    buf := new int16[|chunk|](k requires 0 <= k < |chunk| => chunk[k]);
    ret, windows := SyncExecute(it, Slice(buf, 0, buf.Length), chunk, execute);
  }

  /**
   * One call of a session, whatever comes of it; the caller overwrites its chunk as soon as the call returns. Unless
   * that blocks the iterator, the stream goes on with what is in the cache, and behind it with what has been written:
   * nothing after a success, the rest of the chunk after an error.
   */
  method FeedChunk(it: PCMIterator, chunk: seq<int16>, execute: nat -> RetCode, noise: int16)
    returns (ret: RetCode, windows: seq<seq<int16>>)
    requires it.Valid() && !Behind(it)
    modifies it`s, it`numCopy, it`numRealCopy, it`nextCachePos, it`cacheSize, it`hasNext, it`data, it`stream, it`start, it.cache
    ensures it.start == old(it.start) + |windows| * it.stepSize
    ensures WindowsFrom(windows, old(it.stream) + chunk, old(it.start), it.stepSize, it.windowSize)
    ensures if chunk == [] then ret == Failure && windows == [] else Executed(|windows|, execute, ret)
    ensures it.windowSize <= it.cacheSize ==> it.Mirrors() && Runs.Blocked(it.s) && Behind(it)
    ensures it.cacheSize < it.windowSize ==>
              && it.Valid() && it.start + it.cacheSize <= |old(it.stream) + chunk|
              && it.stream == Overwritten(old(it.stream) + chunk, it.start + it.cacheSize, noise)
    ensures chunk == [] || ret.Success? ==> it.Valid() && AllCached(it) && it.stream == old(it.stream) + chunk
  {
    var buf;
    ret, windows, buf := CallOnce(it, chunk, execute);
    NothingOverwritten(it.stream, noise);
    Overwrite(it, buf, noise);
  }

  method Open(step: nat, window: nat) returns (it: PCMIterator)
    requires 0 < step <= window <= 2 * step + 1
    requires Model.CacheSizeFor(step, window) <= Model.MAX_CACHE_SIZE
    ensures fresh(it) && fresh(it.cache) && it.stepSize == step && it.windowSize == window && it.stream == [] && it.start == 0
    ensures it.Valid() && !Behind(it)
  {
    it := new PCMIterator();
    Model.CacheSizeExact(step, window);
    var _ := it.Init(step, window);
  }

  /** Where a session stands between two successful calls: `out` is every window handed out. */
  ghost predicate Between(it: PCMIterator, out: seq<seq<int16>>)
    reads it, it.cache, it.data.buf
  {
    it.Valid() && !Behind(it) && HandedOut(it, out, 0)
  }

  /** One call that succeeds. */
  method FeedNext(it: PCMIterator, chunk: seq<int16>, out: seq<seq<int16>>) returns (out': seq<seq<int16>>)
    requires Between(it, out)
    modifies it`s, it`numCopy, it`numRealCopy, it`nextCachePos, it`cacheSize, it`hasNext, it`data, it`stream, it`start, it.cache
    ensures Between(it, out') && it.stream == old(it.stream) + chunk
  {
    ghost var next, stream := it.start, it.stream;
    WindowsGrow(out, stream, chunk, 0, it.stepSize, it.windowSize);
    var ret, windows := FeedChunk(it, chunk, (k: nat) => Success, 0);
    assert ret.Success? || chunk == [];
    WindowsAppend(out, windows, it.stream, next, it.stepSize, it.windowSize);
    out' := out + windows;
  }

  /** Chunking invariance: however a stream is cut into chunks, a session hands out exactly the stream's windows. */
  method Session(step: nat, window: nat, chunks: seq<seq<int16>>) returns (out: seq<seq<int16>>)
    requires 0 < step <= window <= 2 * step + 1
    requires Model.CacheSizeFor(step, window) <= Model.MAX_CACHE_SIZE
    ensures IsSlidingWindows(out, Flatten(chunks), step, window)
  {
    var it := Open(step, window);
    out := [];
    for i := 0 to |chunks|
      invariant Between(it, out) && it.stream == Flatten(chunks[..i])
      invariant fresh(it) && fresh(it.cache) && it.stepSize == step && it.windowSize == window
    {
      assert chunks[..i + 1][..i] == chunks[..i];
      out := FeedNext(it, chunks[i], out);
    }
    assert chunks[..|chunks|] == chunks;
  }

  /** Hands a chunk to the iterator in any configuration; `ready` is what `HasNext` said before. */
  method Offer(it: PCMIterator, chunk: seq<int16>) returns (ready: bool, ret: RetCode)
    requires it.Mirrors()
    modifies it`s, it`numCopy, it`numRealCopy, it`nextCachePos, it`cacheSize, it`hasNext, it`data, it.cache
    ensures it.Mirrors() && (it.data.buf == old(it.data.buf) || fresh(it.data.buf))
    ensures ready == Model.HasNext(old(it.s)).hasNext
    ensures (it.s, ret) == Model.Accept(Model.HasNext(old(it.s)), chunk)
  {
    var buf := new int16[|chunk|](k requires 0 <= k < |chunk| => chunk[k]);
    it.Recache();
    ready := it.hasNext;
    ret := it.Accept(Slice(buf, 0, buf.Length), chunk);
  }

  method OfferSilently(it: PCMIterator, chunks: seq<seq<int16>>) returns (ready: bool, code: RetCode)
    requires it.Mirrors() && chunks != [] && Model.Silent(it.s, chunks)
    modifies it`s, it`numCopy, it`numRealCopy, it`nextCachePos, it`cacheSize, it`hasNext, it`data, it.cache
    ensures it.Mirrors() && (it.data.buf == old(it.data.buf) || fresh(it.data.buf))
    ensures !ready && code == Success && Model.Silent(it.s, chunks[1..])
  {
    ready, code := Offer(it, chunks[0]);
  }

  method AnswerSilently(it: PCMIterator) returns (ready: bool)
    requires it.Mirrors() && Model.Silent(it.s, [])
    modifies it`s, it`numCopy, it`numRealCopy, it`nextCachePos, it`cacheSize, it`hasNext, it`data, it.cache
    ensures !ready
  {
    it.Recache();
    ready := it.hasNext;
  }

  /** Feeds chunks that never make a window ready. */
  method OfferAll(it: PCMIterator, chunks: seq<seq<int16>>) returns (ready: seq<bool>, codes: seq<RetCode>)
    requires it.Mirrors() && Model.Silent(it.s, chunks)
    modifies it`s, it`numCopy, it`numRealCopy, it`nextCachePos, it`cacheSize, it`hasNext, it`data, it.cache
    ensures ready == Repeat(|chunks| + 1, false) && codes == Repeat(|chunks|, Success)
  {
    ready, codes := [], [];
    for i := 0 to |chunks|
      invariant it.Mirrors() && Model.Silent(it.s, chunks[i..])
      invariant it.cache == old(it.cache)
      invariant ready == Repeat(i, false) && codes == Repeat(i, Success)
    {
      assert chunks[i..][1..] == chunks[i + 1..];
      var hasNext, code := OfferSilently(it, chunks[i..]);
      ready, codes := ready + [hasNext], codes + [code];
    }
    var hasNext := AnswerSilently(it);
    ready := ready + [hasNext];
  }

  /** A new iterator, in any configuration that `Init` accepts, whatever its cache holds. */
  method Start(step: nat, window: nat) returns (it: PCMIterator)
    requires 0 < step <= window < SIZE_T_MODULUS && 0 <= Model.CacheSizeComputed(step, window) <= Model.MAX_CACHE_SIZE
    ensures fresh(it) && fresh(it.cache) && it.Mirrors() && |it.s.cache| == Model.CacheSizeComputed(step, window)
    ensures it.s == Model.Fresh(step, window, it.s.cache)
  {
    it := new PCMIterator();
    var _ := it.Init(step, window);
  }

  method StartExact(step: nat, window: nat) returns (it: PCMIterator)
    requires 0 < step <= window && Model.CacheSizeFor(step, window) <= Model.MAX_CACHE_SIZE
    ensures fresh(it) && fresh(it.cache) && it.Mirrors() && |it.s.cache| == Model.CacheSizeFor(step, window)
    ensures it.s == Model.Fresh(step, window, it.s.cache)
  {
    Model.CacheSizeExact(step, window);
    it := Start(step, window);
  }

  /**
   * If the size of the cache was cut to 32 bits, a chunk that is longer than the cache and shorter than a window is
   * refused although no window waits, and then forgotten: the iterator is as new.
   */
  method ForgettingSession(step: nat, window: nat, chunk: seq<int16>) returns (code: RetCode, more: bool, it: PCMIterator)
    requires 0 < step <= window < SIZE_T_MODULUS && 0 <= Model.CacheSizeComputed(step, window) <= Model.MAX_CACHE_SIZE
    requires Model.CacheSizeFor(step, window) > Model.MAX_CACHE_SIZE
    requires Model.CacheSizeComputed(step, window) < |chunk| < window
    ensures code == MemoryCopyFailure && !more
    ensures it.Mirrors() && it.s == Model.Fresh(step, window, it.s.cache)
  {
    it := Start(step, window);
    Runs.ChunkIsForgotten(it.s, chunk);
    var _, c := Offer(it, chunk);
    it.Recache();
    return c, it.hasNext, it;
  }

  /**
   * Beyond the bound a session loses windows: after a sample, all but one of a window, and a sample, it hands out
   * that window, and then accepts every chunk shorter than a window without ever answering that one is ready.
   */
  method LosingSession(step: nat, window: nat, a: int16, b: seq<int16>, c: int16, later: seq<seq<int16>>)
    returns (first: seq<int16>, ready: seq<bool>, codes: seq<RetCode>)
    requires 0 < step && 2 * step + 1 < window && Model.CacheSizeFor(step, window) <= Model.MAX_CACHE_SIZE
    requires |b| == window - 2 && forall i :: 0 <= i < |later| ==> 0 < |later[i]| < window
    ensures first == [a] + b + [c]
    ensures ready == Repeat(|later| + 1, false) && codes == Repeat(|later|, Success)
  {
    var it := StartExact(step, window);
    Model.LongWindowsAreLost(step, window, it.s.cache, a, b, c, later);
    var _, _ := Offer(it, [a]);
    var _, _ := Offer(it, b);
    var _, _ := Offer(it, [c]);
    first := TakeAnyway(it);
    ready, codes := OfferAll(it, later);
  }

  /** `Next` in any configuration, when `HasNext` says that a window is ready. */
  method TakeAnyway(it: PCMIterator) returns (window: seq<int16>)
    requires it.Mirrors()
    requires var s := Model.HasNext(it.s); s.window <= s.size || s.window <= |s.data|
    modifies it`s, it`numCopy, it`numRealCopy, it`nextCachePos, it`cacheSize, it`hasNext, it`data, it.cache
    ensures it.Mirrors() && it.data.buf == old(it.data.buf)
    ensures window == Model.Front(Model.HasNext(old(it.s))) && it.s == Model.Emit(Model.HasNext(old(it.s)))
  {
    it.Recache();
    var slice, content := it.TakeFront();
    window := Read(slice, content);
  }
}
